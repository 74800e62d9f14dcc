/** The whole pipeline on a concrete shape of input. */
module PipelineScenarios {
  import opened Normalizer
  import opened Batching
  import opened Dispatch
  import opened Text

  /**
   * A 200-row table with columns `name` and `email` gives 200 records whose
   * text is `"<name> <email>"`, sent as three batches of 96, 96 and 8; the
   * upload succeeds exactly when those three are accepted.
   */
  lemma NameEmailTable(frame: Frame, service: nat -> Outcome)
    requires frame.columns == ["name", "email"] && |frame.rows| == 200
    ensures |Normalize(DataFrame(frame))| == 200
    ensures forall k :: 0 <= k < 200 ==>
      Normalize(DataFrame(frame))[k].text == frame.rows[k][0] + " " + frame.rows[k][1]
    ensures |Batches(Normalize(DataFrame(frame)), BATCH_SIZE)| == 3
    ensures |Batches(Normalize(DataFrame(frame)), BATCH_SIZE)[0]| == 96
    ensures |Batches(Normalize(DataFrame(frame)), BATCH_SIZE)[1]| == 96
    ensures |Batches(Normalize(DataFrame(frame)), BATCH_SIZE)[2]| == 8
    ensures UploadSucceeds(DataFrame(frame), service) <==>
      service(1).Accepted? && service(2).Accepted? && service(3).Accepted?
  {
    var records := Normalize(DataFrame(frame));
    assert TEXT_COLUMN != "name" && TEXT_COLUMN != "email";
    forall k | 0 <= k < 200
      ensures records[k].text == frame.rows[k][0] + " " + frame.rows[k][1]
    {
      var row := frame.rows[k];
      assert |row| == 2;
      assert JoinWithSpace(row[1..]) == row[1];
    }
    BatchesCount(records, BATCH_SIZE);
    DivUnique(200 + BATCH_SIZE - 1, BATCH_SIZE, 3, 7);
    BatchesAt(records, BATCH_SIZE, 0);
    BatchesAt(records, BATCH_SIZE, 1);
    BatchesAt(records, BATCH_SIZE, 2);
  }
}
