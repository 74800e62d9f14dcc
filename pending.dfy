/**
 * The pending-upload queue of the main page: the session lists
 * `selected_packs` and `uploaded_data`, filled by "Add data to pack" and
 * drained by "Upload all data to Pinecone".
 */
module PendingUploads {
  import opened Wrappers
  import opened Normalizer
  import opened Batching
  import opened Dispatch

  /** What the upload-all button reports for one queued pair. */
  datatype PackResult = PackResult(pack: string, uploaded: bool)

  /** Either the error shown for an empty queue, or one result per queued pair in queue order. */
  datatype UploadReport = NothingToUpload | Uploaded(results: seq<PackResult>)

  class PendingQueue {
    var selectedPacks: seq<string>
    var uploadedData: seq<SourceData>

    /** The two lists are parallel: entry `i` of one belongs with entry `i` of the other. */
    ghost predicate Valid()
      reads this
    {
      |selectedPacks| == |uploadedData|
    }

    /** The session starts with both lists empty. */
    constructor ()
      ensures Valid()
      ensures selectedPacks == [] && uploadedData == []
    {
      selectedPacks := [];
      uploadedData := [];
    }

    /**
     * "Add data to pack": queues the pair only when a pack is chosen (a
     * non-empty name) and data was loaded (`data is not None`); otherwise
     * nothing changes. `added` is whether the confirmation is shown.
     */
    method AddDataToPack(packOption: string, data: Option<SourceData>) returns (added: bool)
      requires Valid()
      modifies this
      ensures Valid()
      ensures added <==> packOption != "" && data.Some?
      ensures added ==>
        selectedPacks == old(selectedPacks) + [packOption] && uploadedData == old(uploadedData) + [data.value]
      ensures !added ==> selectedPacks == old(selectedPacks) && uploadedData == old(uploadedData)
    {
      added := packOption != "" && data.Some?;
      if added {
        selectedPacks := selectedPacks + [packOption];
        uploadedData := uploadedData + [data.value];
      }
    }

    /**
     * "Upload all data to Pinecone": with both lists non-empty, uploads each
     * (pack, data) pair in queue order, pair `i`'s records under pack `i` and
     * the session's user, and then empties both lists, whatever the
     * individual results; a failed pair has sent its batches up to and
     * including the first refused one and none after it. Otherwise it only
     * reports the error. Pair `i` is
     * answered by the oracle `service(i)`; `sent[i]` lists its invocations.
     */
    method UploadAll(username: string, service: nat -> nat -> Outcome)
      returns (report: UploadReport, sent: seq<seq<Request>>)
      requires Valid()
      modifies this
      ensures Valid()
      ensures old(selectedPacks) == [] || old(uploadedData) == [] ==>
        && report == NothingToUpload && sent == []
        && selectedPacks == old(selectedPacks) && uploadedData == old(uploadedData)
      ensures old(selectedPacks) != [] && old(uploadedData) != [] ==>
        && selectedPacks == [] && uploadedData == []
        && report.Uploaded?
        && |report.results| == |old(selectedPacks)| == |sent|
        && forall i :: 0 <= i < |sent| ==>
             && report.results[i] == PackResult(old(selectedPacks)[i], UploadSucceeds(old(uploadedData)[i], service(i)))
             && |sent[i]| <= |Batches(Normalize(old(uploadedData)[i]), BATCH_SIZE)|
             && (forall k :: 0 <= k < |sent[i]| ==>
                   sent[i][k] == Request(CREATE_PACK, username, Batches(Normalize(old(uploadedData)[i]), BATCH_SIZE)[k], old(selectedPacks)[i]))
             && Flatten(Payloads(sent[i])) <= Normalize(old(uploadedData)[i])
             && (report.results[i].uploaded ==> Flatten(Payloads(sent[i])) == Normalize(old(uploadedData)[i]))
             && (forall b :: 1 <= b < |sent[i]| ==> service(i)(b).Accepted?)
             && (report.results[i].uploaded ==> |sent[i]| == |Batches(Normalize(old(uploadedData)[i]), BATCH_SIZE)|)
             && (!report.results[i].uploaded ==> StopsAt(service(i), |sent[i]|))
    {
      sent := [];
      if uploadedData == [] || selectedPacks == [] {
        report := NothingToUpload;
        return;
      }
      var packs, pending := selectedPacks, uploadedData;
      var results: seq<PackResult> := [];
      for i := 0 to |packs|
        invariant |results| == i == |sent|
        invariant forall j :: 0 <= j < i ==>
          && results[j] == PackResult(packs[j], UploadSucceeds(pending[j], service(j)))
          && |sent[j]| <= |Batches(Normalize(pending[j]), BATCH_SIZE)|
          && (forall k :: 0 <= k < |sent[j]| ==>
                sent[j][k] == Request(CREATE_PACK, username, Batches(Normalize(pending[j]), BATCH_SIZE)[k], packs[j]))
          && Flatten(Payloads(sent[j])) <= Normalize(pending[j])
          && (results[j].uploaded ==> Flatten(Payloads(sent[j])) == Normalize(pending[j]))
          && (forall b :: 1 <= b < |sent[j]| ==> service(j)(b).Accepted?)
          && (results[j].uploaded ==> |sent[j]| == |Batches(Normalize(pending[j]), BATCH_SIZE)|)
          && (!results[j].uploaded ==> StopsAt(service(j), |sent[j]|))
      {
        var success, invoked := UploadToPinecone(pending[i], packs[i], username, service(i));
        results := results + [PackResult(packs[i], success)];
        sent := sent + [invoked];
      }
      selectedPacks := [];
      uploadedData := [];
      report := Uploaded(results);
    }
  }
}
