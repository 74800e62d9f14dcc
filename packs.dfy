/**
 * `get_current_packs`: the reply of the pack-listing call, turned into the
 * rows of the "Current Packs" table.
 */
module PackListing {
  import opened Wrappers

  /** One pack as the metadata backend sends it. */
  datatype RawPack = RawPack(packName: string, description: string, dateCreated: string, id: int)

  /** One row of the table: name, description, creation date, pack id. */
  datatype PackRow = PackRow(packName: string, description: string, dateCreated: string, packId: int)

  /**
   * The listing call: its `statusCode` and, when the body decodes and has
   * a `packs` list, that list; or an exception while invoking it.
   */
  datatype ListReply = Reply(statusCode: int, packs: Option<seq<RawPack>>) | InvokeRaised

  /** `s.split('T')[0]`: everything before the first `'T'`, or all of `s` when there is none. */
  function DatePart(s: string): (d: string)
    ensures d <= s
    ensures 'T' !in d
    ensures |d| < |s| ==> s[|d|] == 'T'
    decreases |s|
  {
    if |s| == 0 || s[0] == 'T' then "" else [s[0]] + DatePart(s[1..])
  }

  /** A timestamp `date + "T" + time` whose date has no `'T'` loses exactly its time part. */
  lemma DatePartOfTimestamp(date: string, time: string)
    requires 'T' !in date
    ensures DatePart(date + "T" + time) == date
  {
    var s := date + "T" + time;
    var d := DatePart(s);
    assert s[|date|] == 'T';
    assert |d| == |date|;
    assert d == s[..|date|] == date;
  }

  function ToRow(p: RawPack): PackRow {
    PackRow(p.packName, p.description, DatePart(p.dateCreated), p.id)
  }

  /**
   * The rows shown: one per listed pack, in the backend's order, with the
   * creation date cut at its first `'T'`; no rows when the call raised, the
   * status is not 200, or the body cannot be read.
   */
  function CurrentPacks(reply: ListReply): (rows: seq<PackRow>)
    ensures reply.InvokeRaised? || reply.statusCode != 200 || reply.packs.None? ==> rows == []
    ensures reply.Reply? && reply.statusCode == 200 && reply.packs.Some? ==>
      && |rows| == |reply.packs.value|
      && forall k :: 0 <= k < |rows| ==>
           && rows[k].packName == reply.packs.value[k].packName
           && rows[k].description == reply.packs.value[k].description
           && rows[k].packId == reply.packs.value[k].id
           && rows[k].dateCreated <= reply.packs.value[k].dateCreated
           && 'T' !in rows[k].dateCreated
           && (|rows[k].dateCreated| < |reply.packs.value[k].dateCreated| ==>
                 reply.packs.value[k].dateCreated[|rows[k].dateCreated|] == 'T')
  {
    match reply
    case InvokeRaised => []
    case Reply(status, packs) =>
      if status != 200 || packs.None? then []
      else seq(|packs.value|, k requires 0 <= k < |packs.value| => ToRow(packs.value[k]))
  }
}
