/**
 * The dispatch loop of `upload_to_pinecone`: normalise, split into batches
 * of 96, and send the batches one by one to the embedding service, giving
 * up at the first failure.
 */
module Dispatch {
  import opened Normalizer
  import opened Batching

  /**
   * What one invocation of the embedding service comes to: a response
   * without an `errorMessage` field, a response with one, or an exception
   * raised while invoking it or reading its payload.
   */
  datatype Outcome = Accepted | ErrorMessage(message: string) | Raised(reason: string)

  /** The only action the upload sends. */
  const CREATE_PACK: string := "create_pack"

  /** The body of one invocation: `{action, username, data, pack_name}`. */
  datatype Request = Request(action: string, username: string, data: seq<Record>, packName: string)

  /**
   * Every batch numbered 1 to `count` is accepted. The service is an oracle
   * from the 1-based batch number to that invocation's outcome.
   */
  predicate AllAccepted(service: nat -> Outcome, count: nat) {
    forall b :: 1 <= b <= count ==> service(b).Accepted?
  }

  /**
   * A run that stops after `m` invocations: batches 1 to `m - 1` were
   * accepted and batch `m` was not.
   */
  predicate StopsAt(service: nat -> Outcome, m: nat) {
    && m >= 1
    && (forall b :: 1 <= b < m ==> service(b).Accepted?)
    && !service(m).Accepted?
  }

  /** A failing run stops at one place only: the first batch that is not accepted. */
  lemma StopsAtUnique(service: nat -> Outcome, m1: nat, m2: nat)
    requires StopsAt(service, m1) && StopsAt(service, m2)
    ensures m1 == m2
  {
  }

  /** The records carried by a sequence of requests, batch by batch. */
  function Payloads(requests: seq<Request>): (bs: seq<seq<Record>>)
    ensures |bs| == |requests|
    ensures forall k :: 0 <= k < |bs| ==> bs[k] == requests[k].data
  {
    seq(|requests|, k requires 0 <= k < |requests| => requests[k].data)
  }

  /**
   * Sends `batches` in order, batch number `k + 1` carrying `batches[k]`,
   * and returns on the first outcome that is not accepted. `invoked` lists
   * the invocations attempted, in order.
   */
  method DispatchBatches(batches: seq<seq<Record>>, packName: string, username: string, service: nat -> Outcome)
    returns (success: bool, invoked: seq<Request>)
    ensures |invoked| <= |batches|
    ensures forall k :: 0 <= k < |invoked| ==>
      invoked[k] == Request(CREATE_PACK, username, batches[k], packName)
    ensures forall b :: 1 <= b < |invoked| ==> service(b).Accepted?
    ensures success <==> AllAccepted(service, |batches|)
    ensures success ==> |invoked| == |batches|
    ensures !success ==> StopsAt(service, |invoked|)
  {
    invoked := [];
    for i := 0 to |batches|
      invariant |invoked| == i
      invariant forall k :: 0 <= k < i ==> invoked[k] == Request(CREATE_PACK, username, batches[k], packName)
      invariant AllAccepted(service, i)
    {
      var batchNumber := i + 1;
      invoked := invoked + [Request(CREATE_PACK, username, batches[i], packName)];
      match service(batchNumber) {
        case ErrorMessage(_) =>
          success := false;
          return;
        case Raised(_) =>
          success := false;
          return;
        case Accepted =>
      }
    }
    success := true;
  }

  /**
   * `upload_to_pinecone(data, index_name)`: `success` is Python's `True`,
   * `!success` its `None`. The batches are sent in order; it succeeds exactly
   * when every batch is accepted, and no batch after a failing one is sent.
   * What was sent is always a prefix of the normalised records, all of them
   * on success; the accepted batches are never withdrawn.
   */
  method UploadToPinecone(data: SourceData, indexName: string, username: string, service: nat -> Outcome)
    returns (success: bool, invoked: seq<Request>)
    ensures |invoked| <= |Batches(Normalize(data), BATCH_SIZE)| == CeilDiv(|Normalize(data)|, BATCH_SIZE)
    ensures forall k :: 0 <= k < |invoked| ==>
      invoked[k] == Request(CREATE_PACK, username, Batches(Normalize(data), BATCH_SIZE)[k], indexName)
    ensures forall k :: 0 <= k < |invoked| ==> 0 < |invoked[k].data| <= BATCH_SIZE
    ensures forall b :: 1 <= b < |invoked| ==> service(b).Accepted?
    ensures success <==> AllAccepted(service, CeilDiv(|Normalize(data)|, BATCH_SIZE))
    ensures success ==> |invoked| == CeilDiv(|Normalize(data)|, BATCH_SIZE)
    ensures !success ==> StopsAt(service, |invoked|)
    ensures Flatten(Payloads(invoked)) <= Normalize(data)
    ensures success ==> Flatten(Payloads(invoked)) == Normalize(data)
    ensures |Normalize(data)| == 0 ==> success && invoked == []
  {
    var records := FormatData(data);
    var batches := Batches(records, BATCH_SIZE);
    BatchesCount(records, BATCH_SIZE);
    BatchesShape(records, BATCH_SIZE);
    BatchesFlatten(records, BATCH_SIZE);
    success, invoked := DispatchBatches(batches, indexName, username, service);
    assert Payloads(invoked) == batches[..|invoked|];
    FlattenPrefix(batches, |invoked|);
    if success {
      assert batches[..|invoked|] == batches;
    }
  }

  /** Whether `upload_to_pinecone` returns `True` for `data` against `service`. */
  predicate UploadSucceeds(data: SourceData, service: nat -> Outcome) {
    AllAccepted(service, CeilDiv(|Normalize(data)|, BATCH_SIZE))
  }

  /**
   * With three batches of which the second is refused, the upload fails and
   * the run stops after exactly two invocations: batch 3 is never sent.
   */
  lemma FailFastOnSecondBatch(data: SourceData, service: nat -> Outcome, m: nat)
    requires 2 * BATCH_SIZE < |Normalize(data)| <= 3 * BATCH_SIZE
    requires service(1).Accepted? && !service(2).Accepted?
    ensures CeilDiv(|Normalize(data)|, BATCH_SIZE) == 3
    ensures !UploadSucceeds(data, service)
    ensures StopsAt(service, m) <==> m == 2
  {
    var n := |Normalize(data)|;
    DivUnique(n + BATCH_SIZE - 1, BATCH_SIZE, 3, n + BATCH_SIZE - 1 - 3 * BATCH_SIZE);
    if StopsAt(service, m) {
      StopsAtUnique(service, m, 2);
    }
  }
}
