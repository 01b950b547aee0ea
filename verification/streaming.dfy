/** Consuming one streamed reply (the `for try await` loop and the commit
    block of both `sendMessage` functions). The provider is abstract: its
    answer is the sequence of cumulative snapshots it yields and how the
    stream ended. */
module Streaming {
  import opened Common

  /** How a stream stops: it runs out normally, or it throws. */
  datatype Ending = Finished | Threw

  /** The provider's answer to one `streamResponse` call. */
  datatype Stream = Stream(snapshots: seq<string>, ending: Ending)

  /** The `response` slot after the snapshots arrived: each one replaces the
      previous value, so only the last snapshot survives, and with no
      snapshot the slot keeps what it held. */
  function Fold(slot: Option<string>, snapshots: seq<string>): (r: Option<string>)
    ensures |snapshots| == 0 ==> r == slot
    ensures |snapshots| > 0 ==> r == Some(Last(snapshots))
    decreases |snapshots|
  {
    if |snapshots| == 0 then slot
    else Fold(Some(snapshots[0]), snapshots[1..])
  }

  /** The loop itself: `for try await partial in stream { response = partial }`. */
  method Publish(slot: Option<string>, snapshots: seq<string>) returns (response: Option<string>)
    ensures |snapshots| == 0 ==> response == slot
    ensures |snapshots| > 0 ==> response == Some(Last(snapshots))
    ensures response == Fold(slot, snapshots)
  {
    response := slot;
    var i := 0;
    while i < |snapshots|
      invariant 0 <= i <= |snapshots|
      invariant i == 0 ==> response == slot
      invariant i > 0 ==> response == Some(snapshots[i - 1])
    {
      response := Some(snapshots[i]);
      i := i + 1;
    }
  }

  /** What one stream leaves behind: the `response` slot, and the bot text
      committed to the history, if any. */
  datatype Outcome = Outcome(slot: Option<string>, committed: Option<string>)

  /** As written. A finished stream commits `response ?? ""` and clears
      `response` in the same step. A throw leaves the loop, skips that step,
      and leaves the last snapshot in `response`. */
  function Consume(slot: Option<string>, s: Stream): (o: Outcome)
    ensures s.ending == Finished ==> o.slot == None
    ensures s.ending == Finished && |s.snapshots| > 0 ==> o.committed == Some(Last(s.snapshots))
    ensures s.ending == Finished && |s.snapshots| == 0 ==> o.committed == Some(slot.GetOr(""))
    ensures s.ending == Threw ==> o.committed == None
    ensures s.ending == Threw && |s.snapshots| > 0 ==> o.slot == Some(Last(s.snapshots))
    ensures s.ending == Threw && |s.snapshots| == 0 ==> o.slot == slot
  {
    var response := Fold(slot, s.snapshots);
    match s.ending
    case Finished => Outcome(None, Some(response.GetOr("")))
    case Threw => Outcome(response, None)
  }

  /** Corrected: a throw also clears `response`, so the slot is empty after
      every stream, whichever way it ended. */
  function ConsumeCorrected(slot: Option<string>, s: Stream): (o: Outcome)
    ensures o.slot == None
    ensures s.ending == Threw ==> o.committed == None
    ensures s.ending == Finished && |s.snapshots| > 0 ==> o.committed == Some(Last(s.snapshots))
    ensures s.ending == Finished && |s.snapshots| == 0 ==> o.committed == Some(slot.GetOr(""))
  {
    var o := Consume(slot, s);
    o.(slot := None)
  }

  /** The text a reply should commit: its own last snapshot, or nothing. */
  function OwnReply(s: Stream): string {
    if |s.snapshots| > 0 then Last(s.snapshots) else ""
  }

  /** With the corrected consumption the slot is empty between requests, so
      every finished stream commits exactly its own reply, whatever streams
      came before. */
  lemma {:induction false} CorrectedCommitsOwnReplies(slot: Option<string>, streams: seq<Stream>)
    requires slot == None
    ensures forall k :: 0 <= k < |streams| && streams[k].ending == Finished ==>
      ConsumeAll(slot, streams)[k] == Some(OwnReply(streams[k]))
    decreases |streams|
  {
    if |streams| > 0 {
      var o := ConsumeCorrected(slot, streams[0]);
      CorrectedCommitsOwnReplies(o.slot, streams[1..]);
    }
  }

  /** The commits of successive corrected requests. */
  function ConsumeAll(slot: Option<string>, streams: seq<Stream>): (r: seq<Option<string>>)
    ensures |r| == |streams|
    decreases |streams|
  {
    if |streams| == 0 then []
    else
      var o := ConsumeCorrected(slot, streams[0]);
      [o.committed] + ConsumeAll(o.slot, streams[1..])
  }

  /** As written, a reply that throws after one snapshot leaves that snapshot
      in the slot, and a following stream that finishes without a snapshot
      commits it as if it were its own reply. */
  lemma StaleSnapshotCommitted()
    ensures Consume(None, Stream(["Hi"], Threw)).slot == Some("Hi")
    ensures Consume(Consume(None, Stream(["Hi"], Threw)).slot, Stream([], Finished)).committed == Some("Hi")
    ensures OwnReply(Stream([], Finished)) == ""
  {
  }
}
