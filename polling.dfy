/** The offset bookkeeping of the two long-polling loops (`run` in
    bot/dispatcher.py and `main` in bot.py): a poll that is not ok leaves the
    offset alone; each processed update moves it to that update's id + 1. */
module Polling {
  import opened Wrappers
  import opened Events

  /** One `getUpdates` answer: its `ok` flag and its `result` list. */
  datatype PollResult = PollResult(ok: bool, result: seq<Update>)

  /** The offset after processing `updates` one by one, as the inner `for` loop
      does: it ends one past the id of the last update, or where it started. */
  function OffsetAfterUpdates(offset: Option<int>, updates: seq<Update>): (r: Option<int>)
    ensures updates == [] ==> r == offset
    ensures updates != [] ==> r == Some(updates[|updates| - 1].updateId + 1)
    decreases |updates|
  {
    if updates == [] then offset
    else OffsetAfterUpdates(Some(updates[0].updateId + 1), updates[1..])
  }

  /** One iteration of the outer `while` loop. */
  function PollStep(offset: Option<int>, poll: PollResult): Option<int> {
    if !poll.ok then offset else OffsetAfterUpdates(offset, poll.result)
  }

  /** The offset after a run of polls, starting from `offset`. */
  function OffsetAfterPolls(offset: Option<int>, polls: seq<PollResult>): Option<int> {
    if polls == [] then offset
    else PollStep(OffsetAfterPolls(offset, polls[..|polls| - 1]), polls[|polls| - 1])
  }

  /** Reference definition: the id of the last update any ok poll delivered. */
  function LastDelivered(polls: seq<PollResult>): Option<int> {
    if polls == [] then None
    else
      var p := polls[|polls| - 1];
      if p.ok && p.result != [] then Some(p.result[|p.result| - 1].updateId)
      else LastDelivered(polls[..|polls| - 1])
  }

  /** A poll that is not ok never moves the offset. */
  lemma FailedPollKeepsOffset(offset: Option<int>, polls: seq<PollResult>, p: PollResult)
    requires !p.ok
    ensures OffsetAfterPolls(offset, polls + [p]) == OffsetAfterPolls(offset, polls)
  {
    assert (polls + [p])[..|polls|] == polls;
  }

  /** After any run of polls the offset is one past the last delivered update,
      or the starting offset when no ok poll delivered anything. */
  lemma {:induction false} OffsetIsLastDeliveredPlusOne(offset: Option<int>, polls: seq<PollResult>)
    ensures OffsetAfterPolls(offset, polls)
            == match LastDelivered(polls) case None => offset case Some(id) => Some(id + 1)
    decreases |polls|
  {
    if polls != [] {
      OffsetIsLastDeliveredPlusOne(offset, polls[..|polls| - 1]);
    }
  }
}
