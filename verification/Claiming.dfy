/** Recovery of entries whose consumer died: the claim half of the consume loop
    (redis_adapter.go). The loop walks the group's pending list with XAUTOCLAIM, a few entries at
    a time, and remembers where the next call has to go on. */
module Claiming {
  import opened Options

  /** The pending entries of a group, with the time of the last delivery of each. */
  type Pending = map<nat, int>

  const MIN_IDLE := 30_000_000_000
  const INTERVAL := 2_000_000_000

  predicate Idle(p: Pending, id: nat, now: int) {
    id in p && now - p[id] >= MIN_IDLE
  }

  /** XAUTOCLAIM: look at the pending entries from `from` on in order of their ids, at most
      `looks` of them, and claim the idle ones, at most `count`. All ids are below `limit`. The
      second result is the id to go on with, or zero at the end of the list. */
  function AutoClaim(p: Pending, from: nat, limit: nat, looks: nat, count: nat, now: int): (seq<nat>, nat)
    decreases limit - from
  {
    if from >= limit then ([], 0)
    else if from !in p then AutoClaim(p, from + 1, limit, looks, count, now)
    else if looks == 0 || count == 0 then ([], from)
    else if !Idle(p, from, now) then AutoClaim(p, from + 1, limit, looks - 1, count, now)
    else
      var (ids, next) := AutoClaim(p, from + 1, limit, looks - 1, count - 1, now);
      ([from] + ids, next)
  }

  /** One call claims exactly the idle entries between its start and where the next call goes on,
      and a call that does not reach the end of the list gets ahead by at least `count` ids. */
  lemma {:induction false} AutoClaimMeaning(p: Pending, from: nat, limit: nat, looks: nat, count: nat, now: int, id: nat)
    requires forall x | x in p :: x < limit
    requires from > 0 || (looks > 0 && count > 0)
    ensures
      var (ids, next) := AutoClaim(p, from, limit, looks, count, now);
      && (id in ids <==> from <= id && Idle(p, id, now) && (next == 0 || id < next))
      && (next == 0 || (next in p && next >= from + if looks <= count then looks else count))
    decreases limit - from
  {
    if from < limit {
      if from !in p {
        AutoClaimMeaning(p, from + 1, limit, looks, count, now, id);
      } else if looks > 0 && count > 0 {
        AutoClaimMeaning(p, from + 1, limit, looks - 1, if Idle(p, from, now) then count - 1 else count, now, id);
      }
    }
  }

  // ---------------------------------------------------------------- the loop

  datatype Answer = Answered | UnknownCommand | Failed

  /** One turn of the consume loop: what is pending, the time, and whether Redis answers. */
  datatype Turn = Turn(pending: Pending, now: int, answer: Answer)

  /** When the last call was made, where the next one starts, and whether the server knows the
      command at all. */
  datatype Loop = Loop(lastClaim: Option<int>, claimStart: nat, autoClaim: bool)

  predicate Calls(l: Loop, now: int) {
    l.autoClaim && (l.lastClaim.None? || now - l.lastClaim.value >= INTERVAL)
  }

  function Claim(l: Loop, t: Turn, limit: nat, count: nat): (seq<nat>, nat) {
    AutoClaim(t.pending, l.claimStart, limit, 10 * count, count, t.now)
  }

  function After(l: Loop, t: Turn, limit: nat, count: nat): Loop {
    if !Calls(l, t.now) then l
    else
      match t.answer
      case Answered => Loop(Some(t.now), Claim(l, t, limit, count).1, true)
      case UnknownCommand => Loop(Some(t.now), l.claimStart, false)
      case Failed => Loop(Some(t.now), l.claimStart, true)
  }

  function Dispatched(l: Loop, t: Turn, limit: nat, count: nat): seq<nat> {
    if Calls(l, t.now) && t.answer.Answered? then Claim(l, t, limit, count).0 else []
  }

  class ClaimLoop {
    var lastClaim: Option<int>
    var claimStart: nat
    var autoClaim: bool

    function View(): Loop
      reads this
    {
      Loop(lastClaim, claimStart, autoClaim)
    }

    constructor ()
      ensures View() == Loop(None, 0, true)
    {
      lastClaim, claimStart, autoClaim := None, 0, true;
    }

    /** The claim part of one turn; the ids returned are handed to handlers. */
    method TryClaim(t: Turn, limit: nat, count: nat) returns (ids: seq<nat>)
      modifies this
      ensures View() == After(old(View()), t, limit, count)
      ensures ids == Dispatched(old(View()), t, limit, count)
    {
      ids := [];
      if autoClaim && (lastClaim.None? || t.now - lastClaim.value >= INTERVAL) {
        lastClaim := Some(t.now);
        match t.answer {
          case UnknownCommand => autoClaim := false;
          case Failed =>
          case Answered =>
            var (claimed, next) := AutoClaim(t.pending, claimStart, limit, 10 * count, count, t.now);
            claimStart := next;
            ids := claimed;
        }
      }
    }
  }

  /** The calls that were answered during a number of turns. */
  function CallCount(l: Loop, turns: seq<Turn>, limit: nat, count: nat): nat
    decreases |turns|
  {
    if |turns| == 0 then 0
    else
      (if Calls(l, turns[0].now) && turns[0].answer.Answered? then 1 else 0) +
      CallCount(After(l, turns[0], limit, count), turns[1..], limit, count)
  }

  predicate Recovered(l: Loop, turns: seq<Turn>, limit: nat, count: nat, id: nat)
    decreases |turns|
  {
    |turns| > 0 &&
    (id in Dispatched(l, turns[0], limit, count) || Recovered(After(l, turns[0], limit, count), turns[1..], limit, count, id))
  }

  /** The entry stays idle and pending, the server knows the command, and no entry at or beyond
      `limit` was read so far. */
  ghost predicate Abandoned(turns: seq<Turn>, limit: nat, id: nat) {
    forall t | t in turns ::
      !t.answer.UnknownCommand? && Idle(t.pending, id, t.now) && forall x | x in t.pending :: x < limit
  }

  /** The calls that suffice to reach `id` from a start: on to the end first, if the start lies
      behind it, and then from the beginning. */
  function CallsNeeded(start: nat, id: nat, limit: nat, count: nat): nat
    requires count > 0
  {
    if start <= id then (id - start) / count + 1
    else (if start < limit then (limit - start) / count else 0) + 1 + id / count + 1
  }

  lemma Fits(x: nat, y: nat, count: nat)
    requires count > 0 && y + count <= x
    ensures y / count + 1 <= x / count
  {
    var k := y / count + 1;
    assert k * count <= x;
    assert x < (x / count + 1) * count;
    if k > x / count {
      NotLess(k, x / count + 1, count);
    }
  }

  lemma NotLess(a: nat, b: nat, count: nat)
    requires a >= b
    ensures a * count >= b * count
  {
  }

  /** An answered call that misses the entry leaves fewer calls to make. */
  lemma MissCostsOne(l: Loop, t: Turn, limit: nat, count: nat, id: nat)
    requires count > 0 && Calls(l, t.now) && t.answer.Answered? && Abandoned([t], limit, id)
    requires id !in Dispatched(l, t, limit, count)
    ensures CallsNeeded(After(l, t, limit, count).claimStart, id, limit, count) + 1 <= CallsNeeded(l.claimStart, id, limit, count)
  {
    assert t in [t];
    AutoClaimMeaning(t.pending, l.claimStart, limit, 10 * count, count, t.now, id);
    var start, next := l.claimStart, After(l, t, limit, count).claimStart;
    if start <= id {
      Fits(id - start, id - next, count);
    } else if next != 0 {
      Fits(limit - start, limit - next, count);
    }
  }

  /** An entry whose consumer died is claimed again by any consumer of its group that keeps
      calling, at the latest with the answered call number `CallsNeeded`; failed calls cost nothing
      but time. */
  lemma {:induction false} AbandonedIsRecovered(l: Loop, turns: seq<Turn>, limit: nat, count: nat, id: nat)
    requires count > 0 && l.autoClaim && Abandoned(turns, limit, id)
    requires CallCount(l, turns, limit, count) >= CallsNeeded(l.claimStart, id, limit, count)
    ensures Recovered(l, turns, limit, count, id)
    decreases |turns|
  {
    if |turns| > 0 {
      var l' := After(l, turns[0], limit, count);
      assert turns[0] in turns && Abandoned([turns[0]], limit, id);
      if id !in Dispatched(l, turns[0], limit, count) {
        if Calls(l, turns[0].now) && turns[0].answer.Answered? {
          MissCostsOne(l, turns[0], limit, count, id);
        }
        AbandonedIsRecovered(l', turns[1..], limit, count, id);
      }
    }
  }

  /** Calls are at least two seconds apart, and a server that does not know the command is asked
      only once. */
  lemma CallsAreSpaced(l: Loop, t: Turn, later: Turn, limit: nat, count: nat)
    requires Calls(l, t.now)
    ensures Calls(After(l, t, limit, count), later.now) <==> !t.answer.UnknownCommand? && later.now - t.now >= 2_000_000_000
  {
  }

  /** Nothing is dispatched to a handler that is not pending and idle. */
  lemma DispatchedIsIdle(l: Loop, t: Turn, limit: nat, count: nat, id: nat)
    requires count > 0 && forall x | x in t.pending :: x < limit
    requires id in Dispatched(l, t, limit, count)
    ensures id in t.pending && t.now - t.pending[id] >= 30_000_000_000
  {
    AutoClaimMeaning(t.pending, l.claimStart, limit, 10 * count, count, t.now, id);
  }

  lemma {:induction false} LeastIsClaimed(p: Pending, from: nat, limit: nat, looks: nat, count: nat, now: int, id: nat)
    requires from <= id < limit && Idle(p, id, now) && looks > 0 && count > 0
    requires forall x | from <= x < id :: x !in p
    ensures id in AutoClaim(p, from, limit, looks, count, now).0
    decreases limit - from
  {
    if from < id {
      LeastIsClaimed(p, from + 1, limit, looks, count, now, id);
    }
  }

  /** A consumer's first turn calls at once, and if it is answered the oldest pending entry is
      dispatched if it is idle. */
  lemma FirstTurnCalls(t: Turn, limit: nat, count: nat, id: nat)
    requires count > 0 && t.answer.Answered? && id < limit && id in t.pending && forall x | x in t.pending :: id <= x
    requires t.now - t.pending[id] >= 30_000_000_000
    ensures id in Dispatched(Loop(None, 0, true), t, limit, count)
  {
    LeastIsClaimed(t.pending, 0, limit, 10 * count, count, t.now, id);
  }
}
