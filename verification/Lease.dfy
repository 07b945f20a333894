/** The leader lease of the distributed cron (cron_dist.go): SETNX with a time to live, a renewal
    tick that is a GET followed by an EXPIRE, and a release script that deletes the key only if
    it still holds the releaser's id. Steps of all nodes interleave; GET and EXPIRE are separate. */
module Lease {
  import opened Options

  /** The lock key: the id it holds, and when it expires. */
  datatype Lock = Lock(owner: nat, expiry: int)

  /** One holder of a lease id. Ids carry the time in nanoseconds, so each attempt to become
      leader has an id of its own.
      Active: the renewal goroutine runs. `live`: the leader context is not cancelled; `checked`:
      the GET of the current tick saw the own id and EXPIRE is still to come; `nextTick`: the
      deadline of the next renewal.
      Gone: nothing more will be done under this id. */
  datatype Holder = Active(live: bool, checked: bool, nextTick: int) | Gone

  datatype State = State(now: int, lock: Option<Lock>, holders: map<nat, Holder>)

  datatype Step =
    | SetNX(id: nat, answered: bool)       // an attempt to become leader under a fresh id
    | CheckTick(id: nat, answered: bool)   // the GET of a renewal tick
    | ExpireTick(id: nat, applied: bool)   // the EXPIRE of a renewal tick, result ignored
    | Cancel(id: nat)                      // the leader context ends: Stop, or the parent context
    | Release(id: nat, applied: bool)      // the release script after a cancellation
    | Tick(dt: nat)                        // time passes
    | Purge                                // Redis drops the expired key

  function Init(): State {
    State(0, None, map[])
  }

  // ---------------------------------------------------------------- what one command does

  /** An expired key is not there. */
  predicate Present(lock: Option<Lock>, now: int) {
    lock.Some? && now < lock.value.expiry
  }

  /** SETNX; without an answer the attempt counts as failed even if the key was set. */
  function TryAcquire(lock: Option<Lock>, now: int, id: nat, ttl: int, answered: bool): (Option<Lock>, Holder) {
    if Present(lock, now) then (lock, Gone)
    else (Some(Lock(id, now + ttl)), if answered then Active(true, false, now + ttl / 3) else Gone)
  }

  /** A renewal looks first: a foreign value, no value or no answer ends the leadership. */
  function AfterGet(lock: Option<Lock>, now: int, id: nat, h: Holder, answered: bool): Holder
    requires h.Active?
  {
    if answered && Present(lock, now) && lock.value.owner == id then h.(checked := true) else Gone
  }

  /** EXPIRE prolongs whatever key is there. */
  function AfterExpire(lock: Option<Lock>, now: int, ttl: int, applied: bool): Option<Lock> {
    if applied && Present(lock, now) then Some(lock.value.(expiry := now + ttl)) else lock
  }

  /** The release script: delete if the value is the own id. */
  function AfterRelease(lock: Option<Lock>, now: int, id: nat, applied: bool): Option<Lock> {
    if applied && Present(lock, now) && lock.value.owner == id then None else lock
  }

  // ---------------------------------------------------------------- the machine

  predicate Held(s: State) {
    Present(s.lock, s.now)
  }

  predicate HeldBy(s: State, id: nat) {
    Held(s) && s.lock.value.owner == id
  }

  predicate IsActive(s: State, id: nat) {
    id in s.holders && s.holders[id].Active?
  }

  predicate Leads(s: State, id: nat) {
    IsActive(s, id) && s.holders[id].live
  }

  /** After a cancellation the goroutine may still pick up a tick before it sees the end. */
  predicate Enabled(s: State, step: Step) {
    match step
    case SetNX(id, answered) => id !in s.holders
    case CheckTick(id, answered) => IsActive(s, id) && !s.holders[id].checked
    case ExpireTick(id, applied) => IsActive(s, id) && s.holders[id].checked
    case Cancel(id) => Leads(s, id)
    case Release(id, applied) => IsActive(s, id) && !s.holders[id].live && !s.holders[id].checked
    case Tick(dt) => true
    case Purge => s.lock.Some? && !Held(s)
  }

  function Apply(ttl: int, s: State, step: Step): State
    requires Enabled(s, step)
  {
    match step
    case SetNX(id, answered) =>
      var (lock, h) := TryAcquire(s.lock, s.now, id, ttl, answered);
      s.(lock := lock, holders := s.holders[id := h])
    case CheckTick(id, answered) =>
      s.(holders := s.holders[id := AfterGet(s.lock, s.now, id, s.holders[id], answered)])
    case ExpireTick(id, applied) =>
      var h := s.holders[id];
      s.(lock := AfterExpire(s.lock, s.now, ttl, applied),
         holders := s.holders[id := h.(checked := false, nextTick := h.nextTick + ttl / 3)])
    case Cancel(id) => s.(holders := s.holders[id := s.holders[id].(live := false)])
    case Release(id, applied) =>
      s.(lock := AfterRelease(s.lock, s.now, id, applied), holders := s.holders[id := Gone])
    case Tick(dt) => s.(now := s.now + dt)
    case Purge => s.(lock := None)
  }

  predicate Legal(ttl: int, s: State, steps: seq<Step>)
    decreases |steps|
  {
    |steps| > 0 ==> Enabled(s, steps[0]) && Legal(ttl, Apply(ttl, s, steps[0]), steps[1..])
  }

  function Exec(ttl: int, s: State, steps: seq<Step>): State
    requires Legal(ttl, s, steps)
    decreases |steps|
  {
    if |steps| == 0 then s else Exec(ttl, Apply(ttl, s, steps[0]), steps[1..])
  }

  // ---------------------------------------------------------------- ownership, whatever the timing

  /** Only its owner's release, or the passing of its time, takes a held key away from an id; no
      renewal or release of another node does, even when GET and EXPIRE are torn apart. */
  lemma OwnershipIsKept(ttl: int, s: State, step: Step, owner: nat)
    requires ttl >= 3 && Enabled(s, step) && HeldBy(s, owner)
    ensures
      HeldBy(Apply(ttl, s, step), owner) <==>
        !(step == Release(owner, true)) && (step.Tick? ==> s.now + step.dt < s.lock.value.expiry)
    ensures
      var s' := Apply(ttl, s, step);
      s'.lock.Some? ==> s'.lock.value.owner == owner
  {
  }

  /** An attempt leads if and only if nobody held the key and the answer arrived; then it holds the
      key for the whole ttl. An attempt without an answer never leads, even if the key was set. */
  lemma AttemptLeadsIff(ttl: int, s: State, id: nat, answered: bool)
    requires ttl >= 3 && Enabled(s, SetNX(id, answered))
    ensures
      var s' := Apply(ttl, s, SetNX(id, answered));
      && (Leads(s', id) <==> answered && !Held(s))
      && (!Held(s) ==> s'.lock == Some(Lock(id, s.now + ttl)))
      && (Leads(s', id) ==> s'.holders[id].nextTick == s.now + ttl / 3)
  {
  }

  /** A renewal goes on if and only if its GET is answered with the own id; otherwise the
      leadership ends, also while the own key is still there. */
  lemma GetContinuesIff(ttl: int, s: State, id: nat, answered: bool)
    requires Enabled(s, CheckTick(id, answered))
    ensures
      var s' := Apply(ttl, s, CheckTick(id, answered));
      && (IsActive(s', id) <==> answered && HeldBy(s, id))
      && (Leads(s', id) <==> Leads(s, id) && answered && HeldBy(s, id))
      && s'.lock == s.lock
  {
  }

  /** A leader that is stopped stops leading at once, and its release lets another node lead
      without waiting for the expiry. */
  lemma HandOver(ttl: int, s: State, id: nat, other: nat)
    requires ttl >= 3 && Leads(s, id) && HeldBy(s, id) && !s.holders[id].checked && other !in s.holders
    ensures
      var steps := [Cancel(id), Release(id, true), SetNX(other, true)];
      && Legal(ttl, s, steps)
      && Leads(Exec(ttl, s, steps), other) && !Leads(Exec(ttl, s, steps), id)
      && Exec(ttl, s, steps).now == s.now
  {
    var s1 := Apply(ttl, s, Cancel(id));
    var s2 := Apply(ttl, s1, Release(id, true));
    Prefix(ttl, s2, SetNX(other, true), []);
    Prefix(ttl, s1, Release(id, true), [SetNX(other, true)]);
    Prefix(ttl, s, Cancel(id), [Release(id, true), SetNX(other, true)]);
  }

  /** A key comes to be held by an id in one way only: SETNX under that id while nobody holds it. */
  lemma OwnershipIsGained(ttl: int, s: State, step: Step, id: nat)
    requires ttl >= 3 && Enabled(s, step) && !HeldBy(s, id)
    ensures HeldBy(Apply(ttl, s, step), id) <==> step.SetNX? && step.id == id && !Held(s)
  {
  }

  lemma {:induction false} NeverAgain(ttl: int, s: State, steps: seq<Step>, id: nat)
    requires ttl >= 3 && Legal(ttl, s, steps) && id in s.holders && !HeldBy(s, id)
    ensures !HeldBy(Exec(ttl, s, steps), id) && id in Exec(ttl, s, steps).holders
    decreases |steps|
  {
    if |steps| > 0 {
      OwnershipIsGained(ttl, s, steps[0], id);
      NeverAgain(ttl, Apply(ttl, s, steps[0]), steps[1..], id);
    }
  }

  /** A leader that has lost the key never gets it back under its id, and stops leading with the
      next GET it completes, however much happens in between. */
  lemma LostLeaseEndsLeadership(ttl: int, s: State, steps: seq<Step>, id: nat, answered: bool)
    requires ttl >= 3 && Legal(ttl, s, steps) && id in s.holders && !HeldBy(s, id)
    ensures
      var s' := Exec(ttl, s, steps);
      && !HeldBy(s', id)
      && (Enabled(s', CheckTick(id, answered)) ==> !Leads(Apply(ttl, s', CheckTick(id, answered)), id))
  {
    NeverAgain(ttl, s, steps, id);
  }

  lemma {:induction false} GoneStaysGone(ttl: int, s: State, steps: seq<Step>, id: nat)
    requires Legal(ttl, s, steps) && id in s.holders && s.holders[id].Gone?
    ensures id in Exec(ttl, s, steps).holders && Exec(ttl, s, steps).holders[id].Gone?
    decreases |steps|
  {
    if |steps| > 0 {
      GoneStaysGone(ttl, Apply(ttl, s, steps[0]), steps[1..], id);
    }
  }

  lemma Prefix(ttl: int, s: State, step: Step, steps: seq<Step>)
    requires Enabled(s, step) && Legal(ttl, Apply(ttl, s, step), steps)
    ensures Legal(ttl, s, [step] + steps)
    ensures Exec(ttl, s, [step] + steps) == Exec(ttl, Apply(ttl, s, step), steps)
  {
    assert ([step] + steps)[1..] == steps;
  }

  // ---------------------------------------------------------------- a renewal torn apart

  /** The GET of a renewal saw the own id, the EXPIRE is still to come, and by now the key is
      somebody else's: EXPIRE does not look at the owner. */
  predicate FacesStranger(s: State, id: nat) {
    IsActive(s, id) && s.holders[id].checked && Held(s) && s.lock.value.owner != id
  }

  predicate NoExpiryBeyond(ttl: int, s: State) {
    s.lock.Some? ==> s.lock.value.expiry <= s.now + ttl
  }

  lemma {:induction false} ExpiryInBounds(ttl: int, s: State, steps: seq<Step>)
    requires ttl >= 3 && Legal(ttl, s, steps) && NoExpiryBeyond(ttl, s)
    ensures NoExpiryBeyond(ttl, Exec(ttl, s, steps))
    decreases |steps|
  {
    if |steps| > 0 {
      ExpiryInBounds(ttl, Apply(ttl, s, steps[0]), steps[1..]);
    }
  }

  /** Steps between the GET and the EXPIRE of a renewal. */
  predicate WithoutExpire(steps: seq<Step>, id: nat) {
    forall step | step in steps :: !(step.ExpireTick? && step.id == id)
  }

  lemma CheckedStep(ttl: int, s: State, step: Step, id: nat, expiry: int)
    requires ttl >= 3 && Enabled(s, step) && NoExpiryBeyond(ttl, s) && !(step.ExpireTick? && step.id == id)
    requires HeldBy(s, id) && IsActive(s, id) && s.holders[id].checked && expiry <= s.lock.value.expiry
    requires Apply(ttl, s, step).now < expiry
    ensures
      var s' := Apply(ttl, s, step);
      HeldBy(s', id) && IsActive(s', id) && s'.holders[id].checked && expiry <= s'.lock.value.expiry
  {
  }

  lemma {:induction false} TimePasses(ttl: int, s: State, steps: seq<Step>)
    requires Legal(ttl, s, steps)
    ensures s.now <= Exec(ttl, s, steps).now
    decreases |steps|
  {
    if |steps| > 0 {
      TimePasses(ttl, Apply(ttl, s, steps[0]), steps[1..]);
    }
  }

  lemma {:induction false} CheckedKeepsKey(ttl: int, s: State, steps: seq<Step>, id: nat, expiry: int)
    requires ttl >= 3 && Legal(ttl, s, steps) && NoExpiryBeyond(ttl, s) && WithoutExpire(steps, id)
    requires HeldBy(s, id) && IsActive(s, id) && s.holders[id].checked && expiry <= s.lock.value.expiry
    requires Exec(ttl, s, steps).now < expiry
    ensures HeldBy(Exec(ttl, s, steps), id)
    decreases |steps|
  {
    if |steps| > 0 {
      var s1 := Apply(ttl, s, steps[0]);
      TimePasses(ttl, s1, steps[1..]);
      assert steps[0] in steps;
      CheckedStep(ttl, s, steps[0], id, expiry);
      assert forall step | step in steps[1..] :: step in steps;
      CheckedKeepsKey(ttl, s1, steps[1..], id, expiry);
    }
  }

  lemma {:induction false} FreshId(taken: set<nat>) returns (id: nat)
    ensures forall x | x in taken :: x < id
    decreases taken
  {
    if taken == {} {
      id := 0;
    } else {
      var x :| x in taken;
      var y := FreshId(taken - {x});
      id := if x < y then y else x + 1;
      assert forall z | z in taken :: z == x || z in taken - {x};
    }
  }

  /** Within `elapsed` after the GET, the EXPIRE can come to face a stranger's key. */
  ghost predicate CanFaceStranger(ttl: int, s: State, id: nat, elapsed: nat) {
    exists steps ::
      && Legal(ttl, s, steps) && WithoutExpire(steps, id)
      && Exec(ttl, s, steps).now == s.now + elapsed && FacesStranger(Exec(ttl, s, steps), id)
  }

  lemma StrangerAfter(ttl: int, s: State, id: nat, elapsed: nat)
    requires ttl >= 3 && HeldBy(s, id) && IsActive(s, id) && s.holders[id].checked
    requires s.lock.value.expiry - s.now <= elapsed
    ensures CanFaceStranger(ttl, s, id, elapsed)
  {
    var other := FreshId(s.holders.Keys);
    var s1 := Apply(ttl, s, Tick(elapsed));
    Prefix(ttl, s1, SetNX(other, true), []);
    Prefix(ttl, s, Tick(elapsed), [SetNX(other, true)] + []);
    var steps := [Tick(elapsed)] + ([SetNX(other, true)] + []);
    assert WithoutExpire(steps, id);
    assert FacesStranger(Exec(ttl, s, steps), id);
  }

  /** For every holder, cancelled or not, and whatever everybody else does: the EXPIRE of a
      renewal can meet a stranger's key if and only if at least as much time passes between GET
      and EXPIRE as the key had left at the GET. */
  lemma TornRenewalIff(ttl: int, before: seq<Step>, id: nat, elapsed: nat)
    requires ttl >= 3 && Legal(ttl, Init(), before)
    requires Enabled(Exec(ttl, Init(), before), CheckTick(id, true)) && HeldBy(Exec(ttl, Init(), before), id)
    ensures
      var s := Exec(ttl, Init(), before);
      var left := s.lock.value.expiry - s.now;
      CanFaceStranger(ttl, Apply(ttl, s, CheckTick(id, true)), id, elapsed) <==> left <= elapsed
  {
    var s := Exec(ttl, Init(), before);
    var s1 := Apply(ttl, s, CheckTick(id, true));
    ExpiryInBounds(ttl, Init(), before);
    if s.lock.value.expiry - s.now <= elapsed {
      StrangerAfter(ttl, s1, id, elapsed);
    }
    if CanFaceStranger(ttl, s1, id, elapsed) && elapsed < s.lock.value.expiry - s.now {
      var steps :| && Legal(ttl, s1, steps) && WithoutExpire(steps, id)
                   && Exec(ttl, s1, steps).now == s1.now + elapsed && FacesStranger(Exec(ttl, s1, steps), id);
      CheckedKeepsKey(ttl, s1, steps, id, s1.lock.value.expiry);
      assert false;
    }
  }

  /** And then it prolongs the stranger's lease. */
  lemma ExpireProlongsStranger(ttl: int, s: State, id: nat)
    requires ttl >= 3 && FacesStranger(s, id)
    ensures Apply(ttl, s, ExpireTick(id, true)).lock == Some(Lock(s.lock.value.owner, s.now + ttl))
  {
  }

  // ---------------------------------------------------------------- at most one leader, in time

  /** No tick of a live leader is still unfinished more than `delta` after its deadline. */
  predicate Punctual(delta: int, s: State) {
    forall id | id in s.holders :: Leads(s, id) ==> s.now <= s.holders[id].nextTick + delta
  }

  /** The ticker fires at its deadline or later, and a renewal takes effect. */
  predicate Timely(s: State, step: Step) {
    match step
    case CheckTick(id, answered) => IsActive(s, id) && s.holders[id].nextTick <= s.now
    case ExpireTick(id, applied) => applied
    case _ => true
  }

  predicate PunctualRun(ttl: int, delta: int, s: State, steps: seq<Step>)
    requires Legal(ttl, s, steps)
    decreases |steps|
  {
    && Punctual(delta, s)
    && (|steps| > 0 ==> Timely(s, steps[0]) && PunctualRun(ttl, delta, Apply(ttl, s, steps[0]), steps[1..]))
  }

  /** Every live leader holds the key, and its next deadline lies so early that a tick finished
      within `delta` of it is still before the expiry. A cancelled holder between GET and EXPIRE
      can only prolong the key. */
  ghost predicate Safe(ttl: int, delta: int, s: State) {
    && (s.lock.Some? ==> s.lock.value.expiry <= s.now + ttl)
    && forall id | id in s.holders && Leads(s, id) ::
         && HeldBy(s, id)
         && s.holders[id].nextTick + delta < s.lock.value.expiry
         && (s.holders[id].checked ==> s.holders[id].nextTick <= s.now)
  }

  lemma SafeStep(ttl: int, delta: int, s: State, step: Step)
    requires ttl >= 3 && 0 <= delta && ttl / 3 + delta < ttl
    requires Enabled(s, step) && Timely(s, step) && Safe(ttl, delta, s)
    requires Punctual(delta, Apply(ttl, s, step))
    ensures Safe(ttl, delta, Apply(ttl, s, step))
  {
  }

  lemma {:induction false} SafeRun(ttl: int, delta: int, s: State, steps: seq<Step>)
    requires ttl >= 3 && 0 <= delta && ttl / 3 + delta < ttl
    requires Legal(ttl, s, steps) && Safe(ttl, delta, s) && PunctualRun(ttl, delta, s, steps)
    ensures Safe(ttl, delta, Exec(ttl, s, steps))
    decreases |steps|
  {
    if |steps| > 0 {
      SafeStep(ttl, delta, s, steps[0]);
      SafeRun(ttl, delta, Apply(ttl, s, steps[0]), steps[1..]);
    }
  }

  ghost predicate AtMostOneLeader(s: State) {
    forall a, b | Leads(s, a) && Leads(s, b) :: a == b
  }

  /** Every punctual run, of any number of nodes, has at most one live leader. */
  ghost predicate LeaseIsExclusive(ttl: int, delta: int) {
    forall steps | Legal(ttl, Init(), steps) && PunctualRun(ttl, delta, Init(), steps) ::
      AtMostOneLeader(Exec(ttl, Init(), steps))
  }

  /** Two leaders: the first is still within its grace when its key runs out. */
  function TwoLeadersRun(ttl: int): seq<Step>
    requires ttl >= 3
  {
    [SetNX(1, true), Tick(ttl), SetNX(2, true)]
  }

  lemma LateRenewalMakesTwoLeaders(ttl: int, delta: int)
    requires ttl >= 3 && 0 <= delta && ttl <= ttl / 3 + delta
    ensures Legal(ttl, Init(), TwoLeadersRun(ttl)) && PunctualRun(ttl, delta, Init(), TwoLeadersRun(ttl))
    ensures !AtMostOneLeader(Exec(ttl, Init(), TwoLeadersRun(ttl)))
  {
    var last, rest := [SetNX(2, true)], [Tick(ttl), SetNX(2, true)];
    var s1 := Apply(ttl, Init(), SetNX(1, true));
    var s2 := Apply(ttl, s1, Tick(ttl));
    var s3 := Apply(ttl, s2, SetNX(2, true));
    assert last[1..] == [] && rest[1..] == last && TwoLeadersRun(ttl)[1..] == rest;
    Prefix(ttl, s2, SetNX(2, true), []);
    Prefix(ttl, s1, Tick(ttl), last);
    Prefix(ttl, Init(), SetNX(1, true), rest);
    assert PunctualRun(ttl, delta, s2, last);
    assert PunctualRun(ttl, delta, s1, rest);
    assert Leads(s3, 1) && Leads(s3, 2);
  }

  /** Mutual exclusion holds if and only if a renewal that is late by `delta` still comes before
      the key expires. */
  lemma LeaseIsExclusiveIff(ttl: int, delta: int)
    requires ttl >= 3 && 0 <= delta
    ensures LeaseIsExclusive(ttl, delta) <==> ttl / 3 + delta < ttl
  {
    if ttl / 3 + delta < ttl {
      forall steps | Legal(ttl, Init(), steps) && PunctualRun(ttl, delta, Init(), steps)
        ensures AtMostOneLeader(Exec(ttl, Init(), steps))
      {
        SafeRun(ttl, delta, Init(), steps);
      }
    } else {
      LateRenewalMakesTwoLeaders(ttl, delta);
    }
  }

  // ---------------------------------------------------------------- a leader that renews in time

  /** One renewal, finished at its deadline. */
  function Renewal(ttl: int, id: nat): seq<Step>
    requires ttl >= 3
  {
    [Tick(ttl / 3), CheckTick(id, true), ExpireTick(id, true)]
  }

  ghost predicate LeadsUntil(ttl: int, s: State, id: nat) {
    && Leads(s, id) && !s.holders[id].checked
    && s.lock == Some(Lock(id, s.now + ttl)) && s.holders[id].nextTick == s.now + ttl / 3
  }

  lemma RenewalKeepsLeading(ttl: int, s: State, id: nat)
    requires ttl >= 3 && LeadsUntil(ttl, s, id)
    ensures Legal(ttl, s, Renewal(ttl, id)) && LeadsUntil(ttl, Exec(ttl, s, Renewal(ttl, id)), id)
    ensures Exec(ttl, s, Renewal(ttl, id)).now == s.now + ttl / 3
  {
    var s1 := Apply(ttl, s, Tick(ttl / 3));
    var s2 := Apply(ttl, s1, CheckTick(id, true));
    Prefix(ttl, s2, ExpireTick(id, true), []);
    Prefix(ttl, s1, CheckTick(id, true), [ExpireTick(id, true)]);
    Prefix(ttl, s, Tick(ttl / 3), [CheckTick(id, true), ExpireTick(id, true)]);
  }

  /** The state after n renewals in time. */
  function Renewed(ttl: int, s: State, id: nat, n: nat): State
    requires ttl >= 3 && LeadsUntil(ttl, s, id)
    ensures LeadsUntil(ttl, Renewed(ttl, s, id, n), id)
    decreases n
  {
    if n == 0 then s
    else
      RenewalKeepsLeading(ttl, s, id);
      Renewed(ttl, Exec(ttl, s, Renewal(ttl, id)), id, n - 1)
  }

  /** A leader whose renewals come in time and succeed goes on leading, however long. */
  lemma {:induction false} LeadsForever(ttl: int, s: State, id: nat, n: nat)
    requires ttl >= 3 && LeadsUntil(ttl, s, id)
    ensures Leads(Renewed(ttl, s, id, n), id) && Renewed(ttl, s, id, n).now == s.now + n * (ttl / 3)
    decreases n
  {
    if n > 0 {
      RenewalKeepsLeading(ttl, s, id);
      var s' := Exec(ttl, s, Renewal(ttl, id));
      LeadsForever(ttl, s', id, n - 1);
      assert n * (ttl / 3) == (n - 1) * (ttl / 3) + ttl / 3;
    }
  }

  // ---------------------------------------------------------------- renewals of live leaders

  /** No punctual run lets a live leader's pending EXPIRE meet a stranger's key. */
  ghost predicate RenewsOnlyItsOwn(ttl: int, delta: int) {
    forall steps, id | Legal(ttl, Init(), steps) && PunctualRun(ttl, delta, Init(), steps) ::
      !(Leads(Exec(ttl, Init(), steps), id) && FacesStranger(Exec(ttl, Init(), steps), id))
  }

  /** The first renewal's GET comes in time; before its EXPIRE the key runs out and is taken. */
  function TornRun(ttl: int): seq<Step>
    requires ttl >= 3
  {
    [SetNX(1, true), Tick(ttl / 3), CheckTick(1, true), Tick(ttl - ttl / 3), SetNX(2, true)]
  }

  lemma PunctualPrefix(ttl: int, delta: int, s: State, step: Step, steps: seq<Step>)
    requires Enabled(s, step) && Legal(ttl, Apply(ttl, s, step), steps)
    requires Punctual(delta, s) && Timely(s, step) && PunctualRun(ttl, delta, Apply(ttl, s, step), steps)
    ensures Legal(ttl, s, [step] + steps) && PunctualRun(ttl, delta, s, [step] + steps)
    ensures Exec(ttl, s, [step] + steps) == Exec(ttl, Apply(ttl, s, step), steps)
  {
    assert ([step] + steps)[1..] == steps;
  }

  lemma TornRunIsPunctual(ttl: int, delta: int)
    requires ttl >= 3 && 0 <= delta && ttl <= ttl / 3 + delta
    ensures Legal(ttl, Init(), TornRun(ttl)) && PunctualRun(ttl, delta, Init(), TornRun(ttl))
    ensures
      var s := Exec(ttl, Init(), TornRun(ttl));
      Leads(s, 1) && FacesStranger(s, 1) && s.now == ttl && s.lock == Some(Lock(2, 2 * ttl))
  {
    var s1 := Apply(ttl, Init(), SetNX(1, true));
    var s2 := Apply(ttl, s1, Tick(ttl / 3));
    var s3 := Apply(ttl, s2, CheckTick(1, true));
    var s4 := Apply(ttl, s3, Tick(ttl - ttl / 3));
    var s5 := Apply(ttl, s4, SetNX(2, true));
    var first, second := Active(true, true, ttl / 3), Active(true, false, ttl + ttl / 3);
    assert s4 == State(ttl, Some(Lock(1, ttl)), map[1 := first]);
    assert s5 == State(ttl, Some(Lock(2, 2 * ttl)), map[1 := first, 2 := second]);
    assert PunctualRun(ttl, delta, s5, []);
    PunctualPrefix(ttl, delta, s4, SetNX(2, true), []);
    PunctualPrefix(ttl, delta, s3, Tick(ttl - ttl / 3), [SetNX(2, true)]);
    PunctualPrefix(ttl, delta, s2, CheckTick(1, true), [Tick(ttl - ttl / 3), SetNX(2, true)]);
    PunctualPrefix(ttl, delta, s1, Tick(ttl / 3), [CheckTick(1, true), Tick(ttl - ttl / 3), SetNX(2, true)]);
    PunctualPrefix(ttl, delta, Init(), SetNX(1, true),
                   [Tick(ttl / 3), CheckTick(1, true), Tick(ttl - ttl / 3), SetNX(2, true)]);
  }

  /** For every ttl: after this run one more tick of the clock and the pending EXPIRE prolong the
      lease of the second node. */
  lemma TornRenewalProlongsStranger(ttl: int)
    requires ttl >= 3
    ensures Legal(ttl, Init(), TornRun(ttl)) && PunctualRun(ttl, ttl - ttl / 3, Init(), TornRun(ttl))
    ensures
      var s := Apply(ttl, Exec(ttl, Init(), TornRun(ttl)), Tick(1));
      && s.lock == Some(Lock(2, 2 * ttl))
      && Enabled(s, ExpireTick(1, true))
      && Apply(ttl, s, ExpireTick(1, true)).lock == Some(Lock(2, 2 * ttl + 1))
  {
    TornRunIsPunctual(ttl, ttl - ttl / 3);
  }

  /** Live leaders renew nothing but their own lease if and only if a renewal that is late by
      `delta` still comes before the key expires. */
  lemma RenewsOnlyItsOwnIff(ttl: int, delta: int)
    requires ttl >= 3 && 0 <= delta
    ensures RenewsOnlyItsOwn(ttl, delta) <==> ttl / 3 + delta < ttl
  {
    if ttl / 3 + delta < ttl {
      forall steps, id | Legal(ttl, Init(), steps) && PunctualRun(ttl, delta, Init(), steps)
        ensures !(Leads(Exec(ttl, Init(), steps), id) && FacesStranger(Exec(ttl, Init(), steps), id))
      {
        SafeRun(ttl, delta, Init(), steps);
      }
    } else {
      TornRunIsPunctual(ttl, delta);
    }
  }

  // ---------------------------------------------------------------- the code

  /** The lock key on the Redis server, with the server's clock. */
  class LockServer {
    var now: int
    var lock: Option<Lock>

    constructor ()
      ensures now == 0 && lock == None
    {
      now, lock := 0, None;
    }

    method SetNX(id: nat, ttl: int) returns (ok: bool)
      modifies this`lock
      ensures ok == !Present(old(lock), now)
      ensures lock == TryAcquire(old(lock), now, id, ttl, true).0
    {
      ok := !Present(lock, now);
      if ok {
        lock := Some(Lock(id, now + ttl));
      }
    }

    method Get() returns (value: Option<nat>)
      ensures value == if Present(lock, now) then Some(lock.value.owner) else None
    {
      value := if Present(lock, now) then Some(lock.value.owner) else None;
    }

    method Expire(ttl: int)
      modifies this`lock
      ensures lock == AfterExpire(old(lock), now, ttl, true)
    {
      if Present(lock, now) {
        lock := Some(lock.value.(expiry := now + ttl));
      }
    }

    /** The release script, atomic on the server. */
    method DeleteIfOwner(id: nat)
      modifies this`lock
      ensures lock == AfterRelease(old(lock), now, id, true)
    {
      var value := Get();
      if value == Some(id) {
        lock := None;
      }
    }
  }

  /** One attempt to lead, with its renewal goroutine (tryLeaderWithRedis). */
  class Candidate {
    const id: nat
    const ttl: int
    var holder: Holder

    /** `answered`: the reply to SETNX arrives. */
    constructor (server: LockServer, id: nat, ttl: int, answered: bool)
      modifies server`lock
      ensures this.id == id && this.ttl == ttl
      ensures (server.lock, holder) == TryAcquire(old(server.lock), server.now, id, ttl, answered)
    {
      this.id := id;
      this.ttl := ttl;
      var ok := server.SetNX(id, ttl);
      holder := if ok && answered then Active(true, false, server.now + ttl / 3) else Gone;
    }

    method RenewalGet(server: LockServer, answered: bool)
      requires holder.Active? && !holder.checked
      modifies this`holder
      ensures holder == AfterGet(server.lock, server.now, id, old(holder), answered)
    {
      var value := server.Get();
      if !answered || value != Some(id) {
        holder := Gone;
      } else {
        holder := holder.(checked := true);
      }
    }

    method RenewalExpire(server: LockServer, applied: bool)
      requires holder.Active? && holder.checked
      modifies this`holder, server`lock
      ensures server.lock == AfterExpire(old(server.lock), server.now, ttl, applied)
      ensures holder == old(holder).(checked := false, nextTick := old(holder).nextTick + ttl / 3)
    {
      if applied {
        server.Expire(ttl);
      }
      holder := holder.(checked := false, nextTick := holder.nextTick + ttl / 3);
    }

    method OnDone(server: LockServer, applied: bool)
      requires holder.Active? && !holder.live && !holder.checked
      modifies this`holder, server`lock
      ensures server.lock == AfterRelease(old(server.lock), server.now, id, applied) && holder == Gone
    {
      if applied {
        server.DeleteIfOwner(id);
      }
      holder := Gone;
    }
  }
}
