/** When delayed items are published (redis_adapter.go). The range read, XADD and ZREM of a
    scheduler are separate commands with times of their own, and anybody may put items off in
    between; all times are readings of one clock in nanoseconds. */
module DelayTiming {
  import opened ZSets
  import opened Scheduler

  /** Commands on the delay set, each with the time at which it takes effect: an item is put off
      by `delay`; a scheduler reads what is due; it hands the first item of what it read to XADD;
      it removes that item; it stops, whatever it still holds. */
  datatype Command<T> =
    | Put(m: T, time: int, delay: int)
    | Pick(p: nat, time: int)
    | Send(p: nat, time: int)
    | Drop(p: nat, time: int, applied: bool)
    | Quit(p: nat, time: int)

  /** What a scheduler has read and not yet dealt with. */
  datatype Held<T> = Held(batch: ZSet<T>, sent: bool)

  datatype Delayed<T> = Delayed(z: ZSet<T>, passes: map<nat, Held<T>>)

  predicate HasItem<T>(d: Delayed<T>, p: nat) {
    p in d.passes && |d.passes[p].batch| > 0
  }

  predicate Enabled<T>(d: Delayed<T>, c: Command<T>) {
    match c
    case Put(m, time, delay) => true
    case Pick(p, time) => !HasItem(d, p)
    case Send(p, time) => HasItem(d, p) && !d.passes[p].sent
    case Drop(p, time, applied) => HasItem(d, p) && d.passes[p].sent
    case Quit(p, time) => true
  }

  function Step<T(==)>(d: Delayed<T>, c: Command<T>): Delayed<T>
    requires Enabled(d, c)
  {
    match c
    case Put(m, time, delay) => d.(z := ZAdd(d.z, m, UnixMilli(time + delay)))
    case Pick(p, time) => d.(passes := d.passes[p := Held(ZRange(d.z, UnixMilli(time), BATCH), false)])
    case Send(p, time) => d.(passes := d.passes[p := d.passes[p].(sent := true)])
    case Drop(p, time, applied) =>
      var batch := d.passes[p].batch;
      Delayed(if applied then ZRem(d.z, batch[0].member) else d.z, d.passes[p := Held(batch[1..], false)])
    case Quit(p, time) => d.(passes := d.passes - {p})
  }

  /** A history of commands in the order of their times. */
  predicate History<T(==)>(run: seq<Command<T>>)
    decreases |run|, 0
  {
    |run| > 0 ==>
      var before, last := run[..|run| - 1], run[|run| - 1];
      && History(before)
      && Enabled(After(before), last)
      && (|before| > 0 ==> before[|before| - 1].time <= last.time)
  }

  function After<T(==)>(run: seq<Command<T>>): Delayed<T>
    requires History(run)
    decreases |run|, 1
  {
    if |run| == 0 then Delayed([], map[])
    else Step(After(run[..|run| - 1]), run[|run| - 1])
  }

  predicate PutOff<T(==)>(run: seq<Command<T>>, m: T) {
    |run| > 0 && ((run[|run| - 1].Put? && run[|run| - 1].m == m) || PutOff(run[..|run| - 1], m))
  }

  /** The time for which the last request to put `m` off wanted it published. */
  function LastDue<T(==)>(run: seq<Command<T>>, m: T): int
    requires PutOff(run, m)
  {
    var last := run[|run| - 1];
    if last.Put? && last.m == m then last.time + last.delay else LastDue(run[..|run| - 1], m)
  }

  lemma {:induction false} RemovedKeepsScores<T>(z: ZSet<T>, m: T, e: Scored<T>)
    requires e in ZRem(z, m)
    ensures e in z && e.member != m
  {
    assert |z| > 0;
    if e in ZRem(z[1..], m) {
      RemovedKeepsScores(z[1..], m, e);
      assert e in z[1..];
    }
  }

  lemma {:induction false} InsertedKeepsScores<T>(z: ZSet<T>, x: Scored<T>, e: Scored<T>)
    requires e in Insert(z, x)
    ensures e in z || e == x
  {
    if |z| > 0 && z[0].score <= x.score && e != z[0] {
      assert e in Insert(z[1..], x);
      InsertedKeepsScores(z[1..], x, e);
    }
  }

  /** The score of an item is the last due time asked for, in milliseconds. */
  lemma {:induction false} ScoreIsLastDue<T>(run: seq<Command<T>>, e: Scored<T>)
    requires History(run) && e in After(run).z
    ensures PutOff(run, e.member) && e.score == UnixMilli(LastDue(run, e.member))
    decreases |run|
  {
    var before, last := run[..|run| - 1], run[|run| - 1];
    var d := After(before);
    if last.Put? {
      var x := Scored(UnixMilli(last.time + last.delay), last.m);
      InsertedKeepsScores(ZRem(d.z, last.m), x, e);
      if e != x {
        RemovedKeepsScores(d.z, last.m, e);
        ScoreIsLastDue(before, e);
      }
    } else {
      if last.Drop? && last.applied {
        RemovedKeepsScores(d.z, d.passes[last.p].batch[0].member, e);
      }
      ScoreIsLastDue(before, e);
    }
  }

  /** A range read at time `now` picks nothing a full millisecond or more before it is due. */
  lemma PicksAreDue<T>(run: seq<Command<T>>, now: int, e: Scored<T>)
    requires History(run) && e in ZRange(After(run).z, UnixMilli(now), BATCH)
    ensures PutOff(run, e.member) && LastDue(run, e.member) - now < 1_000_000
  {
    var z := After(run).z;
    ZRangeIsFront(z, UnixMilli(now), BATCH);
    DueBound(z, UnixMilli(now));
    var i :| 0 <= i < |ZRange(z, UnixMilli(now), BATCH)| && ZRange(z, UnixMilli(now), BATCH)[i] == e;
    assert z[i] == e;
    ScoreIsLastDue(run, e);
  }

  /** What happened after the last range read of scheduler `p`. */
  function Since<T>(run: seq<Command<T>>, p: nat): seq<Command<T>> {
    if |run| == 0 then []
    else
      var last := run[|run| - 1];
      if last.Pick? && last.p == p then [] else Since(run[..|run| - 1], p) + [last]
  }

  function Now<T>(run: seq<Command<T>>): int
    requires |run| > 0
  {
    run[|run| - 1].time
  }

  /** What the history makes of an item that a scheduler still holds: the last request for it came
      after the pick, or it is due by now. */
  ghost predicate DueOrPutOffSince<T>(run: seq<Command<T>>, p: nat, m: T) {
    && PutOff(run, m)
    && (PutOff(Since(run, p), m) ==> LastDue(run, m) == LastDue(Since(run, p), m))
    && (!PutOff(Since(run, p), m) ==> |run| > 0 && LastDue(run, m) - Now(run) < 1_000_000)
  }

  lemma JustPicked<T>(run: seq<Command<T>>, p: nat, e: Scored<T>)
    requires History(run) && |run| > 0 && run[|run| - 1].Pick? && run[|run| - 1].p == p
    requires p in After(run).passes && e in After(run).passes[p].batch
    ensures DueOrPutOffSince(run, p, e.member)
  {
    PicksAreDue(run[..|run| - 1], Now(run), e);
  }

  lemma LastCommand<T>(before: seq<Command<T>>, c: Command<T>, m: T)
    ensures PutOff(before + [c], m) <==> (c.Put? && c.m == m) || PutOff(before, m)
    ensures PutOff(before + [c], m) ==>
              LastDue(before + [c], m) == if c.Put? && c.m == m then c.time + c.delay else LastDue(before, m)
  {
    assert (before + [c])[..|before|] == before;
  }

  lemma StillHeld<T>(run: seq<Command<T>>, p: nat, m: T)
    requires History(run) && |run| > 0 && !(run[|run| - 1].Pick? && run[|run| - 1].p == p)
    requires DueOrPutOffSince(run[..|run| - 1], p, m)
    ensures DueOrPutOffSince(run, p, m)
  {
    var before, last := run[..|run| - 1], run[|run| - 1];
    assert run == before + [last];
    LastCommand(before, last, m);
    LastCommand(Since(before, p), last, m);
  }

  lemma {:induction false} HeldItems<T>(run: seq<Command<T>>, p: nat, e: Scored<T>)
    requires History(run) && p in After(run).passes && e in After(run).passes[p].batch
    ensures DueOrPutOffSince(run, p, e.member)
    decreases |run|
  {
    var before, last := run[..|run| - 1], run[|run| - 1];
    if last.Pick? && last.p == p {
      JustPicked(run, p, e);
    } else {
      assert p in After(before).passes && e in After(before).passes[p].batch;
      HeldItems(before, p, e);
      StillHeld(run, p, e.member);
    }
  }

  /** The item that scheduler `p` hands to XADD next. */
  function NextItem<T(==)>(run: seq<Command<T>>, p: nat): T
    requires History(run) && HasItem(After(run), p)
  {
    After(run).passes[p].batch[0].member
  }

  /** XADD at this point is a full millisecond or more ahead of the last request for the item. */
  predicate Premature<T(==)>(run: seq<Command<T>>, p: nat, time: int)
    requires History(run) && HasItem(After(run), p)
  {
    PutOff(run, NextItem(run, p)) && LastDue(run, NextItem(run, p)) - time >= 1_000_000
  }

  /** An XADD comes too early if and only if the item was put off again after the scheduler had
      picked it, to a time that is still ahead. */
  lemma PrematureIff<T>(run: seq<Command<T>>, p: nat, time: int)
    requires History(run + [Send(p, time)]) && History(run) && HasItem(After(run), p)
    ensures
      var since, m := Since(run, p), NextItem(run, p);
      Premature(run, p, time) <==> PutOff(since, m) && LastDue(since, m) - time >= 1_000_000
  {
    HeldItems(run, p, After(run).passes[p].batch[0]);
    assert (run + [Send(p, time)])[..|run|] == run;
  }

  /** So an item that nobody puts off between its pick and its XADD is never published early. */
  lemma NeverEarly<T>(run: seq<Command<T>>, p: nat, time: int)
    requires History(run + [Send(p, time)]) && History(run) && HasItem(After(run), p)
    requires !PutOff(Since(run, p), NextItem(run, p))
    ensures PutOff(run, NextItem(run, p)) && LastDue(run, NextItem(run, p)) - time < 1_000_000
  {
    HeldItems(run, p, After(run).passes[p].batch[0]);
    assert (run + [Send(p, time)])[..|run|] == run;
  }

  lemma NextCommand<T>(run: seq<Command<T>>, c: Command<T>)
    requires History(run) && Enabled(After(run), c) && (|run| > 0 ==> Now(run) <= c.time)
    ensures History(run + [c]) && After(run + [c]) == Step(After(run), c)
  {
    var next := run + [c];
    var before := next[..|next| - 1];
    assert before == run && next[|next| - 1] == c;
    assert |before| > 0 ==> before[|before| - 1].time <= c.time;
    assert History(next);
  }

  /** A message is put off until now, picked, and put off again before it is sent. */
  function PutOffAgain<T>(m: T, delay: int): seq<Command<T>> {
    [Put(m, 0, 0), Pick(0, 0), Put(m, 0, delay)]
  }

  lemma OnlyItem<T>(m: T, a: int, b: int)
    ensures ZAdd([], m, a) == [Scored(a, m)]
    ensures ZAdd([Scored(a, m)], m, b) == [Scored(b, m)]
    ensures ZRange([Scored(a, m)], a, BATCH) == [Scored(a, m)]
    ensures ZRem([Scored(a, m)], m) == []
  {
    var z := [Scored(a, m)];
    assert z[1..] == [];
    assert ZRange(z[1..], a, BATCH - 1) == [];
  }

  lemma PutOffAgainHistory<T>(m: T, delay: int)
    ensures
      var run := PutOffAgain(m, delay);
      && History(run) && PutOff(run, m) && LastDue(run, m) == delay
      && After(run) == Delayed([Scored(UnixMilli(delay), m)], map[0 := Held([Scored(0, m)], false)])
  {
    var first, second: Command<T>, third := Put(m, 0, 0), Pick(0, 0), Put(m, 0, delay);
    var none: seq<Command<T>> := [];
    OnlyItem(m, 0, UnixMilli(delay));
    assert UnixMilli(0) == 0;
    NextCommand(none, first);
    NextCommand(none + [first], second);
    NextCommand(none + [first] + [second], third);
    assert none + [first] + [second] + [third] == PutOffAgain(m, delay);
  }

  /** Any message, put off again by any time while a scheduler holds it, is sent at once, and the
      new item is removed with the old one. */
  lemma PutOffAgainIsSentAtOnce<T>(m: T, delay: int)
    ensures
      var run := PutOffAgain(m, delay);
      && History(run) && HasItem(After(run), 0) && NextItem(run, 0) == m
      && (Premature(run, 0, 0) <==> delay >= 1_000_000)
      && History(run + [Send(0, 0)] + [Drop(0, 0, true)])
      && After(run + [Send(0, 0)] + [Drop(0, 0, true)]).z == []
  {
    var run := PutOffAgain(m, delay);
    PutOffAgainHistory(m, delay);
    OnlyItem(m, UnixMilli(delay), 0);
    NextCommand(run, Send(0, 0));
    NextCommand(run + [Send(0, 0)], Drop(0, 0, true));
  }
}
