/** PublishDelay and the scheduler's rounds together (redis_adapter.go): a delayed message stays
    where it is until its time, and then it is sent. */
module DelayedPublishing {
  import opened Options
  import opened Messages
  import opened Routing
  import opened ZSets
  import opened Scheduler
  import opened DelayTiming
  import opened Delivery
  import opened RedisAdapter

  // ---------------------------------------------------------------- before its time

  lemma WithoutOne(b: Broker, b0: Broker, x: Message, e: Scored<Message>, faults: Faults, i: nat)
    requires e in b.delay && x != e.member
    requires b0 == b.(delay := ZRem(b.delay, e.member))
    ensures
      var r := AfterRemoval(AfterSend(b, x, faults, i), x, faults, i);
      var r0 := AfterRemoval(AfterSend(b0, x, faults, i), x, faults, i);
      e in r.delay && r0 == r.(delay := ZRem(r.delay, e.member))
  {
    ZRemMeaning(b.delay, x, e);
    ZRemCommutes(b.delay, x, e.member);
  }

  lemma {:induction false} ItemsWithoutOne(b: Broker, b0: Broker, batch: ZSet<Message>, e: Scored<Message>, faults: Faults, i: nat)
    requires e in b.delay && forall x | x in batch :: x.member != e.member
    requires b0 == b.(delay := ZRem(b.delay, e.member))
    ensures
      var r, r0 := AfterItems(b, batch, faults, i), AfterItems(b0, batch, faults, i);
      e in r.delay && r0 == r.(delay := ZRem(r.delay, e.member))
    decreases |batch| - i
  {
    if i < |batch| {
      var x := batch[i].member;
      WithoutOne(b, b0, x, e, faults, i);
      ItemsWithoutOne(AfterRemoval(AfterSend(b, x, faults, i), x, faults, i),
                      AfterRemoval(AfterSend(b0, x, faults, i), x, faults, i), batch, e, faults, i + 1);
    }
  }

  lemma PickedIsDue(z: ZSet<Message>, now: int, x: Scored<Message>)
    requires x in ZRange(z, UnixMilli(now), BATCH)
    ensures x in z && x.score <= now / 1_000_000
  {
    ZRangeIsFront(z, UnixMilli(now), BATCH);
    DueBound(z, UnixMilli(now));
    var i :| 0 <= i < |ZRange(z, UnixMilli(now), BATCH)| && ZRange(z, UnixMilli(now), BATCH)[i] == x;
    assert z[i] == x;
  }

  lemma {:induction false} OneScore(z: ZSet<Message>, x: Scored<Message>, e: Scored<Message>)
    requires Valid(z) && x in z && e in z && x.member == e.member
    ensures x == e
  {
    var i :| 0 <= i < |z| && z[i] == x;
    var j :| 0 <= j < |z| && z[j] == e;
    if i < j {
      ValidMeaning(z, i, j);
    } else if j < i {
      ValidMeaning(z, j, i);
    }
  }

  /** A round at an earlier millisecond leaves a delayed message alone, whatever fails: it stays in
      the set under its score, and everything else happens as if it were not there. */
  lemma TooEarlyStays(b: Broker, now: int, faults: Faults, e: Scored<Message>)
    requires Valid(b.delay) && e in b.delay && now / 1_000_000 < e.score
    ensures
      var r, without := AfterRound(b, now, faults), AfterRound(b.(delay := ZRem(b.delay, e.member)), now, faults);
      && e in r.delay
      && r.streams == without.streams && r.groups == without.groups
      && ZRem(r.delay, e.member) == without.delay
  {
    if !faults.scan {
      var batch := ZRange(b.delay, UnixMilli(now), BATCH);
      RangeWithoutLater(b.delay, e, UnixMilli(now), BATCH);
      forall x | x in batch ensures x.member != e.member {
        PickedIsDue(b.delay, now, x);
        if x.member == e.member {
          OneScore(b.delay, x, e);
        }
      }
      ItemsWithoutOne(b, b.(delay := ZRem(b.delay, e.member)), batch, e, faults, 0);
    }
  }

  // ---------------------------------------------------------------- from its time on

  /** Rounds without failures at the given times. */
  function FaultFree(b: Broker, times: seq<int>): Broker
    decreases |times|
  {
    if |times| == 0 then b else FaultFree(AfterRound(b, times[0], NO_FAULTS), times[1..])
  }

  lemma RoundKeeps(b: Broker, now: int, stream: string)
    requires Valid(b.delay)
    ensures
      var r := AfterRound(b, now, NO_FAULTS);
      Valid(r.delay) && Entries(b, stream) <= Entries(r, stream) && Members(r.delay) <= Members(b.delay)
  {
    RoundMovesFront(b, now, stream);
    RoundTakesFront(b.delay, now);
    ItemsReachStreams(b, ZRange(b.delay, UnixMilli(now), BATCH), 0, stream);
    var batch := ZRange(b.delay, UnixMilli(now), BATCH);
    assert batch[0..] == batch;
    MembersOfParts(batch, AfterRound(b, now, NO_FAULTS).delay);
  }

  lemma {:induction false} MembersOfParts(a: ZSet<Message>, z: ZSet<Message>)
    ensures Members(a + z) == Members(a) + Members(z)
  {
    if |a| > 0 {
      assert (a + z)[1..] == a[1..] + z;
      MembersOfParts(a[1..], z);
    } else {
      assert a + z == z;
    }
  }

  lemma {:induction false} RoundsKeep(b: Broker, times: seq<int>, stream: string)
    requires Valid(b.delay)
    ensures
      var r := FaultFree(b, times);
      Entries(b, stream) <= Entries(r, stream) && Members(r.delay) <= Members(b.delay)
    decreases |times|
  {
    if |times| > 0 {
      RoundKeeps(b, times[0], stream);
      RoundsKeep(AfterRound(b, times[0], NO_FAULTS), times[1..], stream);
    }
  }

  /** The message has left the set and is on its stream, behind what was there. */
  ghost predicate SentSince(b: Broker, r: Broker, m: Message) {
    && m !in Members(r.delay)
    && exists k :: |Entries(b, RedisStream(m.topic))| <= k < |Entries(r, RedisStream(m.topic))| &&
         Entries(r, RedisStream(m.topic))[k] == Carried(m)
  }

  lemma {:induction false} Contributed(batch: ZSet<Message>, i: nat) returns (k: nat)
    requires i < |batch|
    ensures
      var m := batch[i].member;
      k < |Contribution(batch, RedisStream(m.topic))| && Contribution(batch, RedisStream(m.topic))[k] == Carried(m)
  {
    var stream := RedisStream(batch[i].member.topic);
    if i == 0 {
      k := 0;
    } else {
      var j := Contributed(batch[1..], i - 1);
      k := if RedisStream(batch[0].member.topic) == stream then j + 1 else j;
    }
  }

  lemma SentNow(b: Broker, now: int, i: nat)
    requires Valid(b.delay) && i < |ZRange(b.delay, UnixMilli(now), BATCH)| <= |b.delay|
    requires ZRange(b.delay, UnixMilli(now), BATCH)[i] == b.delay[i]
    ensures SentSince(b, AfterRound(b, now, NO_FAULTS), b.delay[i].member)
  {
    var batch, m := ZRange(b.delay, UnixMilli(now), BATCH), b.delay[i].member;
    var stream, r := RedisStream(m.topic), AfterRound(b, now, NO_FAULTS);
    RoundMovesFront(b, now, stream);
    var k := Contributed(batch, i);
    assert Entries(r, stream)[|Entries(b, stream)| + k] == Carried(m);
    if m in Members(r.delay) {
      var j := InMembers(r.delay, m);
      ValidMeaning(b.delay, i, |batch| + j);
    }
  }

  lemma StaysSent(b: Broker, r: Broker, times: seq<int>, m: Message)
    requires Valid(r.delay) && SentSince(b, r, m)
    ensures SentSince(b, FaultFree(r, times), m)
  {
    var stream := RedisStream(m.topic);
    RoundsKeep(r, times, stream);
    var k :| |Entries(b, stream)| <= k < |Entries(r, stream)| && Entries(r, stream)[k] == Carried(m);
    assert Entries(FaultFree(r, times), stream)[k] == Carried(m);
  }

  lemma SentSinceEarlier(b: Broker, b1: Broker, r: Broker, m: Message)
    requires |Entries(b, RedisStream(m.topic))| <= |Entries(b1, RedisStream(m.topic))| && SentSince(b1, r, m)
    ensures SentSince(b, r, m)
  {
    var stream := RedisStream(m.topic);
    var k :| |Entries(b1, stream)| <= k < |Entries(r, stream)| && Entries(r, stream)[k] == Carried(m);
    assert |Entries(b, stream)| <= k;
  }

  lemma FrontOrFull(b: Broker, now: int, i: nat)
    requires Valid(b.delay) && i < |b.delay| && b.delay[i].score <= now / 1_000_000
    ensures
      var batch, r := ZRange(b.delay, UnixMilli(now), BATCH), AfterRound(b, now, NO_FAULTS);
      && |batch| <= |b.delay| && Valid(r.delay)
      && (i < |batch| ==> batch[i] == b.delay[i])
      && (i >= |batch| ==> |batch| == 100 && i - 100 < |r.delay| && r.delay[i - 100] == b.delay[i])
  {
    var batch := ZRange(b.delay, UnixMilli(now), BATCH);
    RoundMovesFront(b, now, "");
    RoundTakesFront(b.delay, now);
    var r := AfterRound(b, now, NO_FAULTS);
    ItemsReachStreams(b, batch, 0, "");
    assert batch[0..] == batch && batch + r.delay == b.delay;
    if i >= |batch| {
      assert r.delay[i - |batch|] == b.delay[i];
      assert r.delay[i - |batch|] in r.delay;
    }
  }

  /** Rounds without failures, at times from the due millisecond on, send a delayed message: the
      item at position i of the set is sent by round i/100 + 1 at the latest. */
  lemma {:induction false} DueIsSent(b: Broker, times: seq<int>, i: nat)
    requires Valid(b.delay) && i < |b.delay| && |times| > i / 100
    requires forall t | t in times :: b.delay[i].score <= t / 1_000_000
    ensures SentSince(b, FaultFree(b, times), b.delay[i].member)
    decreases |times|
  {
    var m, r := b.delay[i].member, AfterRound(b, times[0], NO_FAULTS);
    assert times[0] in times;
    FrontOrFull(b, times[0], i);
    if i < |ZRange(b.delay, UnixMilli(times[0]), BATCH)| {
      SentNow(b, times[0], i);
      StaysSent(b, r, times[1..], m);
    } else {
      assert forall t | t in times[1..] :: t in times;
      DueIsSent(r, times[1..], i - 100);
      RoundKeeps(b, times[0], RedisStream(m.topic));
      SentSinceEarlier(b, r, FaultFree(r, times[1..]), m);
    }
  }

  // ---------------------------------------------------------------- calls in any order

  /** PublishDelay of a message, and a wake-up of a scheduler. */
  datatype Call = Delay(m: Message, time: int, wait: int) | Wake(time: int, faults: Faults)

  function AfterCalls(start: Broker, calls: seq<Call>): Broker {
    if |calls| == 0 then start
    else
      var b := AfterCalls(start, calls[..|calls| - 1]);
      match calls[|calls| - 1]
      case Delay(m, time, wait) => ZAddItem(b, m, UnixMilli(time + wait))
      case Wake(time, faults) => AfterRound(b, time, faults)
  }

  /** When the last PublishDelay of a message wanted it published. */
  function Asked(calls: seq<Call>, m: Message): Option<int> {
    if |calls| == 0 then None
    else
      var last := calls[|calls| - 1];
      if last.Delay? && last.m == m then Some(last.time + last.wait) else Asked(calls[..|calls| - 1], m)
  }

  lemma {:induction false} ItemsOnlyLeave(b: Broker, batch: ZSet<Message>, faults: Faults, i: nat, e: Scored<Message>)
    requires e in AfterItems(b, batch, faults, i).delay
    ensures e in b.delay
    decreases |batch| - i
  {
    if i < |batch| {
      var x := batch[i].member;
      ItemsOnlyLeave(AfterRemoval(AfterSend(b, x, faults, i), x, faults, i), batch, faults, i + 1, e);
      ZRemMeaning(b.delay, x, e);
    }
  }

  lemma {:induction false} ScoresAsAsked(start: Broker, calls: seq<Call>, e: Scored<Message>)
    requires start.delay == [] && e in AfterCalls(start, calls).delay
    ensures Asked(calls, e.member).Some? && e.score == Asked(calls, e.member).value / 1_000_000
    decreases |calls|
  {
    var front, last := calls[..|calls| - 1], calls[|calls| - 1];
    var b := AfterCalls(start, front);
    match last {
      case Delay(m, time, wait) =>
        var x := Scored(UnixMilli(time + wait), m);
        InsertedKeepsScores(ZRem(b.delay, m), x, e);
        if e != x {
          ZRemMeaning(b.delay, m, e);
          ScoresAsAsked(start, front, e);
        }
      case Wake(time, faults) =>
        if !faults.scan {
          ItemsOnlyLeave(b, ZRange(b.delay, UnixMilli(time), BATCH), faults, 0, e);
        }
        ScoresAsAsked(start, front, e);
    }
  }

  /** What a round adds to a stream, whatever fails, are items of its batch. */
  ghost predicate AddsOnly(b: Broker, r: Broker, stream: string, batch: ZSet<Message>) {
    && Entries(b, stream) <= Entries(r, stream)
    && forall k | |Entries(b, stream)| <= k < |Entries(r, stream)| ::
         IsItem(Entries(r, stream)[k], batch)
  }

  ghost predicate IsItem(m: Message, batch: ZSet<Message>) {
    exists e | e in batch :: m == Carried(e.member)
  }

  lemma SendAdds(b: Broker, batch: ZSet<Message>, faults: Faults, i: nat, stream: string)
    requires i < |batch|
    ensures AddsOnly(b, AfterRemoval(AfterSend(b, batch[i].member, faults, i), batch[i].member, faults, i), stream, batch)
  {
    var r := AfterRemoval(AfterSend(b, batch[i].member, faults, i), batch[i].member, faults, i);
    assert batch[i] in batch;
    forall k | |Entries(b, stream)| <= k < |Entries(r, stream)|
      ensures IsItem(Entries(r, stream)[k], batch)
    {
      assert Entries(r, stream)[k] == Carried(batch[i].member);
    }
  }

  lemma AddsOnlyTwice(b: Broker, b1: Broker, r: Broker, stream: string, batch: ZSet<Message>)
    requires AddsOnly(b, b1, stream, batch) && AddsOnly(b1, r, stream, batch)
    ensures AddsOnly(b, r, stream, batch)
  {
    forall k | |Entries(b, stream)| <= k < |Entries(r, stream)|
      ensures IsItem(Entries(r, stream)[k], batch)
    {
      if k < |Entries(b1, stream)| {
        assert Entries(r, stream)[k] == Entries(b1, stream)[k];
        assert IsItem(Entries(b1, stream)[k], batch);
      }
    }
  }

  lemma {:induction false} ItemsAddOnly(b: Broker, batch: ZSet<Message>, faults: Faults, i: nat, stream: string)
    ensures AddsOnly(b, AfterItems(b, batch, faults, i), stream, batch)
    decreases |batch| - i
  {
    if i < |batch| {
      var x := batch[i].member;
      var b1 := AfterRemoval(AfterSend(b, x, faults, i), x, faults, i);
      SendAdds(b, batch, faults, i, stream);
      ItemsAddOnly(b1, batch, faults, i + 1, stream);
      AddsOnlyTwice(b, b1, AfterItems(b, batch, faults, i), stream, batch);
    }
  }

  /** After any calls, with any failures: what a scheduler's round adds to a stream are messages
      asked for, and none a full millisecond or more before the time last asked for. */
  lemma RoundSendsNothingEarly(start: Broker, calls: seq<Call>, now: int, faults: Faults, stream: string, k: nat)
    returns (m: Message)
    requires start.delay == []
    requires
      var b := AfterCalls(start, calls);
      |Entries(b, stream)| <= k < |Entries(AfterRound(b, now, faults), stream)|
    ensures Entries(AfterRound(AfterCalls(start, calls), now, faults), stream)[k] == Carried(m)
    ensures Asked(calls, m).Some? && Asked(calls, m).value - now < 1_000_000
  {
    var b := AfterCalls(start, calls);
    var batch := ZRange(b.delay, UnixMilli(now), BATCH);
    ItemsAddOnly(b, batch, faults, 0, stream);
    assert IsItem(Entries(AfterRound(b, now, faults), stream)[k], batch);
    var e :| e in batch && Entries(AfterRound(b, now, faults), stream)[k] == Carried(e.member);
    PickedIsDue(b.delay, now, e);
    ScoresAsAsked(start, calls, e);
    m := e.member;
  }
}
