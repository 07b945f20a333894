/** The Redis adapter as it runs (redis_adapter.go): a Redis server whose streams hold encoded
    fields and whose delay set holds encoded items, the handling of one stream entry, and one
    round of the delay scheduler. Each method is proved against the step machine of `Delivery`. */
module RedisAdapter {
  import opened Decimal
  import opened Topics
  import opened Routing
  import opened Messages
  import opened ZSets
  import opened Delivery
  import opened Backoff
  import opened Scheduler

  // ---------------------------------------------------------------- decoding what Redis stores

  function DecodeAll(stream: string, es: seq<Fields>): seq<Message> {
    if |es| == 0 then [] else DecodeAll(stream, es[..|es| - 1]) + [Decode(stream, es[|es| - 1])]
  }

  lemma DecodeAppend(stream: string, es: seq<Fields>, f: Fields)
    ensures DecodeAll(stream, es + [f]) == DecodeAll(stream, es) + [Decode(stream, f)]
  {
    assert (es + [f])[..|es|] == es;
  }

  lemma {:induction false} DecodeAt(stream: string, es: seq<Fields>, id: nat)
    requires id < |es|
    ensures |DecodeAll(stream, es)| == |es| && DecodeAll(stream, es)[id] == Decode(stream, es[id])
    decreases |es|
  {
    var front := es[..|es| - 1];
    if id < |front| {
      DecodeAt(stream, front, id);
    } else if |front| > 0 {
      DecodeAt(stream, front, 0);
    }
  }

  lemma {:induction false} DecodeLength(stream: string, es: seq<Fields>)
    ensures |DecodeAll(stream, es)| == |es|
    decreases |es|
  {
    if |es| > 0 {
      DecodeAt(stream, es, 0);
    }
  }

  /** An item as the adapter itself writes it. */
  predicate WellEncoded(d: DelayItem) {
    ToDelay(FromDelay(d)) == d
  }

  predicate AllWellEncoded(z: ZSet<DelayItem>) {
    forall e | e in z :: WellEncoded(e.member)
  }

  function Restore(z: ZSet<DelayItem>): ZSet<Message> {
    if |z| == 0 then [] else [Scored(z[0].score, FromDelay(z[0].member))] + Restore(z[1..])
  }

  lemma TailWellEncoded(z: ZSet<DelayItem>)
    requires |z| > 0 && AllWellEncoded(z)
    ensures WellEncoded(z[0].member) && AllWellEncoded(z[1..])
  {
    assert z == [z[0]] + z[1..];
  }

  lemma {:induction false} RestoreRem(z: ZSet<DelayItem>, d: DelayItem)
    requires AllWellEncoded(z) && WellEncoded(d)
    ensures Restore(ZRem(z, d)) == ZRem(Restore(z), FromDelay(d)) && AllWellEncoded(ZRem(z, d))
  {
    if |z| > 0 {
      TailWellEncoded(z);
      RestoreRem(z[1..], d);
      assert Restore(z)[1..] == Restore(z[1..]);
      assert z[0].member == d <==> FromDelay(z[0].member) == FromDelay(d);
      assert ([z[0]] + ZRem(z[1..], d))[1..] == ZRem(z[1..], d);
    }
  }

  lemma {:induction false} RestoreInsert(z: ZSet<DelayItem>, e: Scored<DelayItem>)
    requires AllWellEncoded(z) && WellEncoded(e.member)
    ensures Restore(Insert(z, e)) == Insert(Restore(z), Scored(e.score, FromDelay(e.member)))
    ensures AllWellEncoded(Insert(z, e))
  {
    if |z| == 0 || e.score < z[0].score {
      assert ([e] + z)[1..] == z;
    } else {
      TailWellEncoded(z);
      RestoreInsert(z[1..], e);
      assert Restore(z)[1..] == Restore(z[1..]);
      assert Insert(z, e)[1..] == Insert(z[1..], e);
    }
  }

  lemma {:induction false} RestoreRange(z: ZSet<DelayItem>, max: int, count: nat)
    requires AllWellEncoded(z)
    ensures Restore(ZRange(z, max, count)) == ZRange(Restore(z), max, count)
    ensures AllWellEncoded(ZRange(z, max, count))
    decreases |z|
  {
    if |z| > 0 && count > 0 && z[0].score <= max {
      TailWellEncoded(z);
      RestoreRange(z[1..], max, count - 1);
      assert Restore(z)[1..] == Restore(z[1..]);
      assert ZRange(z, max, count)[1..] == ZRange(z[1..], max, count - 1);
    }
  }

  lemma {:induction false} RestoreAt(z: ZSet<DelayItem>, i: nat)
    requires i < |z|
    ensures |Restore(z)| == |z| && Restore(z)[i].member == FromDelay(z[i].member)
  {
    if i > 0 {
      RestoreAt(z[1..], i - 1);
    } else if |z| > 1 {
      RestoreAt(z[1..], 0);
    }
  }

  lemma ToDelayWellEncoded(m: Message)
    ensures WellEncoded(ToDelay(m)) && FromDelay(ToDelay(m)) == m
  {
    DelayRoundTrip(m);
  }

  function ViewStreams(streams: map<string, seq<Fields>>): map<string, seq<Message>> {
    map s | s in streams :: DecodeAll(s, streams[s])
  }

  function Stored(streams: map<string, seq<Fields>>, stream: string): seq<Fields> {
    if stream in streams then streams[stream] else []
  }

  lemma ViewAppend(streams: map<string, seq<Fields>>, stream: string, f: Fields)
    ensures ViewStreams(streams[stream := Stored(streams, stream) + [f]]) ==
            ViewStreams(streams)[stream := DecodeAll(stream, Stored(streams, stream)) + [Decode(stream, f)]]
  {
    DecodeAppend(stream, Stored(streams, stream), f);
  }

  lemma StoredEntry(streams: map<string, seq<Fields>>, stream: string, id: nat)
    requires id < |Entries(Broker(ViewStreams(streams), map[], []), stream)|
    ensures id < |Stored(streams, stream)|
    ensures Decode(stream, Stored(streams, stream)[id]) == Entries(Broker(ViewStreams(streams), map[], []), stream)[id]
  {
    DecodeLength(stream, Stored(streams, stream));
    DecodeAt(stream, Stored(streams, stream), id);
  }

  // ---------------------------------------------------------------- the server

  class Redis {
    var streams: map<string, seq<Fields>>
    var groups: map<GroupKey, Group>
    var delay: ZSet<DelayItem>

    ghost predicate Valid()
      reads this
    {
      AllWellEncoded(delay)
    }

    ghost function View(): Broker
      reads this
    {
      Broker(ViewStreams(streams), groups, Restore(delay))
    }

    constructor ()
      ensures Valid() && View() == Broker(map[], map[], [])
    {
      streams, groups, delay := map[], map[], [];
      new;
      assert ViewStreams(streams) == map[];
    }

    method CreateGroup(key: GroupKey)
      requires Valid()
      modifies this
      ensures Valid()
      ensures View() == old(View()).(groups := if key in old(groups) then old(groups) else old(groups)[key := Group(0, {})])
    {
      if key !in groups {
        groups := groups[key := Group(0, {})];
      }
    }

    /** publishStream: encode the message and XADD it. */
    method PublishStream(m: Message)
      requires Valid()
      modifies this
      ensures Valid() && View() == XAdd(old(View()), m)
    {
      var stream := RedisStream(m.topic);
      var fields := Messages.PublishFields(m);
      ViewAppend(streams, stream, fields);
      assert Decode(stream, fields) == Wire(m);
      WireRoundTrip(m);
      streams := streams[stream := Stored(streams, stream) + [fields]];
    }

    /** Whether a read would return an entry. */
    method CanRead(key: GroupKey) returns (unread: bool)
      requires Valid()
      ensures unread == HasUnread(View(), key)
    {
      DecodeLength(key.stream, Stored(streams, key.stream));
      unread := key in groups && groups[key].cursor < |Stored(streams, key.stream)|;
    }

    method ReadGroup(key: GroupKey) returns (id: nat, fields: Fields)
      requires Valid() && HasUnread(View(), key)
      modifies this
      ensures Valid() && View() == XReadGroup(old(View()), key)
      ensures id == old(groups)[key].cursor < |Entries(View(), key.stream)|
      ensures Decode(key.stream, fields) == Entries(View(), key.stream)[id]
    {
      assert Entries(View(), key.stream) == Entries(Broker(ViewStreams(streams), map[], []), key.stream);
      var g := groups[key];
      id := g.cursor;
      StoredEntry(streams, key.stream, id);
      fields := Stored(streams, key.stream)[id];
      groups := groups[key := Group(g.cursor + 1, g.pending + {g.cursor})];
    }

    method Ack(key: GroupKey, id: nat)
      requires Valid()
      modifies this
      ensures Valid() && View() == XAck(old(View()), key, id)
    {
      if key in groups {
        groups := groups[key := groups[key].(pending := groups[key].pending - {id})];
      }
    }

    /** PublishDelay at time `now`: encode the item and ZADD it under its due time in milliseconds.
        Everything else, other delayed messages included, stays as it is. */
    method PublishDelay(m: Message, now: int, wait: int)
      requires Valid()
      modifies this
      ensures Valid() && View() == ZAddItem(old(View()), m, UnixMilli(now + wait))
      ensures View().streams == old(View()).streams && View().groups == old(View()).groups
      ensures Scored((now + wait) / 1_000_000, m) in View().delay
      ensures ZRem(View().delay, m) == ZRem(old(View()).delay, m)
    {
      ZAddThenRem(View().delay, m, UnixMilli(now + wait));
      var item := ToDelay(m);
      ToDelayWellEncoded(m);
      RestoreRem(delay, item);
      RestoreInsert(ZRem(delay, item), Scored(UnixMilli(now + wait), item));
      delay := ZAdd(delay, item, UnixMilli(now + wait));
    }

    method RemoveItem(item: DelayItem)
      requires Valid() && WellEncoded(item)
      modifies this
      ensures Valid() && View() == ZRemItem(old(View()), FromDelay(item))
    {
      RestoreRem(delay, item);
      delay := ZRem(delay, item);
    }
  }

  // ---------------------------------------------------------------- one entry

  /** What the world decides while one entry is handled. */
  datatype Outcome = Outcome(handlerOk: bool, now: int, zaddApplied: bool, zaddReported: bool, ackApplied: bool)

  function AckIf(b: Broker, key: GroupKey, id: nat, o: Outcome): Broker {
    if o.ackApplied then XAck(b, key, id) else b
  }

  /** The time at which the retry of a message is due, in milliseconds. */
  function RetryDue(retry: Retry, m: Message, now: int): int
    requires retry.base > 0 && retry.factor > 0.0
  {
    UnixMilli(now + Delay(retry, Next(m) - 1))
  }

  /** The broker after one entry was handled to the end. */
  function AfterEntry(b: Broker, c: Consumer, retry: Retry, m: Message, id: nat, o: Outcome): Broker
    requires retry.base > 0 && retry.factor > 0.0
  {
    if !Accepts(c, m) || o.handlerOk then AckIf(b, KeyOf(c), id, o)
    else AfterFailure(b, KeyOf(c), retry, m, id, o)
  }

  method AckWith(redis: Redis, key: GroupKey, id: nat, o: Outcome)
    requires redis.Valid()
    modifies redis
    ensures redis.Valid() && redis.View() == AckIf(old(redis.View()), key, id, o)
  {
    if o.ackApplied {
      redis.Ack(key, id);
    }
  }

  /** The goroutine behind one entry: decode, filter, run the handler, and acknowledge, retry or
      give up. */
  method HandleEntry(redis: Redis, c: Consumer, retry: Retry, id: nat, fields: Fields, o: Outcome)
    requires redis.Valid() && retry.base > 0 && retry.factor > 0.0
    modifies redis
    ensures redis.Valid()
    ensures redis.View() == AfterEntry(old(redis.View()), c, retry, Decode(KeyOf(c).stream, fields), id, o)
  {
    var key := KeyOf(c);
    var msg := DecodeXMessage(key.stream, fields);
    if !MatchTopic(c.pattern, msg.topic) {
      AckWith(redis, key, id, o);
      return;
    }
    if o.handlerOk {
      AckWith(redis, key, id, o);
    } else {
      RetryOrGiveUp(redis, key, retry, msg, id, o);
    }
  }

  function AfterFailure(b: Broker, key: GroupKey, retry: Retry, m: Message, id: nat, o: Outcome): Broker
    requires retry.base > 0 && retry.factor > 0.0
  {
    if Next(m) > retry.maxRetries then AckIf(b, key, id, o)
    else
      var b1 := if o.zaddApplied then ZAddItem(b, RetryCopy(m), RetryDue(retry, m, o.now)) else b;
      if o.zaddReported then AckIf(b1, key, id, o) else b1
  }

  method PutOffCopy(redis: Redis, retry: Retry, msg: Message, nextAttempt: int, o: Outcome)
    requires redis.Valid() && retry.base > 0 && retry.factor > 0.0 && nextAttempt == Next(msg)
    modifies redis
    ensures redis.Valid()
    ensures redis.View() ==
            if o.zaddApplied then ZAddItem(old(redis.View()), RetryCopy(msg), RetryDue(retry, msg, o.now)) else old(redis.View())
  {
    var copy := MakeCopy(msg, nextAttempt);
    var wait := Delay(retry, nextAttempt - 1);
    if o.zaddApplied {
      redis.PublishDelay(copy, o.now, wait);
    }
  }

  method MakeCopy(msg: Message, nextAttempt: int) returns (copy: Message)
    ensures copy == msg.(headers := msg.headers["x-retry-count" := Itoa(nextAttempt)])
  {
    var h := CopyHeaders(msg.headers);
    h := h[RETRY_COUNT := Itoa(nextAttempt)];
    copy := Message(msg.topic, msg.key, msg.body, h);
  }

  /** After a failed handler: the retry copy is put off before the entry is acknowledged, and if
      that fails the entry stays pending. */
  method RetryOrGiveUp(redis: Redis, key: GroupKey, retry: Retry, msg: Message, id: nat, o: Outcome)
    requires redis.Valid() && retry.base > 0 && retry.factor > 0.0
    modifies redis
    ensures redis.Valid() && redis.View() == AfterFailure(old(redis.View()), key, retry, msg, id, o)
  {
    var attempt := ReadAttempt(msg.headers);
    var nextAttempt := NextAttempt(attempt);
    if nextAttempt <= retry.maxRetries {
      PutOffCopy(redis, retry, msg, nextAttempt, o);
      if o.zaddReported {
        AckWith(redis, key, id, o);
        return;
      }
    }
    if nextAttempt > retry.maxRetries {
      AckWith(redis, key, id, o);
    }
  }

  // ---------------------------------------------------------------- what becomes of an entry

  /** Streams, other groups and all cursors stay as they are; of its own group's pending entries
      only this one can go. */
  ghost predicate OnlyPending(b: Broker, b': Broker, c: Consumer, id: nat, acked: bool) {
    && b'.streams == b.streams
    && b'.groups.Keys == b.groups.Keys
    && forall key | key in b.groups ::
         && b'.groups[key].cursor == b.groups[key].cursor
         && b'.groups[key].pending ==
              if acked && key.stream == RedisStream(c.pattern) && key.name == (if c.group == "" then "default" else c.group)
              then b.groups[key].pending - {id} else b.groups[key].pending
  }

  lemma AckMeaning(b: Broker, c: Consumer, id: nat, o: Outcome)
    ensures OnlyPending(b, AckIf(b, KeyOf(c), id, o), c, id, o.ackApplied)
    ensures AckIf(b, KeyOf(c), id, o).delay == b.delay
  {
  }

  /** A mismatch and a success are acknowledged, and nothing is put off. */
  lemma DoneEntry(b: Broker, c: Consumer, retry: Retry, m: Message, id: nat, o: Outcome)
    requires retry.base > 0 && retry.factor > 0.0
    requires !MatchTopic(c.pattern, m.topic) || o.handlerOk
    ensures
      var b' := AfterEntry(b, c, retry, m, id, o);
      OnlyPending(b, b', c, id, o.ackApplied) && b'.delay == b.delay
  {
    AckMeaning(b, c, id, o);
  }

  /** So is a failure when as many tries as allowed are behind the message. */
  lemma ExhaustedEntry(b: Broker, c: Consumer, retry: Retry, m: Message, id: nat, o: Outcome)
    requires retry.base > 0 && retry.factor > 0.0
    requires MatchTopic(c.pattern, m.topic) && !o.handlerOk && retry.maxRetries <= Attempt(m.headers) < MAX_INT
    ensures
      var b' := AfterEntry(b, c, retry, m, id, o);
      OnlyPending(b, b', c, id, o.ackApplied) && b'.delay == b.delay
  {
    AckMeaning(b, c, id, o);
  }

  /** Any other failure puts off a copy, with its count one up, until the delay of the policy has
      passed; the entry is acknowledged only if that is confirmed, and stays pending otherwise. */
  lemma FailedEntry(b: Broker, c: Consumer, retry: Retry, m: Message, id: nat, o: Outcome)
    requires retry.base > 0 && retry.factor > 0.0
    requires MatchTopic(c.pattern, m.topic) && !o.handlerOk && Attempt(m.headers) < retry.maxRetries <= MAX_INT
    ensures
      var b' := AfterEntry(b, c, retry, m, id, o);
      var attempt := Attempt(m.headers);
      var copy := m.(headers := m.headers["x-retry-count" := Itoa(attempt + 1)]);
      && OnlyPending(b, b', c, id, o.ackApplied && o.zaddReported)
      && ZRem(b'.delay, copy) == ZRem(b.delay, copy)
      && (o.zaddApplied ==>
            NextBackoff(retry, attempt).Some? &&
            Scored((o.now + NextBackoff(retry, attempt).value) / 1_000_000, copy) in b'.delay)
      && (!o.zaddApplied ==> b'.delay == b.delay)
  {
    var due := RetryDue(retry, m, o.now);
    ZAddThenRem(b.delay, RetryCopy(m), due);
    AckMeaning(b, c, id, o);
    AckMeaning(ZAddItem(b, RetryCopy(m), due), c, id, o);
  }

  /** A message that starts without a count, seen after n failures, is put off if n is below
      `maxRetries`, and given up otherwise. */
  lemma PutOffExactly(b: Broker, c: Consumer, retry: Retry, m: Message, n: nat, seen: Message, id: nat, o: Outcome)
    requires retry.base > 0 && retry.factor > 0.0 && Countless(m.headers) && n < MAX_INT && retry.maxRetries <= MAX_INT
    requires MatchTopic(c.pattern, m.topic) && !o.handlerOk && o.zaddApplied && o.zaddReported
    requires Tried(m, n, seen)
    ensures
      var b' := AfterEntry(b, c, retry, seen, id, o);
      && OnlyPending(b, b', c, id, o.ackApplied)
      && (n >= retry.maxRetries ==> b'.delay == b.delay)
      && (n < retry.maxRetries ==>
            var copy := m.(headers := (m.headers - {""})["x-retry-count" := Itoa(n + 1)]);
            Scored((o.now + Delay(retry, n)) / 1_000_000, copy) in b'.delay)
  {
    if n < retry.maxRetries {
      FailedEntry(b, c, retry, seen, id, o);
      NextCopy(m, n, seen, Itoa(n + 1));
    } else {
      ExhaustedEntry(b, c, retry, seen, id, o);
    }
  }

  /** The steps of the machine that one handling of an entry amounts to. */
  function EntrySteps(cfg: Config, retry: Retry, c: Consumer, m: Message, t: nat, o: Outcome): seq<Step>
    requires retry.base > 0 && retry.factor > 0.0
  {
    [Check(t)] + AfterCheck(cfg, retry, c, m, t, o)
  }

  function AfterCheck(cfg: Config, retry: Retry, c: Consumer, m: Message, t: nat, o: Outcome): seq<Step>
    requires retry.base > 0 && retry.factor > 0.0
  {
    if !Accepts(c, m) then [Ack(t, o.ackApplied)]
    else if o.handlerOk || Next(m) > cfg.maxRetries then [Finish(t, o.handlerOk), Ack(t, o.ackApplied)]
    else
      [Finish(t, false), Reschedule(t, RetryDue(retry, m, o.now), o.zaddApplied, o.zaddReported)] +
      if o.zaddReported then [Ack(t, o.ackApplied)] else []
  }

  lemma AckRun(cfg: Config, s: State, t: nat, o: Outcome)
    requires ValidTask(cfg, s, t) && s.tasks[t].phase.Acking?
    ensures
      var steps := [Ack(t, o.ackApplied)];
      && Legal(cfg, s, steps)
      && Exec(cfg, s, steps).broker == AckIf(s.broker, KeyOf(cfg.consumers[s.tasks[t].consumer]), s.tasks[t].entry, o)
  {
    OneMoreStep(cfg, s, Ack(t, o.ackApplied), []);
    assert [Ack(t, o.ackApplied)] + [] == [Ack(t, o.ackApplied)];
  }

  lemma FinishRun(cfg: Config, s: State, t: nat, o: Outcome)
    requires ValidTask(cfg, s, t) && s.tasks[t].phase.Running?
    requires o.handlerOk || Next(MessageOf(cfg, s, t)) > cfg.maxRetries
    ensures
      var steps := [Finish(t, o.handlerOk), Ack(t, o.ackApplied)];
      && Legal(cfg, s, steps)
      && Exec(cfg, s, steps).broker == AckIf(s.broker, KeyOf(cfg.consumers[s.tasks[t].consumer]), s.tasks[t].entry, o)
  {
    AckRun(cfg, Apply(cfg, s, Finish(t, o.handlerOk)), t, o);
    OneMoreStep(cfg, s, Finish(t, o.handlerOk), [Ack(t, o.ackApplied)]);
    assert [Finish(t, o.handlerOk)] + [Ack(t, o.ackApplied)] == [Finish(t, o.handlerOk), Ack(t, o.ackApplied)];
  }

  lemma RetryRun(cfg: Config, s: State, t: nat, due: int, o: Outcome)
    requires ValidTask(cfg, s, t) && s.tasks[t].phase.Failing? && (o.zaddReported ==> o.zaddApplied)
    ensures
      var steps := [Reschedule(t, due, o.zaddApplied, o.zaddReported)] + if o.zaddReported then [Ack(t, o.ackApplied)] else [];
      var b1 := if o.zaddApplied then ZAddItem(s.broker, RetryCopy(MessageOf(cfg, s, t)), due) else s.broker;
      var key := KeyOf(cfg.consumers[s.tasks[t].consumer]);
      && Legal(cfg, s, steps)
      && Exec(cfg, s, steps).broker == if o.zaddReported then AckIf(b1, key, s.tasks[t].entry, o) else b1
  {
    var step := Reschedule(t, due, o.zaddApplied, o.zaddReported);
    var s1 := Apply(cfg, s, step);
    if o.zaddReported {
      AckRun(cfg, s1, t, o);
      OneMoreStep(cfg, s, step, [Ack(t, o.ackApplied)]);
    } else {
      OneMoreStep(cfg, s, step, []);
    }
  }

  lemma FailureRun(cfg: Config, s: State, t: nat, due: int, o: Outcome)
    requires ValidTask(cfg, s, t) && s.tasks[t].phase.Running? && (o.zaddReported ==> o.zaddApplied)
    requires Next(MessageOf(cfg, s, t)) <= cfg.maxRetries
    ensures
      var steps :=
        [Finish(t, false), Reschedule(t, due, o.zaddApplied, o.zaddReported)] +
        if o.zaddReported then [Ack(t, o.ackApplied)] else [];
      var b1 := if o.zaddApplied then ZAddItem(s.broker, RetryCopy(MessageOf(cfg, s, t)), due) else s.broker;
      var key := KeyOf(cfg.consumers[s.tasks[t].consumer]);
      && Legal(cfg, s, steps)
      && Exec(cfg, s, steps).broker == if o.zaddReported then AckIf(b1, key, s.tasks[t].entry, o) else b1
  {
    var s1 := Apply(cfg, s, Finish(t, false));
    assert ValidTask(cfg, s1, t) && MessageOf(cfg, s1, t) == MessageOf(cfg, s, t);
    RetryRun(cfg, s1, t, due, o);
    var rest := [Reschedule(t, due, o.zaddApplied, o.zaddReported)] + if o.zaddReported then [Ack(t, o.ackApplied)] else [];
    OneMoreStep(cfg, s, Finish(t, false), rest);
    assert [Finish(t, false)] + rest ==
           [Finish(t, false), Reschedule(t, due, o.zaddApplied, o.zaddReported)] +
           if o.zaddReported then [Ack(t, o.ackApplied)] else [];
  }

  /** Handling an entry without interruption is a run of the step machine, so everything proved
      of all runs holds of the code. */
  lemma HandlingIsARun(cfg: Config, retry: Retry, s: State, t: nat, o: Outcome)
    requires retry.base > 0 && retry.factor > 0.0 && retry.maxRetries == cfg.maxRetries
    requires ValidTask(cfg, s, t) && s.tasks[t].phase.Fetched? && (o.zaddReported ==> o.zaddApplied)
    ensures
      var c, m := cfg.consumers[s.tasks[t].consumer], MessageOf(cfg, s, t);
      var steps := EntrySteps(cfg, retry, c, m, t, o);
      && Legal(cfg, s, steps)
      && Exec(cfg, s, steps).broker == AfterEntry(s.broker, c, retry, m, s.tasks[t].entry, o)
  {
    var c, m := cfg.consumers[s.tasks[t].consumer], MessageOf(cfg, s, t);
    var s1 := Apply(cfg, s, Check(t));
    assert ValidTask(cfg, s1, t) && MessageOf(cfg, s1, t) == m;
    if !Accepts(c, m) {
      AckRun(cfg, s1, t, o);
    } else if o.handlerOk || Next(m) > cfg.maxRetries {
      FinishRun(cfg, s1, t, o);
    } else {
      FailureRun(cfg, s1, t, RetryDue(retry, m, o.now), o);
    }
    OneMoreStep(cfg, s, Check(t), AfterCheck(cfg, retry, c, m, t, o));
  }

  // ---------------------------------------------------------------- consuming

  /** Consume creates its group before it reads: once all consumers have started, every group they
      name is there, at the beginning of its stream unless it was there before. An empty server
      becomes the broker from which all runs begin. */
  method StartConsumers(redis: Redis, cfg: Config)
    requires redis.Valid()
    modifies redis
    ensures redis.Valid() && redis.View() == old(redis.View()).(groups := FirstGroups(cfg, |cfg.consumers|) + old(redis.groups))
    ensures old(redis.View()) == Broker(map[], map[], []) ==> redis.View() == Init(cfg).broker
  {
    ghost var before := redis.View();
    for i := 0 to |cfg.consumers|
      invariant redis.Valid() && redis.View() == before.(groups := FirstGroups(cfg, i) + before.groups)
    {
      OneMoreGroup(cfg, i);
      redis.CreateGroup(KeyOf(cfg.consumers[i]));
      AddedUnlessThere(FirstGroups(cfg, i), before.groups, KeyOf(cfg.consumers[i]), Group(0, {}));
    }
    assert cfg.consumers[..|cfg.consumers|] == cfg.consumers;
  }

  lemma AddedUnlessThere(first: map<GroupKey, Group>, there: map<GroupKey, Group>, key: GroupKey, g: Group)
    requires key in first ==> first[key] == g
    ensures first[key := g] + there == if key in first + there then first + there else (first + there)[key := g]
  {
    if key in first {
      assert first[key := g] == first;
    }
  }

  /** A group that is new on a stream reads it from its first entry on. */
  lemma NewGroupStartsAtFirst(b: Broker, c: Consumer)
    requires KeyOf(c) !in b.groups && |Entries(b, RedisStream(c.pattern))| > 0
    ensures
      var b' := b.(groups := map[KeyOf(c) := Group(0, {})] + b.groups);
      HasUnread(b', KeyOf(c)) && Front(b', c) == Entries(b, RedisStream(c.pattern))[0]
  {
  }

  lemma MoreKeys(cfg: Config, i: nat)
    requires i < |cfg.consumers|
    ensures Keys(Config(cfg.consumers[..i + 1], cfg.maxRetries)) ==
            Keys(Config(cfg.consumers[..i], cfg.maxRetries)) + {KeyOf(cfg.consumers[i])}
  {
    var cs := cfg.consumers;
    assert cs[..i + 1] == cs[..i] + [cs[i]];
    forall key ensures key in Keys(Config(cs[..i + 1], cfg.maxRetries)) <==>
                       key in Keys(Config(cs[..i], cfg.maxRetries)) || key == KeyOf(cs[i])
    {
      assert cs[i] in cs[..i + 1];
      assert forall c :: c in cs[..i + 1] <==> c in cs[..i] || c == cs[i];
    }
  }

  function FirstGroups(cfg: Config, i: nat): map<GroupKey, Group>
    requires i <= |cfg.consumers|
  {
    Init(Config(cfg.consumers[..i], cfg.maxRetries)).broker.groups
  }

  lemma OneMoreGroup(cfg: Config, i: nat)
    requires i < |cfg.consumers|
    ensures
      var key, groups := KeyOf(cfg.consumers[i]), FirstGroups(cfg, i);
      FirstGroups(cfg, i + 1) == groups[key := Group(0, {})] && (key in groups ==> groups[key] == Group(0, {}))
  {
    MoreKeys(cfg, i);
  }

  /** The entry that a consumer reads next. */
  function Front(b: Broker, c: Consumer): Message
    requires HasUnread(b, KeyOf(c))
  {
    Entries(b, KeyOf(c).stream)[b.groups[KeyOf(c)].cursor]
  }

  function AfterTurn(b: Broker, c: Consumer, retry: Retry, o: Outcome): Broker
    requires retry.base > 0 && retry.factor > 0.0
  {
    var key := KeyOf(c);
    if !HasUnread(b, key) then b
    else AfterEntry(XReadGroup(b, key), c, retry, Front(b, c), b.groups[key].cursor, o)
  }

  /** One turn of the consume loop that reads one new entry, if there is one, and handles it. */
  method ConsumeTurn(redis: Redis, c: Consumer, retry: Retry, o: Outcome)
    requires redis.Valid() && retry.base > 0 && retry.factor > 0.0
    modifies redis
    ensures redis.Valid() && redis.View() == AfterTurn(old(redis.View()), c, retry, o)
  {
    var key := KeyOf(c);
    var unread := redis.CanRead(key);
    if unread {
      var id, fields := redis.ReadGroup(key);
      HandleEntry(redis, c, retry, id, fields, o);
    }
  }

  /** A turn is a run of the step machine: the read, and then the handling of the entry. */
  lemma TurnIsARun(cfg: Config, retry: Retry, s: State, c: nat, o: Outcome)
    requires retry.base > 0 && retry.factor > 0.0 && retry.maxRetries == cfg.maxRetries
    requires Enabled(cfg, s, Read(c)) && (o.zaddReported ==> o.zaddApplied)
    ensures
      var consumer := cfg.consumers[c];
      var steps := [Read(c)] + EntrySteps(cfg, retry, consumer, Front(s.broker, consumer), s.nextTask, o);
      Legal(cfg, s, steps) && Exec(cfg, s, steps).broker == AfterTurn(s.broker, consumer, retry, o)
  {
    var consumer := cfg.consumers[c];
    var s1 := Apply(cfg, s, Read(c));
    assert s1.tasks[s.nextTask] == Task(c, s.broker.groups[KeyOf(consumer)].cursor, Fetched);
    assert ValidTask(cfg, s1, s.nextTask) && MessageOf(cfg, s1, s.nextTask) == Front(s.broker, consumer);
    HandlingIsARun(cfg, retry, s1, s.nextTask, o);
    OneMoreStep(cfg, s, Read(c), EntrySteps(cfg, retry, consumer, Front(s.broker, consumer), s.nextTask, o));
  }

  // ---------------------------------------------------------------- one scheduler round

  /** What fails during a round: the range read, the XADD of some items, the ZREM of some. */
  datatype Faults = Faults(scan: bool, sends: set<nat>, removals: set<nat>)

  const NO_FAULTS := Faults(false, {}, {})

  function AfterSend(b: Broker, m: Message, faults: Faults, i: nat): Broker {
    if i in faults.sends then b else XAdd(b, m)
  }

  function AfterRemoval(b: Broker, m: Message, faults: Faults, i: nat): Broker {
    if i in faults.removals then b else ZRemItem(b, m)
  }

  /** Each item of a batch is added to its stream and removed, unless that command fails. */
  function AfterItems(b: Broker, batch: ZSet<Message>, faults: Faults, i: nat): Broker
    decreases |batch| - i
  {
    if i >= |batch| then b
    else
      var m := batch[i].member;
      AfterItems(AfterRemoval(AfterSend(b, m, faults, i), m, faults, i), batch, faults, i + 1)
  }

  function AfterRound(b: Broker, now: int, faults: Faults): Broker {
    if faults.scan then b else AfterItems(b, ZRange(b.delay, UnixMilli(now), BATCH), faults, 0)
  }

  /** One wake-up of the delay scheduler at time `now`. */
  method SchedulerRound(redis: Redis, now: int, faults: Faults)
    requires redis.Valid()
    modifies redis
    ensures redis.Valid() && redis.View() == AfterRound(old(redis.View()), now, faults)
  {
    if faults.scan {
      return;
    }
    var items := ZRange(redis.delay, UnixMilli(now), BATCH);
    ghost var batch := ZRange(Restore(redis.delay), UnixMilli(now), BATCH);
    RestoreRange(redis.delay, UnixMilli(now), BATCH);
    ghost var result := AfterItems(redis.View(), batch, faults, 0);
    if |items| > 0 {
      RestoreAt(items, 0);
    }
    for i := 0 to |items|
      invariant redis.Valid() && |items| == |batch|
      invariant AfterItems(redis.View(), batch, faults, i) == result
    {
      RestoreAt(items, i);
      assert items[i] in items;
      TransferItem(redis, items[i].member, faults, i);
    }
  }

  method TransferItem(redis: Redis, item: DelayItem, faults: Faults, i: nat)
    requires redis.Valid() && WellEncoded(item)
    modifies redis
    ensures redis.Valid()
    ensures
      var m := FromDelay(item);
      redis.View() == AfterRemoval(AfterSend(old(redis.View()), m, faults, i), m, faults, i)
  {
    if i !in faults.sends {
      redis.PublishStream(FromDelay(item));
    }
    if i !in faults.removals {
      redis.RemoveItem(item);
    }
  }

  /** What a batch contributes to one stream, in order. */
  function Contribution(batch: ZSet<Message>, stream: string): seq<Message> {
    if |batch| == 0 then []
    else
      (if RedisStream(batch[0].member.topic) == stream then [Carried(batch[0].member)] else []) +
      Contribution(batch[1..], stream)
  }

  lemma OneItem(b: Broker, m: Message, stream: string)
    ensures
      var b1 := ZRemItem(XAdd(b, m), m);
      && b1.groups == b.groups && b1.delay == ZRem(b.delay, m)
      && Entries(b1, stream) == Entries(b, stream) + if RedisStream(m.topic) == stream then [Carried(m)] else []
  {
  }

  lemma {:induction false} ItemsReachStreams(b: Broker, batch: ZSet<Message>, i: nat, stream: string)
    requires i <= |batch|
    ensures
      var b' := AfterItems(b, batch, NO_FAULTS, i);
      && b'.groups == b.groups
      && b'.delay == RemoveAll(b.delay, batch[i..])
      && Entries(b', stream) == Entries(b, stream) + Contribution(batch[i..], stream)
    decreases |batch| - i
  {
    if i < |batch| {
      var m := batch[i].member;
      OneItem(b, m, stream);
      ItemsReachStreams(ZRemItem(XAdd(b, m), m), batch, i + 1, stream);
      assert batch[i..][1..] == batch[i + 1..];
      Regroup(Entries(b, stream), if RedisStream(m.topic) == stream then [Carried(m)] else [],
              Contribution(batch[i + 1..], stream));
    }
  }

  lemma Regroup(a: seq<Message>, b: seq<Message>, c: seq<Message>)
    ensures a + b + c == a + (b + c)
  {
  }

  function Payloads(batch: ZSet<Message>): seq<Message> {
    if |batch| == 0 then [] else [batch[0].member] + Payloads(batch[1..])
  }

  function ItemSteps(p: nat, batch: ZSet<Message>, faults: Faults, i: nat): seq<Step>
    decreases |batch| - i
  {
    if i >= |batch| then []
    else [Transfer(p, i !in faults.sends)] + ([Remove(p, i !in faults.removals)] + ItemSteps(p, batch, faults, i + 1))
  }

  /** Working through a batch without interruption is a run of the step machine. */
  lemma {:induction false} BatchIsARun(cfg: Config, s: State, p: nat, batch: ZSet<Message>, faults: Faults, i: nat)
    requires i <= |batch| && p in s.passes && s.passes[p] == Pass(Payloads(batch[i..]), false)
    ensures
      var steps := ItemSteps(p, batch, faults, i);
      Legal(cfg, s, steps) && Exec(cfg, s, steps).broker == AfterItems(s.broker, batch, faults, i)
    decreases |batch| - i
  {
    if i < |batch| {
      assert batch[i..][1..] == batch[i + 1..];
      var send, remove := Transfer(p, i !in faults.sends), Remove(p, i !in faults.removals);
      var s1 := Apply(cfg, s, send);
      var s2 := Apply(cfg, s1, remove);
      assert Payloads(batch[i..])[1..] == Payloads(batch[i + 1..]);
      BatchIsARun(cfg, s2, p, batch, faults, i + 1);
      OneMoreStep(cfg, s1, remove, ItemSteps(p, batch, faults, i + 1));
      OneMoreStep(cfg, s, send, [remove] + ItemSteps(p, batch, faults, i + 1));
    }
  }

  /** When no command fails, a round moves the front of the delay set, due items in score order
      and at most 100 of them, to the ends of their streams, and nothing else changes. */
  lemma RoundMovesFront(b: Broker, now: int, stream: string)
    requires Valid(b.delay)
    ensures
      var batch := ZRange(b.delay, UnixMilli(now), BATCH);
      var b' := AfterRound(b, now, NO_FAULTS);
      && b'.groups == b.groups
      && batch + b'.delay == b.delay
      && (forall i, j | 0 <= i < j < |batch| :: batch[i].score <= batch[j].score)
      && (forall i | 0 <= i < |batch| :: batch[i].score <= UnixMilli(now))
      && (|batch| < BATCH ==> forall e | e in b'.delay :: e.score > UnixMilli(now))
      && Entries(b', stream) == Entries(b, stream) + Contribution(batch, stream)
  {
    var batch := ZRange(b.delay, UnixMilli(now), BATCH);
    RoundTakesFront(b.delay, now);
    DueBound(b.delay, UnixMilli(now));
    ItemsReachStreams(b, batch, 0, stream);
    assert batch[0..] == batch;
    assert forall i | 0 <= i < |batch| :: b.delay[i] == batch[i];
    if |batch| < BATCH {
      RestNotDue(b.delay, UnixMilli(now));
      assert b.delay[|batch|..] == Round(b.delay, now).1;
    }
  }

  lemma RestNotDue(z: ZSet<Message>, max: int)
    requires Valid(z)
    ensures Due(z, max) <= |z|
    ensures forall e | e in z[Due(z, max)..] :: e.score > max
  {
    DueBound(z, max);
    var n := Due(z, max);
    forall e | e in z[n..] ensures e.score > max {
      var i :| 0 <= i < |z[n..]| && z[n..][i] == e;
      if i > 0 {
        ValidMeaning(z, n, n + i);
      }
    }
  }
}
