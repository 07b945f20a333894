/** Who reads what (redis_adapter.go): consumers of one stream and one group name share its entries,
    and every group gets all of them. */
module Groups {
  import Words
  import opened Topics
  import opened Routing
  import opened Messages
  import opened Delivery
  import opened Events

  /** A group name as the program reads it. */
  function Named(group: string): string {
    if group == "" then "default" else group
  }

  predicate ReadsFor(cfg: Config, step: Step, stream: string, name: string) {
    && step.Read? && ValidConsumer(cfg, step.c)
    && RedisStream(cfg.consumers[step.c].pattern) == stream && Named(cfg.consumers[step.c].group) == name
  }

  /** The entries that the consumers of a stream and a group name are given during a run. */
  function ReadDuring(cfg: Config, s: State, steps: seq<Step>, stream: string, name: string): seq<nat>
    requires Legal(cfg, s, steps)
    decreases |steps|
  {
    if |steps| == 0 then []
    else
      var s' := Apply(cfg, s, steps[0]);
      (if ReadsFor(cfg, steps[0], stream, name) && s.nextTask in s'.tasks then [s'.tasks[s.nextTask].entry] else []) +
      ReadDuring(cfg, s', steps[1..], stream, name)
  }

  function Cursor(s: State, key: GroupKey): nat {
    if key in s.broker.groups then s.broker.groups[key].cursor else 0
  }

  predicate CountUp(ids: seq<nat>, from: nat) {
    forall i | 0 <= i < |ids| :: ids[i] == from + i
  }

  lemma ReadMovesCursor(cfg: Config, s: State, step: Step, stream: string, name: string)
    requires Enabled(cfg, s, step)
    ensures
      var s', key := Apply(cfg, s, step), GroupKey(stream, name);
      if ReadsFor(cfg, step, stream, name)
      then s.nextTask in s'.tasks && s'.tasks[s.nextTask].entry == Cursor(s, key) && Cursor(s', key) == Cursor(s, key) + 1
      else Cursor(s', key) == Cursor(s, key)
  {
  }

  lemma CountUpFrom(from: nat, ids: seq<nat>)
    requires CountUp(ids, from + 1)
    ensures CountUp([from] + ids, from)
  {
  }

  lemma {:induction false} ReadsFollowCursor(cfg: Config, s: State, steps: seq<Step>, stream: string, name: string)
    requires Legal(cfg, s, steps)
    ensures
      var ids, key := ReadDuring(cfg, s, steps, stream, name), GroupKey(stream, name);
      CountUp(ids, Cursor(s, key)) && Cursor(Exec(cfg, s, steps), key) == Cursor(s, key) + |ids|
    decreases |steps|
  {
    if |steps| > 0 {
      var s' := Apply(cfg, s, steps[0]);
      ReadMovesCursor(cfg, s, steps[0], stream, name);
      ReadsFollowCursor(cfg, s', steps[1..], stream, name);
      if ReadsFor(cfg, steps[0], stream, name) {
        CountUpFrom(Cursor(s, GroupKey(stream, name)), ReadDuring(cfg, s', steps[1..], stream, name));
      }
    }
  }

  lemma WhatReadGives(cfg: Config, s: State, c: nat)
    requires ValidConsumer(cfg, c)
    requires GroupInv(s, GroupKey(RedisStream(cfg.consumers[c].pattern), Named(cfg.consumers[c].group)))
    ensures
      var stream := RedisStream(cfg.consumers[c].pattern);
      var cursor := Cursor(s, GroupKey(stream, Named(cfg.consumers[c].group)));
      && cursor <= |Entries(s.broker, stream)|
      && (Enabled(cfg, s, Read(c)) <==> cursor < |Entries(s.broker, stream)|)
      && (Enabled(cfg, s, Read(c)) ==> Apply(cfg, s, Read(c)).tasks == s.tasks[s.nextTask := Task(c, cursor, Fetched)])
  {
  }

  lemma GroupInvEver(cfg: Config, steps: seq<Step>, c: nat)
    requires Legal(cfg, Init(cfg), steps) && ValidConsumer(cfg, c)
    ensures GroupInv(Exec(cfg, Init(cfg), steps), GroupKey(RedisStream(cfg.consumers[c].pattern), Named(cfg.consumers[c].group)))
    ensures Cursor(Init(cfg), GroupKey(RedisStream(cfg.consumers[c].pattern), Named(cfg.consumers[c].group))) == 0
  {
    InitInv(cfg);
    RunInv(cfg, Init(cfg), steps);
    KeyListed(cfg, c);
  }

  /** In every run, the consumers that share stream and group name are given the entries of the
      stream one by one from the first on, each exactly once whoever asks, and independently of
      all other groups; and they can go on until they have had all. */
  lemma EachGroupReadsAll(cfg: Config, steps: seq<Step>, c: nat)
    requires Legal(cfg, Init(cfg), steps) && ValidConsumer(cfg, c)
    ensures
      var s, stream := Exec(cfg, Init(cfg), steps), RedisStream(cfg.consumers[c].pattern);
      var ids := ReadDuring(cfg, Init(cfg), steps, stream, Named(cfg.consumers[c].group));
      && CountUp(ids, 0) && |ids| <= |Entries(s.broker, stream)|
      && (Enabled(cfg, s, Read(c)) <==> |ids| < |Entries(s.broker, stream)|)
      && (Enabled(cfg, s, Read(c)) ==> Apply(cfg, s, Read(c)).tasks == s.tasks[s.nextTask := Task(c, |ids|, Fetched)])
  {
    var consumer := cfg.consumers[c];
    ReadsFollowCursor(cfg, Init(cfg), steps, RedisStream(consumer.pattern), Named(consumer.group));
    GroupInvEver(cfg, steps, c);
    WhatReadGives(cfg, Exec(cfg, Init(cfg), steps), c);
  }

  // ---------------------------------------------------------------- one message, two consumers

  lemma PublishedOne(cfg: Config, m: Message, stream: string)
    ensures
      var s := Apply(cfg, Init(cfg), Publish(m));
      Entries(s.broker, stream) == (if RedisStream(m.topic) == stream then [Carried(m)] else []) && s.nextTask == 0
  {
  }

  lemma FirstRead(cfg: Config, m: Message, c: nat)
    requires ValidConsumer(cfg, c) && RedisStream(cfg.consumers[c].pattern) == RedisStream(m.topic)
    ensures
      var s := Apply(cfg, Init(cfg), Publish(m));
      && Enabled(cfg, s, Read(c))
      && Apply(cfg, s, Read(c)).tasks == map[0 := Task(c, 0, Fetched)]
  {
    KeyListed(cfg, c);
    PublishedOne(cfg, m, RedisStream(m.topic));
  }

  /** A consumer has fetched `m` for its handler, which starts if the pattern matches. */
  ghost predicate HasFetched(cfg: Config, s: State, t: nat, c: nat, m: Message) {
    && ValidTask(cfg, s, t) && s.tasks[t].consumer == c && s.tasks[t].phase == Fetched
    && MessageOf(cfg, s, t) == Carried(m)
    && (Apply(cfg, s, Check(t)).tasks[t].phase == Running <==> MatchTopic(cfg.consumers[c].pattern, m.topic))
  }

  lemma Fetches(cfg: Config, s: State, t: nat, c: nat, id: nat, m: Message)
    requires ValidConsumer(cfg, c) && t in s.tasks && s.tasks[t] == Task(c, id, Fetched)
    requires id < |Entries(s.broker, RedisStream(cfg.consumers[c].pattern))|
    requires Entries(s.broker, RedisStream(cfg.consumers[c].pattern))[id] == Carried(m)
    ensures HasFetched(cfg, s, t, c, m)
  {
  }

  lemma ThreeSteps(cfg: Config, s: State, one: Step, two: Step, three: Step)
    requires Enabled(cfg, s, one) && Enabled(cfg, Apply(cfg, s, one), two)
    requires Enabled(cfg, Apply(cfg, Apply(cfg, s, one), two), three)
    ensures Legal(cfg, s, [one, two, three])
    ensures Exec(cfg, s, [one, two, three]) == Apply(cfg, Apply(cfg, Apply(cfg, s, one), two), three)
  {
    TwoSteps(cfg, Apply(cfg, s, one), two, three);
    OneMoreStep(cfg, s, one, [two, three]);
    assert [one] + [two, three] == [one, two, three];
  }

  lemma SecondRead(cfg: Config, m: Message, c: nat, d: nat)
    requires ValidConsumer(cfg, c) && ValidConsumer(cfg, d)
    requires RedisStream(cfg.consumers[c].pattern) == RedisStream(m.topic) == RedisStream(cfg.consumers[d].pattern)
    requires Named(cfg.consumers[c].group) != Named(cfg.consumers[d].group)
    ensures
      var s1 := Apply(cfg, Init(cfg), Publish(m));
      && Enabled(cfg, s1, Read(c))
      && Enabled(cfg, Apply(cfg, s1, Read(c)), Read(d))
      && var s3 := Apply(cfg, Apply(cfg, s1, Read(c)), Read(d));
         && s3.tasks == map[0 := Task(c, 0, Fetched), 1 := Task(d, 0, Fetched)]
         && s3.broker.streams == s1.broker.streams
  {
    FirstRead(cfg, m, c);
    FirstRead(cfg, m, d);
  }

  /** Consumers of one stream under different group names both get a published message. */
  lemma OtherGroupReadsToo(cfg: Config, m: Message, c: nat, d: nat)
    requires ValidConsumer(cfg, c) && ValidConsumer(cfg, d)
    requires RedisStream(cfg.consumers[c].pattern) == RedisStream(m.topic) == RedisStream(cfg.consumers[d].pattern)
    requires Named(cfg.consumers[c].group) != Named(cfg.consumers[d].group)
    ensures
      var steps := [Publish(m), Read(c), Read(d)];
      && Legal(cfg, Init(cfg), steps)
      && HasFetched(cfg, Exec(cfg, Init(cfg), steps), 0, c, m)
      && HasFetched(cfg, Exec(cfg, Init(cfg), steps), 1, d, m)
  {
    SecondRead(cfg, m, c, d);
    PublishedOne(cfg, m, RedisStream(m.topic));
    ThreeSteps(cfg, Init(cfg), Publish(m), Read(c), Read(d));
    var s3 := Exec(cfg, Init(cfg), [Publish(m), Read(c), Read(d)]);
    assert Entries(s3.broker, RedisStream(m.topic)) == [Carried(m)];
    Fetches(cfg, s3, 0, c, 0, m);
    Fetches(cfg, s3, 1, d, 0, m);
  }

  /** Consumers of one stream under the same group name share it: once one of them has read the
      only message, the other has nothing to read. The empty name and `default` are the same. */
  lemma SameGroupShares(cfg: Config, m: Message, c: nat, d: nat)
    requires ValidConsumer(cfg, c) && ValidConsumer(cfg, d)
    requires RedisStream(cfg.consumers[c].pattern) == RedisStream(m.topic) == RedisStream(cfg.consumers[d].pattern)
    requires Named(cfg.consumers[c].group) == Named(cfg.consumers[d].group)
    ensures
      && Legal(cfg, Init(cfg), [Publish(m), Read(c)])
      && !Enabled(cfg, Exec(cfg, Init(cfg), [Publish(m), Read(c)]), Read(d))
  {
    FirstRead(cfg, m, c);
    PublishedOne(cfg, m, RedisStream(m.topic));
    TwoSteps(cfg, Init(cfg), Publish(m), Read(c));
  }

  // ---------------------------------------------------------------- from the publisher to the handler

  /** The next thing a consumer does that is up to date is to fetch the message just published. */
  ghost predicate Receives(cfg: Config, s: State, c: nat, m: Message) {
    && Enabled(cfg, Apply(cfg, s, Publish(m)), Read(c))
    && HasFetched(cfg, Apply(cfg, Apply(cfg, s, Publish(m)), Read(c)), s.nextTask, c, m)
  }

  lemma UpToDateReceives(cfg: Config, s: State, c: nat, m: Message)
    requires ValidConsumer(cfg, c) && GroupInv(s, KeyOf(cfg.consumers[c])) && !Enabled(cfg, s, Read(c))
    requires RedisStream(cfg.consumers[c].pattern) == RedisStream(m.topic)
    ensures Receives(cfg, s, c, m)
  {
    var s1 := Apply(cfg, s, Publish(m));
    var id := |Entries(s.broker, RedisStream(m.topic))|;
    assert Entries(s1.broker, RedisStream(m.topic)) == Entries(s.broker, RedisStream(m.topic)) + [Carried(m)];
    var s2 := Apply(cfg, s1, Read(c));
    assert s2.tasks[s.nextTask] == Task(c, id, Fetched);
    Fetches(cfg, s2, s.nextTask, c, id, m);
  }

  /** In every state any run can reach: a consumer that has nothing left to read fetches the next
      message published on its stream. */
  lemma PublishedIsReceived(cfg: Config, steps: seq<Step>, c: nat, m: Message)
    requires Legal(cfg, Init(cfg), steps) && ValidConsumer(cfg, c)
    requires !Enabled(cfg, Exec(cfg, Init(cfg), steps), Read(c))
    requires RedisStream(cfg.consumers[c].pattern) == RedisStream(m.topic)
    ensures Receives(cfg, Exec(cfg, Init(cfg), steps), c, m)
  {
    InitInv(cfg);
    RunInv(cfg, Init(cfg), steps);
    KeyListed(cfg, c);
    assert GroupInv(Exec(cfg, Init(cfg), steps), KeyOf(cfg.consumers[c]));
    UpToDateReceives(cfg, Exec(cfg, Init(cfg), steps), c, m);
  }

  /** The handler of the consumer starts on the message published next. */
  ghost predicate Handles(cfg: Config, s: State, c: nat, m: Message) {
    && Receives(cfg, s, c, m)
    && Apply(cfg, Apply(cfg, Apply(cfg, s, Publish(m)), Read(c)), Check(s.nextTask)).tasks[s.nextTask].phase == Running
  }

  /** An up-to-date job worker, whatever its group, handles the next job of its namespace. */
  lemma WorkerHandlesJob(cfg: Config, steps: seq<Step>, c: nat, ns: string, name: string, m: Message)
    requires Legal(cfg, Init(cfg), steps) && ValidConsumer(cfg, c) && ValidNamespace(ns)
    requires !Enabled(cfg, Exec(cfg, Init(cfg), steps), Read(c))
    requires cfg.consumers[c].pattern == WildcardTopic(ns, "job") && m.topic == BuildTopic(ns, "job", name)
    ensures Handles(cfg, Exec(cfg, Init(cfg), steps), c, m)
  {
    JobRouting(ns, name);
    PublishedIsReceived(cfg, steps, c, m);
  }

  /** So does a cron executor with the next firing. */
  lemma ExecutorHandlesFiring(cfg: Config, steps: seq<Step>, c: nat, ns: string, name: string, m: Message)
    requires Legal(cfg, Init(cfg), steps) && ValidConsumer(cfg, c) && ValidNamespace(ns)
    requires !Enabled(cfg, Exec(cfg, Init(cfg), steps), Read(c))
    requires cfg.consumers[c].pattern == WildcardTopic(ns, "cron") && m.topic == BuildTopic(ns, "cron", name)
    ensures Handles(cfg, Exec(cfg, Init(cfg), steps), c, m)
  {
    CronRouting(ns, name);
    PublishedIsReceived(cfg, steps, c, m);
  }

  /** And an event subscriber, in either mode, with the next event that its pattern matches word by
      word. */
  lemma SubscriberHandlesEvent(cfg: Config, steps: seq<Step>, c: nat, mode: Mode, ns: string, pattern: string, e: Event)
    requires Legal(cfg, Init(cfg), steps) && ValidConsumer(cfg, c) && ValidNamespace(ns)
    requires !Enabled(cfg, Exec(cfg, Init(cfg), steps), Read(c))
    requires cfg.consumers[c].pattern == EventPrefix(mode, ns) + pattern
    ensures Receives(cfg, Exec(cfg, Init(cfg), steps), c, ToMessage(mode, ns, e))
    ensures Handles(cfg, Exec(cfg, Init(cfg), steps), c, ToMessage(mode, ns, e)) <==>
            MatchTokens(Words.Split(pattern), Words.Split(e.topic))
  {
    if mode == Global {
      GlobalSubscription(ns, pattern, ns, e);
      EventStreams(ns, pattern);
      EventStreams(ns, e.topic);
    } else {
      IsolatedSubscription(ns, pattern, ns, e);
      StreamOfBuiltTopic(ns, "event", pattern);
      StreamOfBuiltTopic(ns, "event", e.topic);
    }
    PublishedIsReceived(cfg, steps, c, ToMessage(mode, ns, e));
  }
}
