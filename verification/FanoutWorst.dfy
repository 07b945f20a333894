/** The bound of `Fanout` is exact: if every handler fails and every retry copy is transferred
    before the next one is put off, a message causes all the handler runs it is charged for. */
module FanoutWorst {
  import opened Decimal
  import opened Topics
  import opened Routing
  import opened Messages
  import opened ZSets
  import opened Delivery
  import opened Fanout
  import opened Events

  // ---------------------------------------------------------------- runs and their handler starts

  /** The steps lead from `s` to `s'` without anything from outside and start `n` handlers. */
  predicate Leads(cfg: Config, s: State, steps: seq<Step>, s': State, n: nat) {
    && Legal(cfg, s, steps)
    && Exec(cfg, s, steps) == s'
    && HandlerRuns(cfg, s, steps) == n
    && Undisturbed(cfg, s, steps)
  }

  predicate FromInside(cfg: Config, s: State, step: Step)
    requires Enabled(cfg, s, step)
  {
    && !step.Publish? && !step.Postpone? && !step.Claim?
    && (step.Transfer? && step.ok ==> s.passes[step.p].batch[0] in s.h.owed)
  }

  lemma LeadsOn(cfg: Config, s: State, step: Step, steps: seq<Step>, s': State, n: nat)
    requires Enabled(cfg, s, step) && FromInside(cfg, s, step)
    requires Leads(cfg, Apply(cfg, s, step), steps, s', n)
    ensures Leads(cfg, s, [step] + steps, s', if StartsHandler(cfg, s, step) then n + 1 else n)
  {
    assert ([step] + steps)[1..] == steps;
  }

  lemma FrontOfBoth(a: seq<Step>, b: seq<Step>)
    requires |a| > 0
    ensures [a[0]] + (a[1..] + b) == a + b
  {
  }

  lemma LeadsTail(cfg: Config, s: State, steps: seq<Step>, s': State, n: nat) returns (rest: nat)
    requires Leads(cfg, s, steps, s', n) && |steps| > 0
    ensures Enabled(cfg, s, steps[0]) && FromInside(cfg, s, steps[0])
    ensures Leads(cfg, Apply(cfg, s, steps[0]), steps[1..], s', rest)
    ensures n == if StartsHandler(cfg, s, steps[0]) then rest + 1 else rest
  {
    rest := HandlerRuns(cfg, Apply(cfg, s, steps[0]), steps[1..]);
  }

  lemma {:induction false} LeadsFurther(cfg: Config, s: State, a: seq<Step>, s1: State, n1: nat, b: seq<Step>, s2: State, n2: nat)
    requires Leads(cfg, s, a, s1, n1) && Leads(cfg, s1, b, s2, n2)
    ensures Leads(cfg, s, a + b, s2, n1 + n2)
    decreases |a|
  {
    if |a| == 0 {
      assert a == [] && a + b == b && s1 == s && n1 == 0;
    } else {
      var n' := LeadsTail(cfg, s, a, s1, n1);
      LeadsFurther(cfg, Apply(cfg, s, a[0]), a[1..], s1, n', b, s2, n2);
      LeadsOn(cfg, s, a[0], a[1..] + b, s2, n' + n2);
      FrontOfBoth(a, b);
    }
  }

  lemma LeadsNowhere(cfg: Config, s: State)
    ensures Leads(cfg, s, [], s, 0)
  {
  }

  lemma LeadsInv(cfg: Config, s: State, steps: seq<Step>, s': State, n: nat)
    requires Inv(cfg, s) && EntriesRouted(s) && Leads(cfg, s, steps, s', n)
    ensures Inv(cfg, s') && EntriesRouted(s')
  {
    RunInv(cfg, s, steps);
    RoutedRun(cfg, s, steps);
  }

  // ---------------------------------------------------------------- quiet states

  /** Nothing in work and nothing waiting in the delay set unsent. */
  predicate Idle(s: State) {
    s.tasks == map[] && s.passes == map[] && s.h.owed == {}
  }

  ghost predicate OnlyTopic(s: State, topic: string) {
    forall stream, id | 0 <= id < |Entries(s.broker, stream)| :: Entries(s.broker, stream)[id].topic == topic
  }

  ghost predicate Quiet(cfg: Config, s: State, topic: string) {
    Inv(cfg, s) && EntriesRouted(s) && Idle(s) && OnlyTopic(s, topic)
  }

  lemma IdlePotential(cfg: Config, s: State)
    requires cfg.maxRetries < MAX_INT && Idle(s)
    ensures Potential(cfg, s) == UnreadTotal(cfg, s)
  {
    assert s.tasks.Keys == {};
  }

  /** Every group of the stream has a consumer that wants the topic. */
  ghost predicate AllWant(cfg: Config, topic: string) {
    forall key | key in GroupsOn(cfg, RedisStream(topic)) :: Wanted(cfg, key, topic)
  }

  ghost predicate Wanted(cfg: Config, key: GroupKey, topic: string) {
    exists c: nat :: ValidConsumer(cfg, c) && KeyOf(cfg.consumers[c]) == key && MatchTopic(cfg.consumers[c].pattern, topic)
  }

  /** Potential left means some consumer that wants the topic has something to read. */
  lemma SomethingToRead(cfg: Config, s: State, topic: string) returns (c: nat)
    requires cfg.maxRetries < MAX_INT && Quiet(cfg, s, topic) && AllWant(cfg, topic) && UnreadTotal(cfg, s) > 0
    ensures Enabled(cfg, s, Read(c)) && MatchTopic(cfg.consumers[c].pattern, topic)
  {
    var f := (key: GroupKey) => GroupRuns(cfg, s, key);
    if forall key | key in Keys(cfg) :: f(key) == 0 {
      SumZero(f, Keys(cfg));
      assert false;
    }
    var key :| key in Keys(cfg) && f(key) > 0;
    assert HasUnread(s.broker, key);
    assert Entries(s.broker, key.stream)[s.broker.groups[key].cursor].topic == topic;
    assert key in GroupsOn(cfg, RedisStream(topic));
    c :| ValidConsumer(cfg, c) && KeyOf(cfg.consumers[c]) == key && MatchTopic(cfg.consumers[c].pattern, topic);
  }

  // ---------------------------------------------------------------- one failing delivery

  /** Only the goroutine `t` is at work. */
  predicate Working(s: State, t: nat, task: Task) {
    s.tasks == map[t := task] && s.passes == map[] && s.h.owed == {}
  }

  predicate SameCursors(s: State, s': State) {
    && s'.broker.streams == s.broker.streams
    && s'.broker.groups.Keys == s.broker.groups.Keys
    && forall key | key in s.broker.groups :: s'.broker.groups[key].cursor == s.broker.groups[key].cursor
  }

  function Front(cfg: Config, s: State, c: nat): Message
    requires Enabled(cfg, s, Read(c))
  {
    EntriesFor(cfg, s, c)[s.broker.groups[KeyOf(cfg.consumers[c])].cursor]
  }

  lemma TakeFront(cfg: Config, s: State, c: nat) returns (steps: seq<Step>, s': State)
    requires Idle(s) && Enabled(cfg, s, Read(c)) && Accepts(cfg.consumers[c], Front(cfg, s, c))
    ensures Leads(cfg, s, steps, s', 1)
    ensures
      var id := s.broker.groups[KeyOf(cfg.consumers[c])].cursor;
      && Working(s', s.nextTask, Task(c, id, Running))
      && s'.broker == Apply(cfg, s, Read(c)).broker && s'.h == s.h
      && ValidTask(cfg, s', s.nextTask) && MessageOf(cfg, s', s.nextTask) == Front(cfg, s, c)
  {
    var t, id := s.nextTask, s.broker.groups[KeyOf(cfg.consumers[c])].cursor;
    var s1 := Apply(cfg, s, Read(c));
    assert s1.tasks == map[t := Task(c, id, Fetched)];
    assert ValidTask(cfg, s1, t) && MessageOf(cfg, s1, t) == Front(cfg, s, c);
    s' := Apply(cfg, s1, Check(t));
    LeadsNowhere(cfg, s');
    LeadsOn(cfg, s1, Check(t), [], s', 0);
    LeadsOn(cfg, s, Read(c), [Check(t)] + [], s', 1);
    steps := [Read(c)] + ([Check(t)] + []);
  }

  lemma GiveUp(cfg: Config, s: State, t: nat, task: Task) returns (steps: seq<Step>, s': State)
    requires Working(s, t, task) && task.phase.Running? && ValidTask(cfg, s, t)
    requires Next(MessageOf(cfg, s, t)) > cfg.maxRetries
    ensures Leads(cfg, s, steps, s', 0) && Idle(s') && SameCursors(s, s')
  {
    var s1 := Apply(cfg, s, Finish(t, false));
    assert ValidTask(cfg, s1, t);
    s' := Apply(cfg, s1, Ack(t, true));
    LeadsNowhere(cfg, s');
    LeadsOn(cfg, s1, Ack(t, true), [], s', 0);
    LeadsOn(cfg, s, Finish(t, false), [Ack(t, true)] + [], s', 0);
    steps := [Finish(t, false)] + ([Ack(t, true)] + []);
  }

  /** Only a copy in the delay set is left of a delivery. */
  predicate Waiting(s: State, copy: Message) {
    s.tasks == map[] && s.passes == map[] && s.h.owed == {copy} && copy in Members(s.broker.delay)
  }

  lemma LeaveCopy(cfg: Config, s: State, t: nat, task: Task) returns (steps: seq<Step>, s': State)
    requires Working(s, t, task) && task.phase.Running? && ValidTask(cfg, s, t)
    requires Next(MessageOf(cfg, s, t)) <= cfg.maxRetries
    ensures Leads(cfg, s, steps, s', 0) && Waiting(s', RetryCopy(MessageOf(cfg, s, t))) && SameCursors(s, s')
  {
    var m := MessageOf(cfg, s, t);
    var s1 := Apply(cfg, s, Finish(t, false));
    assert ValidTask(cfg, s1, t) && MessageOf(cfg, s1, t) == m;
    ZAddMembers(s1.broker.delay, RetryCopy(m), 0);
    var s2 := Apply(cfg, s1, Reschedule(t, 0, true, true));
    assert ValidTask(cfg, s2, t);
    s' := Apply(cfg, s2, Ack(t, true));
    LeadsNowhere(cfg, s');
    LeadsOn(cfg, s2, Ack(t, true), [], s', 0);
    LeadsOn(cfg, s1, Reschedule(t, 0, true, true), [Ack(t, true)] + [], s', 0);
    LeadsOn(cfg, s, Finish(t, false), [Reschedule(t, 0, true, true)] + ([Ack(t, true)] + []), s', 0);
    steps := [Finish(t, false)] + ([Reschedule(t, 0, true, true)] + ([Ack(t, true)] + []));
  }

  lemma SendCopy(cfg: Config, s: State, copy: Message) returns (steps: seq<Step>, s': State)
    requires Waiting(s, copy)
    ensures Leads(cfg, s, steps, s', 0) && Idle(s')
    ensures s'.broker.streams == XAdd(s.broker, copy).streams && s'.broker.groups == s.broker.groups
  {
    var s1 := Apply(cfg, s, Scan(0, [copy]));
    var s2 := Apply(cfg, s1, Transfer(0, true));
    var s3 := Apply(cfg, s2, Remove(0, true));
    s' := Apply(cfg, s3, Stop(0));
    LeadsNowhere(cfg, s');
    LeadsOn(cfg, s3, Stop(0), [], s', 0);
    LeadsOn(cfg, s2, Remove(0, true), [Stop(0)] + [], s', 0);
    LeadsOn(cfg, s1, Transfer(0, true), [Remove(0, true)] + ([Stop(0)] + []), s', 0);
    LeadsOn(cfg, s, Scan(0, [copy]), [Transfer(0, true)] + ([Remove(0, true)] + ([Stop(0)] + [])), s', 0);
    steps := [Scan(0, [copy])] + ([Transfer(0, true)] + ([Remove(0, true)] + ([Stop(0)] + [])));
  }

  // ---------------------------------------------------------------- the whole potential is used up

  lemma OnlyTopicAdds(s: State, s': State, m: Message, topic: string)
    requires OnlyTopic(s, topic) && m.topic == topic && s'.broker.streams == XAdd(s.broker, m).streams
    ensures OnlyTopic(s', topic)
  {
    forall stream, id | 0 <= id < |Entries(s'.broker, stream)| ensures Entries(s'.broker, stream)[id].topic == topic {
      if id < |Entries(s.broker, stream)| {
        assert Entries(s'.broker, stream)[id] == Entries(s.broker, stream)[id];
      }
    }
  }

  lemma SendRaises(cfg: Config, s: State, s': State, copy: Message)
    requires cfg.maxRetries < MAX_INT && GroupsInv(cfg, s)
    requires s'.broker.streams == XAdd(s.broker, copy).streams && s'.broker.groups == s.broker.groups
    ensures UnreadTotal(cfg, s') == UnreadTotal(cfg, s) + Weight(cfg, copy)
  {
    var added := s.(broker := XAdd(s.broker, copy));
    AppendRaises(cfg, s, added, copy);
    UnreadSame(cfg, added, s');
  }

  lemma TakeLowers(cfg: Config, s: State, s1: State, c: nat)
    requires cfg.maxRetries < MAX_INT && Inv(cfg, s) && Enabled(cfg, s, Read(c))
    requires s1.broker == Apply(cfg, s, Read(c)).broker
    ensures UnreadTotal(cfg, s) == UnreadTotal(cfg, s1) + RunsOn(cfg, KeyOf(cfg.consumers[c]).stream, Front(cfg, s, c))
  {
    ReadLowers(cfg, s, c);
    UnreadSame(cfg, Apply(cfg, s, Read(c)), s1);
  }

  lemma FrontTopic(cfg: Config, s: State, c: nat, topic: string)
    requires EntriesRouted(s) && OnlyTopic(s, topic) && Enabled(cfg, s, Read(c))
    ensures Front(cfg, s, c).topic == topic && KeyOf(cfg.consumers[c]).stream == RedisStream(topic)
  {
    var key := KeyOf(cfg.consumers[c]);
    assert Entries(s.broker, key.stream)[s.broker.groups[key].cursor] == Front(cfg, s, c);
  }

  lemma OnlyTopicKept(s: State, s': State, topic: string)
    requires OnlyTopic(s, topic) && s'.broker.streams == s.broker.streams
    ensures OnlyTopic(s', topic)
  {
    assert forall stream :: Entries(s'.broker, stream) == Entries(s.broker, stream);
  }

  /** A goroutine whose handler is running, and nothing else in work. */
  ghost predicate OneRunning(cfg: Config, s: State, t: nat, task: Task, topic: string) {
    && Inv(cfg, s) && EntriesRouted(s) && OnlyTopic(s, topic)
    && Working(s, t, task) && task.phase.Running? && ValidTask(cfg, s, t) && MessageOf(cfg, s, t).topic == topic
  }

  lemma FailForGood(cfg: Config, s: State, t: nat, task: Task, topic: string) returns (steps: seq<Step>, s': State)
    requires cfg.maxRetries < MAX_INT && OneRunning(cfg, s, t, task, topic)
    requires Next(MessageOf(cfg, s, t)) > cfg.maxRetries
    ensures Leads(cfg, s, steps, s', 0) && Quiet(cfg, s', topic)
    ensures UnreadTotal(cfg, s') == UnreadTotal(cfg, s)
  {
    steps, s' := GiveUp(cfg, s, t, task);
    UnreadSame(cfg, s, s');
    OnlyTopicKept(s, s', topic);
    LeadsInv(cfg, s, steps, s', 0);
  }

  lemma FailAndForward(cfg: Config, s: State, t: nat, task: Task, topic: string) returns (steps: seq<Step>, s': State)
    requires cfg.maxRetries < MAX_INT && OneRunning(cfg, s, t, task, topic)
    requires Next(MessageOf(cfg, s, t)) <= cfg.maxRetries
    ensures Leads(cfg, s, steps, s', 0) && Quiet(cfg, s', topic)
    ensures UnreadTotal(cfg, s') == UnreadTotal(cfg, s) + Weight(cfg, RetryCopy(MessageOf(cfg, s, t)))
  {
    var copy := RetryCopy(MessageOf(cfg, s, t));
    var a, s1 := LeaveCopy(cfg, s, t, task);
    UnreadSame(cfg, s, s1);
    OnlyTopicKept(s, s1, topic);
    LeadsInv(cfg, s, a, s1, 0);
    var b, s2 := SendCopy(cfg, s1, copy);
    SendRaises(cfg, s1, s2, copy);
    OnlyTopicAdds(s1, s2, copy, topic);
    LeadsInv(cfg, s1, b, s2, 0);
    LeadsFurther(cfg, s, a, s1, 0, b, s2, 0);
    steps, s' := a + b, s2;
  }

  lemma OneRunAndTheCopy(cfg: Config, m: Message)
    requires cfg.maxRetries < MAX_INT
    ensures RunsOn(cfg, RedisStream(m.topic), m) == 1 + if Next(m) <= cfg.maxRetries then Weight(cfg, RetryCopy(m)) else 0
  {
    var g := |GroupsOn(cfg, RedisStream(m.topic))|;
    assert Runs(g, cfg.maxRetries, Attempt(m.headers)) == 1 + CopyRuns(g, cfg.maxRetries, Attempt(m.headers));
    if Next(m) <= cfg.maxRetries {
      CopyWeight(cfg, m);
    }
  }

  /** What becomes of a failing delivery after its handler has started. */
  lemma Fail(cfg: Config, s: State, t: nat, task: Task, topic: string) returns (steps: seq<Step>, s': State)
    requires cfg.maxRetries < MAX_INT && OneRunning(cfg, s, t, task, topic)
    ensures Leads(cfg, s, steps, s', 0) && Quiet(cfg, s', topic)
    ensures UnreadTotal(cfg, s') + 1 == UnreadTotal(cfg, s) + RunsOn(cfg, RedisStream(topic), MessageOf(cfg, s, t))
  {
    OneRunAndTheCopy(cfg, MessageOf(cfg, s, t));
    if Next(MessageOf(cfg, s, t)) > cfg.maxRetries {
      steps, s' := FailForGood(cfg, s, t, task, topic);
    } else {
      steps, s' := FailAndForward(cfg, s, t, task, topic);
    }
  }

  lemma OneFailure(cfg: Config, s: State, topic: string) returns (steps: seq<Step>, s': State)
    requires cfg.maxRetries < MAX_INT && Quiet(cfg, s, topic) && AllWant(cfg, topic) && UnreadTotal(cfg, s) > 0
    ensures Leads(cfg, s, steps, s', 1) && Quiet(cfg, s', topic) && UnreadTotal(cfg, s') + 1 == UnreadTotal(cfg, s)
  {
    var c := SomethingToRead(cfg, s, topic);
    FrontTopic(cfg, s, c, topic);
    var a, s1 := TakeFront(cfg, s, c);
    TakeLowers(cfg, s, s1, c);
    LeadsInv(cfg, s, a, s1, 1);
    OnlyTopicKept(s, s1, topic);
    var b, s2 := Fail(cfg, s1, s.nextTask, s1.tasks[s.nextTask], topic);
    LeadsFurther(cfg, s, a, s1, 1, b, s2, 0);
    steps, s' := a + b, s2;
  }

  lemma {:induction false} UseUp(cfg: Config, s: State, topic: string) returns (steps: seq<Step>, s': State)
    requires cfg.maxRetries < MAX_INT && Quiet(cfg, s, topic) && AllWant(cfg, topic)
    ensures Leads(cfg, s, steps, s', Potential(cfg, s))
    decreases UnreadTotal(cfg, s)
  {
    IdlePotential(cfg, s);
    if UnreadTotal(cfg, s) == 0 {
      LeadsNowhere(cfg, s);
      steps, s' := [], s;
    } else {
      var a, s1 := OneFailure(cfg, s, topic);
      var b, s2 := UseUp(cfg, s1, topic);
      IdlePotential(cfg, s1);
      LeadsFurther(cfg, s, a, s1, 1, b, s2, UnreadTotal(cfg, s1));
      steps, s' := a + b, s2;
    }
  }

  lemma PublishedOnly(cfg: Config, m: Message)
    requires cfg.maxRetries < MAX_INT
    ensures
      var s := Apply(cfg, Init(cfg), Publish(m));
      Quiet(cfg, s, m.topic) && Potential(cfg, s) == Weight(cfg, m)
  {
    var s := Apply(cfg, Init(cfg), Publish(m));
    InitInv(cfg);
    StepInv(cfg, Init(cfg), Publish(m));
    RoutedStep(cfg, Init(cfg), Publish(m));
    OnlyTopicAdds(Init(cfg), s, m, m.topic);
    InitPotential(cfg);
    AppendRaises(cfg, Init(cfg), s, m);
    IdlePotential(cfg, Init(cfg));
    IdlePotential(cfg, s);
  }

  lemma FullWeight(cfg: Config, m: Message)
    requires 0 <= cfg.maxRetries < MAX_INT && Attempt(m.headers) == 0
    ensures Weight(cfg, m) == PowerSum(|GroupsOn(cfg, RedisStream(m.topic))|, cfg.maxRetries + 1)
  {
    RunsClosedForm(|GroupsOn(cfg, RedisStream(m.topic))|, cfg.maxRetries, 0);
  }

  lemma AfterPublish(cfg: Config, m: Message, rest: seq<Step>, s': State, n: nat)
    requires Leads(cfg, Apply(cfg, Init(cfg), Publish(m)), rest, s', n)
    ensures
      var steps := [Publish(m)] + rest;
      && Legal(cfg, Init(cfg), steps) && steps[1..] == rest
      && Undisturbed(cfg, Apply(cfg, Init(cfg), Publish(m)), rest)
      && HandlerRuns(cfg, Init(cfg), steps) == n
  {
    assert ([Publish(m)] + rest)[1..] == rest;
  }

  /** If every group of the stream wants the topic, some run with no help from outside starts
      exactly g + g^2 + ... + g^(MaxRetries+1) handlers: the bound of `OneMessageBound` is the
      maximum. */
  lemma BoundIsReached(cfg: Config, m: Message) returns (steps: seq<Step>)
    requires 0 <= cfg.maxRetries < MAX_INT && Attempt(m.headers) == 0 && AllWant(cfg, m.topic)
    ensures |steps| > 0 && steps[0] == Publish(m) && Legal(cfg, Init(cfg), steps)
    ensures Undisturbed(cfg, Apply(cfg, Init(cfg), steps[0]), steps[1..])
    ensures HandlerRuns(cfg, Init(cfg), steps) == PowerSum(|GroupsOn(cfg, RedisStream(m.topic))|, cfg.maxRetries + 1)
  {
    var s := Apply(cfg, Init(cfg), Publish(m));
    PublishedOnly(cfg, m);
    FullWeight(cfg, m);
    var rest, s' := UseUp(cfg, s, m.topic);
    steps := [Publish(m)] + rest;
    AfterPublish(cfg, m, rest, s', Weight(cfg, m));
  }

  lemma FreshBoundIsReached(cfg: Config, m: Message) returns (steps: seq<Step>)
    requires 0 <= cfg.maxRetries < MAX_INT && "x-retry-count" !in m.headers && AllWant(cfg, m.topic)
    ensures |steps| > 0 && steps[0] == Publish(m) && Legal(cfg, Init(cfg), steps)
    ensures Undisturbed(cfg, Apply(cfg, Init(cfg), steps[0]), steps[1..])
    ensures HandlerRuns(cfg, Init(cfg), steps) == PowerSum(|GroupsOn(cfg, RedisStream(m.topic))|, cfg.maxRetries + 1)
  {
    FirstCopy(m);
    steps := BoundIsReached(cfg, m);
  }

  /** A published event is handled at most g + ... + g^(MaxRetries+1) times, and that many times in
      some run, if its metadata does not pretend a count. */
  lemma EventBound(cfg: Config, mode: Mode, ns: string, e: Event, steps: seq<Step>) returns (worst: seq<Step>)
    requires 0 <= cfg.maxRetries < MAX_INT && "x-retry-count" !in e.metadata
    requires AllWant(cfg, ToMessage(mode, ns, e).topic)
    requires |steps| > 0 && steps[0] == Publish(ToMessage(mode, ns, e)) && Legal(cfg, Init(cfg), steps)
    requires Undisturbed(cfg, Apply(cfg, Init(cfg), steps[0]), steps[1..])
    ensures |worst| > 0 && worst[0] == steps[0] && Legal(cfg, Init(cfg), worst)
    ensures Undisturbed(cfg, Apply(cfg, Init(cfg), worst[0]), worst[1..])
    ensures
      var bound := PowerSum(|GroupsOn(cfg, RedisStream(ToMessage(mode, ns, e).topic))|, cfg.maxRetries + 1);
      HandlerRuns(cfg, Init(cfg), steps) <= bound == HandlerRuns(cfg, Init(cfg), worst)
  {
    var m := ToMessage(mode, ns, e);
    EventNamesNoCount(mode, ns, e);
    FreshMessageBound(cfg, m, steps);
    worst := FreshBoundIsReached(cfg, m);
  }
}
