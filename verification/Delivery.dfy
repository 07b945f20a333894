/** Delivery over Redis (redis_adapter.go): publishing, reading into a pending list, claiming,
    handling, acknowledging, and retrying through the delay set and its scheduler. Every Redis
    command is one atomic step; steps of any number of consumers, handler goroutines, schedulers
    and producers interleave freely, commands may fail, and goroutines may die at any point. */
module Delivery {
  import opened Topics
  import opened Routing
  import opened Messages
  import opened ZSets

  // ---------------------------------------------------------------- the broker

  datatype GroupKey = GroupKey(stream: string, name: string)

  /** A consumer group of a stream: entries before `cursor` were read; `pending` were read but
      not acknowledged. */
  datatype Group = Group(cursor: nat, pending: set<nat>)

  /** Stream entries are kept as consumers decode them: `Messages.WireRoundTrip` shows that
      encoding and decoding an entry yields `Carried`. */
  datatype Broker = Broker(streams: map<string, seq<Message>>, groups: map<GroupKey, Group>, delay: ZSet<Message>)

  function Entries(b: Broker, stream: string): seq<Message> {
    if stream in b.streams then b.streams[stream] else []
  }

  function XAdd(b: Broker, m: Message): Broker {
    var stream := RedisStream(m.topic);
    b.(streams := b.streams[stream := Entries(b, stream) + [Carried(m)]])
  }

  predicate HasUnread(b: Broker, key: GroupKey) {
    key in b.groups && b.groups[key].cursor < |Entries(b, key.stream)|
  }

  function XReadGroup(b: Broker, key: GroupKey): Broker
    requires HasUnread(b, key)
  {
    var g := b.groups[key];
    b.(groups := b.groups[key := Group(g.cursor + 1, g.pending + {g.cursor})])
  }

  predicate IsPending(b: Broker, key: GroupKey, id: nat) {
    key in b.groups && id in b.groups[key].pending
  }

  function XAck(b: Broker, key: GroupKey, id: nat): Broker {
    if key !in b.groups then b
    else
      var g := b.groups[key];
      b.(groups := b.groups[key := g.(pending := g.pending - {id})])
  }

  function ZAddItem(b: Broker, m: Message, score: int): Broker {
    b.(delay := ZAdd(b.delay, m, score))
  }

  function ZRemItem(b: Broker, m: Message): Broker {
    b.(delay := ZRem(b.delay, m))
  }

  // ---------------------------------------------------------------- configuration and state

  datatype Consumer = Consumer(pattern: string, group: string)

  datatype Config = Config(consumers: seq<Consumer>, maxRetries: int)

  function KeyOf(c: Consumer): GroupKey {
    GroupKey(RedisStream(c.pattern), if c.group == "" then "default" else c.group)
  }

  predicate Accepts(c: Consumer, m: Message) {
    MatchTopic(c.pattern, m.topic)
  }

  function Keys(cfg: Config): set<GroupKey> {
    set c | c in cfg.consumers :: KeyOf(c)
  }

  datatype Reason = Mismatched | Handled | Exhausted | Copied

  datatype Phase = Fetched | Running | Failing | Acking(reason: Reason)

  /** A handler goroutine, working for one consumer on one stream entry. */
  datatype Task = Task(consumer: nat, entry: nat, phase: Phase)

  /** A scheduler working through what it read from the delay set; `sent` says that the first
      item was already handed to XADD. */
  datatype Pass = Pass(batch: seq<Message>, sent: bool)

  datatype Settlement = Settlement(consumer: nat, reason: Reason)

  /** What has happened so far.
      settled: for each group and entry, who acknowledged it first, and why.
      succeeded, failed: (consumer, entry) pairs for which a handler run ended that way.
      zadded: messages that were ever put into the delay set.
      owed: messages in the delay set that no XADD has followed since they were last put there.
      moved: messages the scheduler has added to their stream.
      lost: messages removed from the delay set while still owed. */
  datatype History = History(
    settled: map<(GroupKey, nat), Settlement>,
    succeeded: set<(nat, nat)>, failed: set<(nat, nat)>,
    zadded: set<Message>, owed: set<Message>, moved: set<Message>, lost: set<Message>)

  datatype State = State(broker: Broker, nextTask: nat, tasks: map<nat, Task>, passes: map<nat, Pass>, h: History)

  function Init(cfg: Config): State {
    State(Broker(map[], map key | key in Keys(cfg) :: Group(0, {}), []), 0, map[], map[],
          History(map[], {}, {}, {}, {}, {}, {}))
  }

  // ---------------------------------------------------------------- steps

  datatype Step =
    | Publish(m: Message)                              // XADD by a producer
    | Postpone(m: Message, score: int)                 // ZADD by a producer
    | Read(c: nat)                                     // XREADGROUP, one entry
    | Claim(c: nat, id: nat)                           // XAUTOCLAIM, one entry
    | Check(t: nat)                                    // topic filter; a match starts the handler
    | Finish(t: nat, ok: bool)                         // the handler returns
    | Reschedule(t: nat, due: int, applied: bool, reported: bool)  // ZADD of the retry copy
    | Ack(t: nat, applied: bool)                       // XACK
    | Crash(t: nat)
    | Scan(p: nat, batch: seq<Message>)                // ZRANGEBYSCORE
    | Transfer(p: nat, ok: bool)                       // XADD of the first item, result ignored
    | Remove(p: nat, applied: bool)                    // ZREM of the first item, result ignored
    | Stop(p: nat)

  predicate ValidConsumer(cfg: Config, c: nat) {
    c < |cfg.consumers|
  }

  function EntriesFor(cfg: Config, s: State, c: nat): seq<Message>
    requires ValidConsumer(cfg, c)
  {
    Entries(s.broker, KeyOf(cfg.consumers[c]).stream)
  }

  predicate ValidTask(cfg: Config, s: State, t: nat) {
    && t in s.tasks
    && ValidConsumer(cfg, s.tasks[t].consumer)
    && s.tasks[t].entry < |EntriesFor(cfg, s, s.tasks[t].consumer)|
  }

  function MessageOf(cfg: Config, s: State, t: nat): Message
    requires ValidTask(cfg, s, t)
  {
    EntriesFor(cfg, s, s.tasks[t].consumer)[s.tasks[t].entry]
  }

  function Next(m: Message): int {
    NextAttempt(Attempt(m.headers))
  }

  predicate Enabled(cfg: Config, s: State, step: Step) {
    match step
    case Publish(m) => true
    case Postpone(m, score) => true
    case Read(c) => ValidConsumer(cfg, c) && HasUnread(s.broker, KeyOf(cfg.consumers[c]))
    case Claim(c, id) => ValidConsumer(cfg, c) && IsPending(s.broker, KeyOf(cfg.consumers[c]), id)
    case Check(t) => ValidTask(cfg, s, t) && s.tasks[t].phase.Fetched?
    case Finish(t, ok) => ValidTask(cfg, s, t) && s.tasks[t].phase.Running?
    case Reschedule(t, due, applied, reported) =>
      ValidTask(cfg, s, t) && s.tasks[t].phase.Failing? && (reported ==> applied)
    case Ack(t, applied) => ValidTask(cfg, s, t) && s.tasks[t].phase.Acking?
    case Crash(t) => t in s.tasks
    case Scan(p, batch) => p !in s.passes && forall m | m in batch :: m in Members(s.broker.delay)
    case Transfer(p, ok) => p in s.passes && s.passes[p].batch != [] && !s.passes[p].sent
    case Remove(p, applied) => p in s.passes && s.passes[p].batch != [] && s.passes[p].sent
    case Stop(p) => p in s.passes
  }

  function StartTask(s: State, b: Broker, c: nat, id: nat): State {
    s.(broker := b, nextTask := s.nextTask + 1, tasks := s.tasks[s.nextTask := Task(c, id, Fetched)])
  }

  function SetPhase(s: State, t: nat, phase: Phase): State
    requires t in s.tasks
  {
    s.(tasks := s.tasks[t := s.tasks[t].(phase := phase)])
  }

  function EndTask(s: State, t: nat): State {
    s.(tasks := s.tasks - {t})
  }

  /** ZADD, with what it means for the record. */
  function PutOff(s: State, m: Message, score: int): State {
    s.(broker := ZAddItem(s.broker, m, score), h := s.h.(zadded := s.h.zadded + {m}, owed := s.h.owed + {m}))
  }

  /** XACK: the first acknowledgement of a pending entry settles it. */
  function Settle(cfg: Config, s: State, c: nat, id: nat, reason: Reason): State
    requires ValidConsumer(cfg, c)
  {
    var key := KeyOf(cfg.consumers[c]);
    var h := if IsPending(s.broker, key, id)
             then s.h.(settled := s.h.settled[(key, id) := Settlement(c, reason)])
             else s.h;
    s.(broker := XAck(s.broker, key, id), h := h)
  }

  function Moved(s: State, m: Message): State {
    s.(broker := XAdd(s.broker, m), h := s.h.(moved := s.h.moved + {m}, owed := s.h.owed - {m}))
  }

  function Removed(s: State, m: Message): State {
    s.(broker := ZRemItem(s.broker, m),
       h := s.h.(owed := s.h.owed - {m}, lost := if m in s.h.owed then s.h.lost + {m} else s.h.lost))
  }

  function Apply(cfg: Config, s: State, step: Step): State
    requires Enabled(cfg, s, step)
  {
    match step
    case Publish(m) => s.(broker := XAdd(s.broker, m))
    case Postpone(m, score) => PutOff(s, m, score)
    case Read(c) =>
      var key := KeyOf(cfg.consumers[c]);
      StartTask(s, XReadGroup(s.broker, key), c, s.broker.groups[key].cursor)
    case Claim(c, id) => StartTask(s, s.broker, c, id)
    case Check(t) =>
      var accepted := Accepts(cfg.consumers[s.tasks[t].consumer], MessageOf(cfg, s, t));
      SetPhase(s, t, if accepted then Running else Acking(Mismatched))
    case Finish(t, ok) =>
      var pair := (s.tasks[t].consumer, s.tasks[t].entry);
      if ok then SetPhase(s, t, Acking(Handled)).(h := s.h.(succeeded := s.h.succeeded + {pair}))
      else
        var retry := Next(MessageOf(cfg, s, t)) <= cfg.maxRetries;
        SetPhase(s, t, if retry then Failing else Acking(Exhausted)).(h := s.h.(failed := s.h.failed + {pair}))
    case Reschedule(t, due, applied, reported) =>
      var s1 := if applied then PutOff(s, RetryCopy(MessageOf(cfg, s, t)), due) else s;
      if reported then SetPhase(s1, t, Acking(Copied)) else EndTask(s1, t)
    case Ack(t, applied) =>
      var task := s.tasks[t];
      EndTask(if applied then Settle(cfg, s, task.consumer, task.entry, task.phase.reason) else s, t)
    case Crash(t) => EndTask(s, t)
    case Scan(p, batch) => s.(passes := s.passes[p := Pass(batch, false)])
    case Transfer(p, ok) =>
      var pass := s.passes[p];
      (if ok then Moved(s, pass.batch[0]) else s).(passes := s.passes[p := pass.(sent := true)])
    case Remove(p, applied) =>
      var pass := s.passes[p];
      (if applied then Removed(s, pass.batch[0]) else s).(passes := s.passes[p := Pass(pass.batch[1..], false)])
    case Stop(p) => s.(passes := s.passes - {p})
  }

  /** A legal run from a state, and where it leads. */
  predicate Legal(cfg: Config, s: State, steps: seq<Step>)
    decreases |steps|
  {
    |steps| > 0 ==> Enabled(cfg, s, steps[0]) && Legal(cfg, Apply(cfg, s, steps[0]), steps[1..])
  }

  function Exec(cfg: Config, s: State, steps: seq<Step>): State
    requires Legal(cfg, s, steps)
    decreases |steps|
  {
    if |steps| == 0 then s else Exec(cfg, Apply(cfg, s, steps[0]), steps[1..])
  }

  lemma OneMoreStep(cfg: Config, s: State, step: Step, steps: seq<Step>)
    requires Enabled(cfg, s, step) && Legal(cfg, Apply(cfg, s, step), steps)
    ensures Legal(cfg, s, [step] + steps)
    ensures Exec(cfg, s, [step] + steps) == Exec(cfg, Apply(cfg, s, step), steps)
  {
    assert ([step] + steps)[1..] == steps;
  }

  // ---------------------------------------------------------------- the invariant

  /** Why an entry may be acknowledged, checked against what really happened. */
  ghost predicate Justified(cfg: Config, s: State, c: nat, id: nat, reason: Reason) {
    && ValidConsumer(cfg, c)
    && id < |EntriesFor(cfg, s, c)|
    && var m := EntriesFor(cfg, s, c)[id];
       match reason
       case Mismatched => !Accepts(cfg.consumers[c], m)
       case Handled => Accepts(cfg.consumers[c], m) && (c, id) in s.h.succeeded
       case Exhausted => Accepts(cfg.consumers[c], m) && (c, id) in s.h.failed && Next(m) > cfg.maxRetries
       case Copied =>
         && Accepts(cfg.consumers[c], m) && (c, id) in s.h.failed && Next(m) <= cfg.maxRetries
         && RetryCopy(m) in s.h.zadded
  }

  ghost predicate GroupInv(s: State, key: GroupKey) {
    && key in s.broker.groups
    && s.broker.groups[key].cursor <= |Entries(s.broker, key.stream)|
    && forall id: nat ::
         && (id < s.broker.groups[key].cursor <==> id in s.broker.groups[key].pending || (key, id) in s.h.settled)
         && !(id in s.broker.groups[key].pending && (key, id) in s.h.settled)
  }

  ghost predicate GroupsInv(cfg: Config, s: State) {
    forall key | key in Keys(cfg) :: GroupInv(s, key)
  }

  ghost predicate PhaseInv(cfg: Config, s: State, task: Task) {
    && ValidConsumer(cfg, task.consumer)
    && task.entry < |EntriesFor(cfg, s, task.consumer)|
    && var m := EntriesFor(cfg, s, task.consumer)[task.entry];
       match task.phase
       case Fetched => true
       case Running => Accepts(cfg.consumers[task.consumer], m)
       case Failing =>
         && Accepts(cfg.consumers[task.consumer], m)
         && (task.consumer, task.entry) in s.h.failed && Next(m) <= cfg.maxRetries
       case Acking(reason) => Justified(cfg, s, task.consumer, task.entry, reason)
  }

  ghost predicate TasksInv(cfg: Config, s: State) {
    forall t | t in s.tasks :: t < s.nextTask && PhaseInv(cfg, s, s.tasks[t])
  }

  ghost predicate SettlementInv(cfg: Config, s: State, key: GroupKey, id: nat, x: Settlement) {
    && ValidConsumer(cfg, x.consumer)
    && KeyOf(cfg.consumers[x.consumer]) == key
    && Justified(cfg, s, x.consumer, id, x.reason)
  }

  ghost predicate SettledInv(cfg: Config, s: State) {
    forall key, id | (key, id) in s.h.settled :: SettlementInv(cfg, s, key, id, s.h.settled[(key, id)])
  }

  ghost predicate OnStream(s: State, m: Message) {
    Carried(m) in Entries(s.broker, RedisStream(m.topic))
  }

  ghost predicate DelayInv(s: State) {
    && s.h.owed <= Members(s.broker.delay)
    && s.h.zadded <= s.h.owed + s.h.moved + s.h.lost
    && forall m | m in s.h.moved :: OnStream(s, m)
  }

  ghost predicate Inv(cfg: Config, s: State) {
    GroupsInv(cfg, s) && TasksInv(cfg, s) && SettledInv(cfg, s) && DelayInv(s)
  }

  /** Nothing recorded is ever taken back. */
  ghost predicate Grows(s: State, s': State) {
    && (forall stream :: Entries(s.broker, stream) <= Entries(s'.broker, stream))
    && s.h.succeeded <= s'.h.succeeded && s.h.failed <= s'.h.failed && s.h.zadded <= s'.h.zadded
  }

  lemma JustifiedGrows(cfg: Config, s: State, s': State, c: nat, id: nat, reason: Reason)
    requires Grows(s, s') && Justified(cfg, s, c, id, reason)
    ensures Justified(cfg, s', c, id, reason)
  {
    assert EntriesFor(cfg, s, c) <= EntriesFor(cfg, s', c);
  }

  lemma PhaseGrows(cfg: Config, s: State, s': State, task: Task)
    requires Grows(s, s') && PhaseInv(cfg, s, task)
    ensures PhaseInv(cfg, s', task)
  {
    assert EntriesFor(cfg, s, task.consumer) <= EntriesFor(cfg, s', task.consumer);
    if task.phase.Acking? {
      JustifiedGrows(cfg, s, s', task.consumer, task.entry, task.phase.reason);
    }
  }

  lemma SettledGrows(cfg: Config, s: State, s': State)
    requires Grows(s, s') && SettledInv(cfg, s) && s'.h.settled == s.h.settled
    ensures SettledInv(cfg, s')
  {
    forall key, id | (key, id) in s'.h.settled ensures SettlementInv(cfg, s', key, id, s'.h.settled[(key, id)]) {
      var x := s.h.settled[(key, id)];
      assert SettlementInv(cfg, s, key, id, x);
      JustifiedGrows(cfg, s, s', x.consumer, id, x.reason);
    }
  }

  lemma StepGrows(cfg: Config, s: State, step: Step)
    requires Enabled(cfg, s, step)
    ensures Grows(s, Apply(cfg, s, step))
  {
  }

  lemma InitInv(cfg: Config)
    ensures Inv(cfg, Init(cfg))
  {
  }

  lemma KeyListed(cfg: Config, c: nat)
    requires ValidConsumer(cfg, c)
    ensures KeyOf(cfg.consumers[c]) in Keys(cfg)
  {
    assert cfg.consumers[c] in cfg.consumers;
  }

  lemma GroupStep(cfg: Config, s: State, step: Step, key: GroupKey)
    requires GroupInv(s, key) && Enabled(cfg, s, step)
    ensures GroupInv(Apply(cfg, s, step), key)
  {
    var s' := Apply(cfg, s, step);
    StepGrows(cfg, s, step);
    assert Entries(s.broker, key.stream) <= Entries(s'.broker, key.stream);
    match step {
      case Read(c) =>
        if KeyOf(cfg.consumers[c]) == key {
          assert s'.broker.groups[key].cursor == s.broker.groups[key].cursor + 1;
        }
      case Ack(t, applied) =>
        var task := s.tasks[t];
        var k := KeyOf(cfg.consumers[task.consumer]);
        if applied && IsPending(s.broker, k, task.entry) {
          assert s'.h.settled == s.h.settled[(k, task.entry) := Settlement(task.consumer, task.phase.reason)];
        } else {
          assert s'.h.settled == s.h.settled;
          assert key in s'.broker.groups && s'.broker.groups[key] == s.broker.groups[key];
        }
      case _ =>
        assert s'.h.settled == s.h.settled && s'.broker.groups == s.broker.groups;
    }
  }

  lemma TasksKept(cfg: Config, s: State, s': State)
    requires TasksInv(cfg, s) && Grows(s, s') && s.nextTask <= s'.nextTask
    requires forall t | t in s'.tasks :: t in s.tasks && s'.tasks[t] == s.tasks[t]
    ensures TasksInv(cfg, s')
  {
    forall t | t in s'.tasks ensures t < s'.nextTask && PhaseInv(cfg, s', s'.tasks[t]) {
      PhaseGrows(cfg, s, s', s.tasks[t]);
    }
  }

  lemma TaskChanged(cfg: Config, s: State, s': State, t: nat)
    requires TasksInv(cfg, s) && Grows(s, s') && s.nextTask <= s'.nextTask
    requires t in s'.tasks && t < s'.nextTask && PhaseInv(cfg, s', s'.tasks[t])
    requires forall u | u in s'.tasks && u != t :: u in s.tasks && s'.tasks[u] == s.tasks[u]
    ensures TasksInv(cfg, s')
  {
    forall u | u in s'.tasks ensures u < s'.nextTask && PhaseInv(cfg, s', s'.tasks[u]) {
      if u != t {
        PhaseGrows(cfg, s, s', s.tasks[u]);
      }
    }
  }

  lemma FetchStep(cfg: Config, s: State, step: Step)
    requires Inv(cfg, s) && Enabled(cfg, s, step) && (step.Read? || step.Claim?)
    ensures TasksInv(cfg, Apply(cfg, s, step))
  {
    StepGrows(cfg, s, step);
    KeyListed(cfg, step.c);
    assert GroupInv(s, KeyOf(cfg.consumers[step.c]));
    TaskChanged(cfg, s, Apply(cfg, s, step), s.nextTask);
  }

  lemma CheckStep(cfg: Config, s: State, t: nat)
    requires Inv(cfg, s) && Enabled(cfg, s, Check(t))
    ensures TasksInv(cfg, Apply(cfg, s, Check(t)))
  {
    var s' := Apply(cfg, s, Check(t));
    StepGrows(cfg, s, Check(t));
    assert EntriesFor(cfg, s', s.tasks[t].consumer) == EntriesFor(cfg, s, s.tasks[t].consumer);
    assert PhaseInv(cfg, s', s'.tasks[t]);
    TaskChanged(cfg, s, s', t);
  }

  lemma FinishStep(cfg: Config, s: State, t: nat, ok: bool)
    requires Inv(cfg, s) && Enabled(cfg, s, Finish(t, ok))
    ensures TasksInv(cfg, Apply(cfg, s, Finish(t, ok)))
  {
    var s' := Apply(cfg, s, Finish(t, ok));
    StepGrows(cfg, s, Finish(t, ok));
    assert PhaseInv(cfg, s, s.tasks[t]);
    assert EntriesFor(cfg, s', s.tasks[t].consumer) == EntriesFor(cfg, s, s.tasks[t].consumer);
    assert PhaseInv(cfg, s', s'.tasks[t]);
    TaskChanged(cfg, s, s', t);
  }

  lemma RescheduleStep(cfg: Config, s: State, step: Step)
    requires Inv(cfg, s) && Enabled(cfg, s, step) && step.Reschedule?
    ensures TasksInv(cfg, Apply(cfg, s, step))
  {
    StepGrows(cfg, s, step);
    assert PhaseInv(cfg, s, s.tasks[step.t]);
    if step.reported {
      TaskChanged(cfg, s, Apply(cfg, s, step), step.t);
    } else {
      TasksKept(cfg, s, Apply(cfg, s, step));
    }
  }

  lemma TasksStep(cfg: Config, s: State, step: Step)
    requires Inv(cfg, s) && Enabled(cfg, s, step)
    ensures TasksInv(cfg, Apply(cfg, s, step))
  {
    if step.Read? || step.Claim? {
      FetchStep(cfg, s, step);
    } else if step.Check? {
      CheckStep(cfg, s, step.t);
    } else if step.Finish? {
      FinishStep(cfg, s, step.t, step.ok);
    } else if step.Reschedule? {
      RescheduleStep(cfg, s, step);
    } else {
      StepGrows(cfg, s, step);
      TasksKept(cfg, s, Apply(cfg, s, step));
    }
  }

  lemma AckStep(cfg: Config, s: State, t: nat, key: GroupKey, id: nat)
    requires Inv(cfg, s) && Enabled(cfg, s, Ack(t, true))
    requires (key, id) in Apply(cfg, s, Ack(t, true)).h.settled
    ensures
      var s' := Apply(cfg, s, Ack(t, true));
      SettlementInv(cfg, s', key, id, s'.h.settled[(key, id)])
  {
    var s' := Apply(cfg, s, Ack(t, true));
    var x := s'.h.settled[(key, id)];
    StepGrows(cfg, s, Ack(t, true));
    if (key, id) in s.h.settled && s.h.settled[(key, id)] == x {
      assert SettlementInv(cfg, s, key, id, x);
    } else {
      assert PhaseInv(cfg, s, s.tasks[t]);
    }
    JustifiedGrows(cfg, s, s', x.consumer, id, x.reason);
  }

  lemma SettledStep(cfg: Config, s: State, step: Step)
    requires Inv(cfg, s) && Enabled(cfg, s, step)
    ensures SettledInv(cfg, Apply(cfg, s, step))
  {
    var s' := Apply(cfg, s, step);
    if step.Ack? && step.applied {
      forall key, id | (key, id) in s'.h.settled ensures SettlementInv(cfg, s', key, id, s'.h.settled[(key, id)]) {
        AckStep(cfg, s, step.t, key, id);
      }
    } else {
      StepGrows(cfg, s, step);
      SettledGrows(cfg, s, s');
    }
  }

  lemma OnStreamGrows(s: State, s': State, m: Message)
    requires Grows(s, s') && OnStream(s, m)
    ensures OnStream(s', m)
  {
    assert Entries(s.broker, RedisStream(m.topic)) <= Entries(s'.broker, RedisStream(m.topic));
  }

  lemma AddedOnStream(s: State, m: Message)
    ensures OnStream(Moved(s, m), m)
  {
    var es := Entries(Moved(s, m).broker, RedisStream(m.topic));
    assert es[|es| - 1] == Carried(m);
  }

  lemma DelayStep(cfg: Config, s: State, step: Step)
    requires Inv(cfg, s) && Enabled(cfg, s, step)
    ensures DelayInv(Apply(cfg, s, step))
  {
    var s' := Apply(cfg, s, step);
    StepGrows(cfg, s, step);
    forall m | m in s.h.moved ensures OnStream(s', m) {
      OnStreamGrows(s, s', m);
    }
    match step {
      case Postpone(m, score) => ZAddMembers(s.broker.delay, m, score);
      case Reschedule(t, due, applied, reported) =>
        ZAddMembers(s.broker.delay, RetryCopy(MessageOf(cfg, s, t)), due);
      case Transfer(p, ok) =>
        var m := s.passes[p].batch[0];
        AddedOnStream(s, m);
        assert ok ==> OnStream(s', m);
      case Remove(p, applied) => ZRemMembers(s.broker.delay, s.passes[p].batch[0]);
      case _ =>
    }
  }

  /** Every step of every participant keeps the invariant. */
  lemma StepInv(cfg: Config, s: State, step: Step)
    requires Inv(cfg, s) && Enabled(cfg, s, step)
    ensures Inv(cfg, Apply(cfg, s, step))
  {
    forall key | key in Keys(cfg) ensures GroupInv(Apply(cfg, s, step), key) {
      GroupStep(cfg, s, step, key);
    }
    TasksStep(cfg, s, step);
    SettledStep(cfg, s, step);
    DelayStep(cfg, s, step);
  }

  lemma {:induction false} RunInv(cfg: Config, s: State, steps: seq<Step>)
    requires Inv(cfg, s) && Legal(cfg, s, steps)
    ensures Inv(cfg, Exec(cfg, s, steps))
    decreases |steps|
  {
    if |steps| > 0 {
      StepInv(cfg, s, steps[0]);
      RunInv(cfg, Apply(cfg, s, steps[0]), steps[1..]);
    }
  }

  /** Entries sit on the stream of their own topic. */
  ghost predicate EntriesRouted(s: State) {
    forall stream, id | 0 <= id < |Entries(s.broker, stream)| :: RedisStream(Entries(s.broker, stream)[id].topic) == stream
  }

  lemma RoutedStep(cfg: Config, s: State, step: Step)
    requires Enabled(cfg, s, step) && EntriesRouted(s)
    ensures EntriesRouted(Apply(cfg, s, step))
  {
    var s' := Apply(cfg, s, step);
    if step.Publish? || (step.Transfer? && step.ok) {
      var m := if step.Publish? then step.m else s.passes[step.p].batch[0];
      forall stream, id | 0 <= id < |Entries(s'.broker, stream)|
        ensures RedisStream(Entries(s'.broker, stream)[id].topic) == stream
      {
        if id < |Entries(s.broker, stream)| {
          assert Entries(s'.broker, stream)[id] == Entries(s.broker, stream)[id];
        } else {
          assert stream == RedisStream(m.topic);
          assert Entries(s'.broker, stream)[id] == Carried(m);
        }
      }
    } else {
      assert forall stream :: Entries(s'.broker, stream) == Entries(s.broker, stream);
    }
  }

  lemma {:induction false} RoutedRun(cfg: Config, s: State, steps: seq<Step>)
    requires Legal(cfg, s, steps) && EntriesRouted(s)
    ensures EntriesRouted(Exec(cfg, s, steps))
    decreases |steps|
  {
    if |steps| > 0 {
      RoutedStep(cfg, s, steps[0]);
      RoutedRun(cfg, Apply(cfg, s, steps[0]), steps[1..]);
    }
  }

  lemma SortedStep(cfg: Config, s: State, step: Step)
    requires Enabled(cfg, s, step) && Valid(s.broker.delay)
    ensures Valid(Apply(cfg, s, step).broker.delay)
  {
    match step {
      case Postpone(m, score) => StaysValid(s.broker.delay, m, score);
      case Reschedule(t, due, applied, reported) => StaysValid(s.broker.delay, RetryCopy(MessageOf(cfg, s, t)), due);
      case Remove(p, applied) => StaysValid(s.broker.delay, s.passes[p].batch[0], 0);
      case _ =>
    }
  }

  /** The delay set stays in score order and free of duplicates. */
  lemma {:induction false} SortedRun(cfg: Config, s: State, steps: seq<Step>)
    requires Legal(cfg, s, steps) && Valid(s.broker.delay)
    ensures Valid(Exec(cfg, s, steps).broker.delay)
    decreases |steps|
  {
    if |steps| > 0 {
      SortedStep(cfg, s, steps[0]);
      SortedRun(cfg, Apply(cfg, s, steps[0]), steps[1..]);
    }
  }

  // ---------------------------------------------------------------- no silent loss

  /** A scheduled copy waits in the delay set, or is on its stream, or was removed unsent. */
  ghost predicate CopyAccounted(s: State, copy: Message) {
    copy in Members(s.broker.delay) || OnStream(s, copy) || copy in s.h.lost
  }

  /** Exactly one of: not yet read; pending; acknowledged for a reason that holds. */
  ghost predicate Accounted(cfg: Config, s: State, key: GroupKey, id: nat)
    requires key in s.broker.groups
  {
    var g := s.broker.groups[key];
    if id >= g.cursor then id !in g.pending && (key, id) !in s.h.settled
    else if id in g.pending then (key, id) !in s.h.settled
    else
      && (key, id) in s.h.settled
      && var x := s.h.settled[(key, id)];
         && SettlementInv(cfg, s, key, id, x)
         && (x.reason.Copied? ==> CopyAccounted(s, RetryCopy(Entries(s.broker, key.stream)[id])))
  }

  ghost predicate NoSilentLoss(cfg: Config, s: State) {
    forall key | key in Keys(cfg) ::
      key in s.broker.groups
      && forall id: nat | id < |Entries(s.broker, key.stream)| :: Accounted(cfg, s, key, id)
  }

  lemma InvMeansNoSilentLoss(cfg: Config, s: State)
    requires Inv(cfg, s)
    ensures NoSilentLoss(cfg, s)
  {
    forall key | key in Keys(cfg) ensures key in s.broker.groups {
      assert GroupInv(s, key);
    }
    forall key, id: nat | key in Keys(cfg) && id < |Entries(s.broker, key.stream)|
      ensures Accounted(cfg, s, key, id)
    {
      assert GroupInv(s, key);
      if (key, id) in s.h.settled {
        assert SettlementInv(cfg, s, key, id, s.h.settled[(key, id)]);
      }
    }
  }

  /** In every state any run can reach, every entry is accounted for in every group. */
  lemma NoSilentLossEver(cfg: Config, steps: seq<Step>)
    requires Legal(cfg, Init(cfg), steps)
    ensures NoSilentLoss(cfg, Exec(cfg, Init(cfg), steps))
  {
    InitInv(cfg);
    RunInv(cfg, Init(cfg), steps);
    InvMeansNoSilentLoss(cfg, Exec(cfg, Init(cfg), steps));
  }

  lemma TwoSteps(cfg: Config, s: State, one: Step, two: Step)
    requires Enabled(cfg, s, one) && Enabled(cfg, Apply(cfg, s, one), two)
    ensures Legal(cfg, s, [one, two])
    ensures Exec(cfg, s, [one, two]) == Apply(cfg, Apply(cfg, s, one), two)
  {
    OneMoreStep(cfg, Apply(cfg, s, one), two, []);
    OneMoreStep(cfg, s, one, [two]);
    assert [two] + [] == [two] && [one] + [two] == [one, two];
  }

  function OnceChecked(cfg: Config, c: nat, id: nat, m: Message): Task
    requires ValidConsumer(cfg, c)
  {
    Task(c, id, if Accepts(cfg.consumers[c], m) then Running else Acking(Mismatched))
  }

  lemma ClaimAndCheck(cfg: Config, s: State, c: nat, id: nat)
    requires ValidConsumer(cfg, c) && GroupInv(s, KeyOf(cfg.consumers[c]))
    requires IsPending(s.broker, KeyOf(cfg.consumers[c]), id)
    ensures id < |EntriesFor(cfg, s, c)|
    ensures
      var again := [Claim(c, id), Check(s.nextTask)];
      && Legal(cfg, s, again)
      && Exec(cfg, s, again).tasks == s.tasks[s.nextTask := OnceChecked(cfg, c, id, EntriesFor(cfg, s, c)[id])]
  {
    var s1 := Apply(cfg, s, Claim(c, id));
    assert s1.tasks[s.nextTask] == Task(c, id, Fetched);
    TwoSteps(cfg, s, Claim(c, id), Check(s.nextTask));
  }

  /** Nothing pending is ever stuck: after any crashes, any consumer of the group can claim the
      entry again, and its handler starts if its pattern matches. */
  lemma PendingIsRecoverable(cfg: Config, steps: seq<Step>, c: nat, id: nat)
    requires Legal(cfg, Init(cfg), steps) && ValidConsumer(cfg, c)
    requires IsPending(Exec(cfg, Init(cfg), steps).broker, KeyOf(cfg.consumers[c]), id)
    ensures
      var s := Exec(cfg, Init(cfg), steps);
      var again := [Claim(c, id), Check(s.nextTask)];
      && id < |EntriesFor(cfg, s, c)|
      && Legal(cfg, s, again)
      && Exec(cfg, s, again).tasks == s.tasks[s.nextTask := OnceChecked(cfg, c, id, EntriesFor(cfg, s, c)[id])]
  {
    var s := Exec(cfg, Init(cfg), steps);
    InitInv(cfg);
    RunInv(cfg, Init(cfg), steps);
    KeyListed(cfg, c);
    ClaimAndCheck(cfg, s, c, id);
  }
}
