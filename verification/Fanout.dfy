/** How many handler runs retries can cause. A retry copy goes back to its topic, so every group
    of the stream sees it; still the runs are bounded, because every copy counts one up. */
module Fanout {
  import opened Decimal
  import opened Routing
  import opened Messages
  import opened Sums
  import opened Delivery

  // ---------------------------------------------------------------- weights

  /** The most handler runs that one delivery at retry count `k` can cause on a stream with `g`
      groups, its own run and those of all retries included. */
  function Runs(g: nat, max: int, k: int): (r: nat)
    requires max < MAX_INT && MIN_INT <= k <= MAX_INT
    ensures r >= 1
    decreases if k == MAX_INT then 0x2_0000_0000_0000_0000 else if k < max then max - k else 0
  {
    1 + CopyRuns(g, max, k)
  }

  /** The runs that the retry copy of a failed delivery can cause. */
  function CopyRuns(g: nat, max: int, k: int): nat
    requires max < MAX_INT && MIN_INT <= k <= MAX_INT
    decreases if k == MAX_INT then 0x2_0000_0000_0000_0000 else if k < max then max - k else 0, 0
  {
    if NextAttempt(k) <= max then g * Runs(g, max, NextAttempt(k)) else 0
  }

  function GroupsOn(cfg: Config, stream: string): set<GroupKey> {
    set key | key in Keys(cfg) && key.stream == stream
  }

  /** The runs one delivery of `m` from `stream` can cause. */
  function RunsOn(cfg: Config, stream: string, m: Message): nat
    requires cfg.maxRetries < MAX_INT
  {
    Runs(|GroupsOn(cfg, stream)|, cfg.maxRetries, Attempt(m.headers))
  }

  /** The runs a message can cause once it is on its stream, in all groups together. */
  function Weight(cfg: Config, m: Message): nat
    requires cfg.maxRetries < MAX_INT
  {
    var stream := RedisStream(m.topic);
    |GroupsOn(cfg, stream)| * RunsOn(cfg, stream, m)
  }

  lemma CarriedRuns(cfg: Config, stream: string, m: Message)
    requires cfg.maxRetries < MAX_INT
    ensures RunsOn(cfg, stream, Carried(m)) == RunsOn(cfg, stream, m)
  {
    assert RETRY_COUNT[0] == 'x';
  }

  lemma CopyWeight(cfg: Config, m: Message)
    requires cfg.maxRetries < MAX_INT && Next(m) <= cfg.maxRetries
    ensures Weight(cfg, RetryCopy(m)) == CopyRuns(|GroupsOn(cfg, RedisStream(m.topic))|, cfg.maxRetries, Attempt(m.headers))
  {
    RetryCopyCount(m);
  }

  // ---------------------------------------------------------------- what is still to come

  function UnreadRuns(cfg: Config, stream: string, es: seq<Message>, from: nat): nat
    requires cfg.maxRetries < MAX_INT
    decreases |es| - from
  {
    if from >= |es| then 0 else RunsOn(cfg, stream, es[from]) + UnreadRuns(cfg, stream, es, from + 1)
  }

  lemma {:induction false} UnreadAppend(cfg: Config, stream: string, es: seq<Message>, m: Message, from: nat)
    requires cfg.maxRetries < MAX_INT && from <= |es|
    ensures UnreadRuns(cfg, stream, es + [m], from) == UnreadRuns(cfg, stream, es, from) + RunsOn(cfg, stream, m)
    decreases |es| - from
  {
    if from < |es| {
      UnreadAppend(cfg, stream, es, m, from + 1);
    } else {
      assert UnreadRuns(cfg, stream, es + [m], from + 1) == 0;
    }
  }

  function GroupRuns(cfg: Config, s: State, key: GroupKey): nat
    requires cfg.maxRetries < MAX_INT
  {
    if key in s.broker.groups
    then UnreadRuns(cfg, key.stream, Entries(s.broker, key.stream), s.broker.groups[key].cursor)
    else 0
  }

  function TaskRuns(cfg: Config, s: State, t: nat): nat
    requires cfg.maxRetries < MAX_INT
  {
    if !ValidTask(cfg, s, t) then 0
    else
      var stream, m := KeyOf(cfg.consumers[s.tasks[t].consumer]).stream, MessageOf(cfg, s, t);
      match s.tasks[t].phase
      case Fetched => RunsOn(cfg, stream, m)
      case Running => CopyRuns(|GroupsOn(cfg, stream)|, cfg.maxRetries, Attempt(m.headers))
      case Failing => CopyRuns(|GroupsOn(cfg, stream)|, cfg.maxRetries, Attempt(m.headers))
      case Acking(_) => 0
  }

  ghost function UnreadTotal(cfg: Config, s: State): nat
    requires cfg.maxRetries < MAX_INT
  {
    Sum((key: GroupKey) => GroupRuns(cfg, s, key), Keys(cfg))
  }

  ghost function TaskTotal(cfg: Config, s: State): nat
    requires cfg.maxRetries < MAX_INT
  {
    Sum((t: nat) => TaskRuns(cfg, s, t), s.tasks.Keys)
  }

  ghost function OwedTotal(cfg: Config, owed: set<Message>): nat
    requires cfg.maxRetries < MAX_INT
  {
    Sum((m: Message) => Weight(cfg, m), owed)
  }

  /** All handler runs that can still come of what is unread, in work, or waiting in the delay
      set for its first XADD. */
  ghost function Potential(cfg: Config, s: State): nat
    requires cfg.maxRetries < MAX_INT
  {
    UnreadTotal(cfg, s) + TaskTotal(cfg, s) + OwedTotal(cfg, s.h.owed)
  }

  // ---------------------------------------------------------------- how the parts change

  lemma AppendRaises(cfg: Config, s: State, s': State, m: Message)
    requires cfg.maxRetries < MAX_INT && GroupsInv(cfg, s) && s'.broker == XAdd(s.broker, m)
    ensures UnreadTotal(cfg, s') == UnreadTotal(cfg, s) + Weight(cfg, m)
  {
    var stream := RedisStream(m.topic);
    var f, g := (key: GroupKey) => GroupRuns(cfg, s, key), (key: GroupKey) => GroupRuns(cfg, s', key);
    forall key | key in Keys(cfg)
      ensures g(key) == f(key) + if key in GroupsOn(cfg, stream) then RunsOn(cfg, stream, m) else 0
    {
      assert GroupInv(s, key);
      if key.stream == stream {
        UnreadAppend(cfg, stream, Entries(s.broker, stream), Carried(m), s.broker.groups[key].cursor);
        CarriedRuns(cfg, stream, m);
      }
    }
    SumRaise(f, g, Keys(cfg), GroupsOn(cfg, stream), RunsOn(cfg, stream, m));
  }

  lemma ReadLowersGroup(cfg: Config, s: State, c: nat)
    requires cfg.maxRetries < MAX_INT && Enabled(cfg, s, Read(c))
    ensures
      var s', key := Apply(cfg, s, Read(c)), KeyOf(cfg.consumers[c]);
      && GroupRuns(cfg, s, key) ==
           GroupRuns(cfg, s', key) + RunsOn(cfg, key.stream, Entries(s.broker, key.stream)[s.broker.groups[key].cursor])
      && forall k | k != key :: GroupRuns(cfg, s', k) == GroupRuns(cfg, s, k)
  {
  }

  lemma ReadLowers(cfg: Config, s: State, c: nat)
    requires cfg.maxRetries < MAX_INT && Inv(cfg, s) && Enabled(cfg, s, Read(c))
    ensures
      var s', key := Apply(cfg, s, Read(c)), KeyOf(cfg.consumers[c]);
      UnreadTotal(cfg, s) ==
        UnreadTotal(cfg, s') + RunsOn(cfg, key.stream, Entries(s.broker, key.stream)[s.broker.groups[key].cursor])
  {
    var s', key := Apply(cfg, s, Read(c)), KeyOf(cfg.consumers[c]);
    KeyListed(cfg, c);
    ReadLowersGroup(cfg, s, c);
    SumChange((k: GroupKey) => GroupRuns(cfg, s, k), (k: GroupKey) => GroupRuns(cfg, s', k), Keys(cfg), key);
  }

  lemma UnreadSame(cfg: Config, s: State, s': State)
    requires cfg.maxRetries < MAX_INT && s'.broker.streams == s.broker.streams
    requires forall key | key in s.broker.groups || key in s'.broker.groups ::
               && key in s.broker.groups && key in s'.broker.groups
               && s'.broker.groups[key].cursor == s.broker.groups[key].cursor
    ensures UnreadTotal(cfg, s') == UnreadTotal(cfg, s)
  {
    SumSame((k: GroupKey) => GroupRuns(cfg, s, k), (k: GroupKey) => GroupRuns(cfg, s', k), Keys(cfg));
  }

  lemma TaskRunsKept(cfg: Config, s: State, s': State, t: nat)
    requires cfg.maxRetries < MAX_INT && TasksInv(cfg, s) && Grows(s, s')
    requires t in s.tasks && t in s'.tasks && s'.tasks[t] == s.tasks[t]
    ensures TaskRuns(cfg, s', t) == TaskRuns(cfg, s, t)
  {
    assert PhaseInv(cfg, s, s.tasks[t]);
    assert EntriesFor(cfg, s, s.tasks[t].consumer) <= EntriesFor(cfg, s', s.tasks[t].consumer);
  }

  lemma TasksSame(cfg: Config, s: State, s': State)
    requires cfg.maxRetries < MAX_INT && TasksInv(cfg, s) && Grows(s, s') && s'.tasks == s.tasks
    ensures TaskTotal(cfg, s') == TaskTotal(cfg, s)
  {
    forall t | t in s.tasks ensures TaskRuns(cfg, s', t) == TaskRuns(cfg, s, t) {
      TaskRunsKept(cfg, s, s', t);
    }
    SumSame((t: nat) => TaskRuns(cfg, s, t), (t: nat) => TaskRuns(cfg, s', t), s.tasks.Keys);
  }

  lemma TaskStarted(cfg: Config, s: State, s': State, task: Task)
    requires cfg.maxRetries < MAX_INT && TasksInv(cfg, s) && Grows(s, s')
    requires s'.tasks == s.tasks[s.nextTask := task]
    ensures TaskTotal(cfg, s') == TaskTotal(cfg, s) + TaskRuns(cfg, s', s.nextTask)
  {
    var f, g := (t: nat) => TaskRuns(cfg, s, t), (t: nat) => TaskRuns(cfg, s', t);
    assert s.nextTask !in s.tasks;
    forall t | t in s.tasks ensures f(t) == g(t) {
      TaskRunsKept(cfg, s, s', t);
    }
    assert s'.tasks.Keys == s.tasks.Keys + {s.nextTask} && s.tasks.Keys - {s.nextTask} == s.tasks.Keys;
    SumAdd(g, s.tasks.Keys, s.nextTask);
    SumSame(f, g, s.tasks.Keys);
  }

  lemma TaskMoved(cfg: Config, s: State, s': State, t: nat, task: Task)
    requires cfg.maxRetries < MAX_INT && TasksInv(cfg, s) && Grows(s, s')
    requires t in s.tasks && s'.tasks == s.tasks[t := task]
    ensures TaskTotal(cfg, s') + TaskRuns(cfg, s, t) == TaskTotal(cfg, s) + TaskRuns(cfg, s', t)
  {
    var f, g := (u: nat) => TaskRuns(cfg, s, u), (u: nat) => TaskRuns(cfg, s', u);
    forall u | u in s.tasks && u != t ensures f(u) == g(u) {
      TaskRunsKept(cfg, s, s', u);
    }
    assert s'.tasks.Keys == s.tasks.Keys;
    SumChange(f, g, s.tasks.Keys, t);
  }

  lemma TaskEnded(cfg: Config, s: State, s': State, t: nat)
    requires cfg.maxRetries < MAX_INT && TasksInv(cfg, s) && Grows(s, s')
    requires t in s.tasks && s'.tasks == s.tasks - {t}
    ensures TaskTotal(cfg, s') + TaskRuns(cfg, s, t) == TaskTotal(cfg, s)
  {
    var f, g := (u: nat) => TaskRuns(cfg, s, u), (u: nat) => TaskRuns(cfg, s', u);
    forall u | u in s'.tasks ensures f(u) == g(u) {
      TaskRunsKept(cfg, s, s', u);
    }
    assert s'.tasks.Keys == s.tasks.Keys - {t};
    SumTake(f, s.tasks.Keys, t);
    SumSame(f, g, s'.tasks.Keys);
  }

  lemma OwedMore(cfg: Config, owed: set<Message>, m: Message)
    requires cfg.maxRetries < MAX_INT
    ensures OwedTotal(cfg, owed + {m}) <= OwedTotal(cfg, owed) + Weight(cfg, m)
    ensures m in owed ==> OwedTotal(cfg, owed) == OwedTotal(cfg, owed - {m}) + Weight(cfg, m)
  {
    var f := (x: Message) => Weight(cfg, x);
    if m in owed {
      assert owed + {m} == owed;
      SumTake(f, owed, m);
    } else {
      assert owed - {m} == owed;
      SumAdd(f, owed, m);
    }
  }

  // ---------------------------------------------------------------- the balance

  /** A step that starts a handler. */
  predicate StartsHandler(cfg: Config, s: State, step: Step)
    requires Enabled(cfg, s, step)
  {
    step.Check? && Accepts(cfg.consumers[s.tasks[step.t].consumer], MessageOf(cfg, s, step.t))
  }

  /** The runs that a step adds from outside: a producer's message, a redelivery of a pending
      entry, or a second transfer of an item that was already transferred. */
  function Charge(cfg: Config, s: State, step: Step): nat
    requires cfg.maxRetries < MAX_INT && Inv(cfg, s) && Enabled(cfg, s, step)
  {
    match step
    case Publish(m) => Weight(cfg, m)
    case Postpone(m, score) => Weight(cfg, m)
    case Claim(c, id) =>
      var es, stream := EntriesFor(cfg, s, c), KeyOf(cfg.consumers[c]).stream;
      if id < |es| then RunsOn(cfg, stream, es[id]) else 0
    case Transfer(p, ok) => if ok && s.passes[p].batch[0] !in s.h.owed then Weight(cfg, s.passes[p].batch[0]) else 0
    case _ => 0
  }

  ghost predicate Balanced(cfg: Config, s: State, step: Step)
    requires cfg.maxRetries < MAX_INT && Inv(cfg, s) && Enabled(cfg, s, step)
  {
    (if StartsHandler(cfg, s, step) then 1 else 0) + Potential(cfg, Apply(cfg, s, step))
      <= Potential(cfg, s) + Charge(cfg, s, step)
  }

  lemma FetchBalance(cfg: Config, s: State, step: Step)
    requires cfg.maxRetries < MAX_INT && Inv(cfg, s) && Enabled(cfg, s, step) && (step.Read? || step.Claim?)
    ensures Balanced(cfg, s, step)
  {
    var s' := Apply(cfg, s, step);
    StepGrows(cfg, s, step);
    KeyListed(cfg, step.c);
    assert GroupInv(s, KeyOf(cfg.consumers[step.c]));
    TaskStarted(cfg, s, s', s'.tasks[s.nextTask]);
    if step.Read? {
      ReadLowers(cfg, s, step.c);
    } else {
      UnreadSame(cfg, s, s');
    }
  }

  lemma CheckRuns(cfg: Config, s: State, t: nat)
    requires cfg.maxRetries < MAX_INT && Enabled(cfg, s, Check(t))
    ensures TaskRuns(cfg, Apply(cfg, s, Check(t)), t) + (if StartsHandler(cfg, s, Check(t)) then 1 else 0)
            <= TaskRuns(cfg, s, t)
  {
    var s' := Apply(cfg, s, Check(t));
    assert ValidTask(cfg, s', t) && MessageOf(cfg, s', t) == MessageOf(cfg, s, t);
  }

  lemma FinishRuns(cfg: Config, s: State, t: nat, ok: bool)
    requires cfg.maxRetries < MAX_INT && Enabled(cfg, s, Finish(t, ok))
    ensures TaskRuns(cfg, Apply(cfg, s, Finish(t, ok)), t) <= TaskRuns(cfg, s, t)
  {
    var s' := Apply(cfg, s, Finish(t, ok));
    assert ValidTask(cfg, s', t) && MessageOf(cfg, s', t) == MessageOf(cfg, s, t);
  }

  lemma HandlerBalance(cfg: Config, s: State, step: Step)
    requires cfg.maxRetries < MAX_INT && Inv(cfg, s) && Enabled(cfg, s, step) && (step.Check? || step.Finish?)
    ensures Balanced(cfg, s, step)
  {
    var s' := Apply(cfg, s, step);
    StepGrows(cfg, s, step);
    if step.Check? {
      CheckRuns(cfg, s, step.t);
    } else {
      FinishRuns(cfg, s, step.t, step.ok);
    }
    assert s'.broker == s.broker && s'.h.owed == s.h.owed && s'.tasks == s.tasks[step.t := s'.tasks[step.t]];
    TaskMoved(cfg, s, s', step.t, s'.tasks[step.t]);
    UnreadSame(cfg, s, s');
  }

  lemma RescheduleRuns(cfg: Config, s: State, step: Step)
    requires cfg.maxRetries < MAX_INT && Inv(cfg, s) && EntriesRouted(s) && Enabled(cfg, s, step) && step.Reschedule?
    ensures TaskRuns(cfg, s, step.t) == Weight(cfg, RetryCopy(MessageOf(cfg, s, step.t)))
  {
    var task, m := s.tasks[step.t], MessageOf(cfg, s, step.t);
    assert PhaseInv(cfg, s, task);
    assert RedisStream(EntriesFor(cfg, s, task.consumer)[task.entry].topic) == KeyOf(cfg.consumers[task.consumer]).stream;
    CopyWeight(cfg, m);
  }

  lemma PutOffBalance(cfg: Config, s: State, step: Step)
    requires cfg.maxRetries < MAX_INT && Inv(cfg, s) && EntriesRouted(s) && Enabled(cfg, s, step) && step.Reschedule?
    ensures
      var s' := Apply(cfg, s, step);
      OwedTotal(cfg, s'.h.owed) <= OwedTotal(cfg, s.h.owed) + TaskRuns(cfg, s, step.t)
  {
    RescheduleRuns(cfg, s, step);
    OwedMore(cfg, s.h.owed, RetryCopy(MessageOf(cfg, s, step.t)));
  }

  lemma RescheduleTasks(cfg: Config, s: State, step: Step)
    requires cfg.maxRetries < MAX_INT && Inv(cfg, s) && Enabled(cfg, s, step) && step.Reschedule?
    ensures TaskTotal(cfg, Apply(cfg, s, step)) + TaskRuns(cfg, s, step.t) <= TaskTotal(cfg, s)
  {
    var s' := Apply(cfg, s, step);
    StepGrows(cfg, s, step);
    if step.reported {
      TaskMoved(cfg, s, s', step.t, s'.tasks[step.t]);
    } else {
      TaskEnded(cfg, s, s', step.t);
    }
  }

  lemma RescheduleBalance(cfg: Config, s: State, step: Step)
    requires cfg.maxRetries < MAX_INT && Inv(cfg, s) && EntriesRouted(s) && Enabled(cfg, s, step) && step.Reschedule?
    ensures Balanced(cfg, s, step)
  {
    UnreadSame(cfg, s, Apply(cfg, s, step));
    PutOffBalance(cfg, s, step);
    RescheduleTasks(cfg, s, step);
  }

  lemma EndBalance(cfg: Config, s: State, step: Step)
    requires cfg.maxRetries < MAX_INT && Inv(cfg, s) && Enabled(cfg, s, step) && (step.Ack? || step.Crash?)
    ensures Balanced(cfg, s, step)
  {
    var s' := Apply(cfg, s, step);
    StepGrows(cfg, s, step);
    UnreadSame(cfg, s, s');
    TaskEnded(cfg, s, s', step.t);
  }

  lemma ProducerBalance(cfg: Config, s: State, step: Step)
    requires cfg.maxRetries < MAX_INT && Inv(cfg, s) && Enabled(cfg, s, step) && (step.Publish? || step.Postpone?)
    ensures Balanced(cfg, s, step)
  {
    var s' := Apply(cfg, s, step);
    StepGrows(cfg, s, step);
    TasksSame(cfg, s, s');
    if step.Publish? {
      AppendRaises(cfg, s, s', step.m);
    } else {
      UnreadSame(cfg, s, s');
      OwedMore(cfg, s.h.owed, step.m);
    }
  }

  lemma SchedulerBalance(cfg: Config, s: State, step: Step)
    requires cfg.maxRetries < MAX_INT && Inv(cfg, s) && Enabled(cfg, s, step)
    requires step.Scan? || step.Transfer? || step.Remove? || step.Stop?
    ensures Balanced(cfg, s, step)
  {
    var s' := Apply(cfg, s, step);
    StepGrows(cfg, s, step);
    TasksSame(cfg, s, s');
    if step.Transfer? && step.ok {
      var m := s.passes[step.p].batch[0];
      AppendRaises(cfg, s, s', m);
      OwedMore(cfg, s.h.owed, m);
      assert m !in s.h.owed ==> s.h.owed - {m} == s.h.owed;
    } else {
      UnreadSame(cfg, s, s');
      if step.Remove? && step.applied {
        var m := s.passes[step.p].batch[0];
        OwedMore(cfg, s.h.owed, m);
        assert m !in s.h.owed ==> s.h.owed - {m} == s.h.owed;
      }
    }
  }

  lemma StepBalance(cfg: Config, s: State, step: Step)
    requires cfg.maxRetries < MAX_INT && Inv(cfg, s) && EntriesRouted(s) && Enabled(cfg, s, step)
    ensures Balanced(cfg, s, step)
  {
    if step.Read? || step.Claim? {
      FetchBalance(cfg, s, step);
    } else if step.Check? || step.Finish? {
      HandlerBalance(cfg, s, step);
    } else if step.Reschedule? {
      RescheduleBalance(cfg, s, step);
    } else if step.Ack? || step.Crash? {
      EndBalance(cfg, s, step);
    } else if step.Publish? || step.Postpone? {
      ProducerBalance(cfg, s, step);
    } else {
      SchedulerBalance(cfg, s, step);
    }
  }

  // ---------------------------------------------------------------- whole runs

  /** The handlers started during a run. */
  function HandlerRuns(cfg: Config, s: State, steps: seq<Step>): nat
    requires Legal(cfg, s, steps)
    decreases |steps|
  {
    if |steps| == 0 then 0
    else (if StartsHandler(cfg, s, steps[0]) then 1 else 0) + HandlerRuns(cfg, Apply(cfg, s, steps[0]), steps[1..])
  }

  /** The charges of all steps of a run. */
  ghost function Charges(cfg: Config, s: State, steps: seq<Step>): nat
    requires cfg.maxRetries < MAX_INT && Inv(cfg, s) && Legal(cfg, s, steps)
    decreases |steps|
  {
    if |steps| == 0 then 0
    else
      StepInv(cfg, s, steps[0]);
      Charge(cfg, s, steps[0]) + Charges(cfg, Apply(cfg, s, steps[0]), steps[1..])
  }

  /** Over any run, the handlers started and the runs still to come are paid for by what came in
      from outside. */
  lemma {:induction false} RunBalance(cfg: Config, s: State, steps: seq<Step>)
    requires cfg.maxRetries < MAX_INT && Inv(cfg, s) && EntriesRouted(s) && Legal(cfg, s, steps)
    ensures HandlerRuns(cfg, s, steps) + Potential(cfg, Exec(cfg, s, steps)) <= Potential(cfg, s) + Charges(cfg, s, steps)
    decreases |steps|
  {
    if |steps| > 0 {
      StepInv(cfg, s, steps[0]);
      StepBalance(cfg, s, steps[0]);
      RoutedStep(cfg, s, steps[0]);
      RunBalance(cfg, Apply(cfg, s, steps[0]), steps[1..]);
    }
  }

  lemma InitPotential(cfg: Config)
    requires cfg.maxRetries < MAX_INT
    ensures Potential(cfg, Init(cfg)) == 0
  {
    SumZero((key: GroupKey) => GroupRuns(cfg, Init(cfg), key), Keys(cfg));
  }

  lemma {:induction false} SumZero<T(!new)>(f: T -> nat, s: set<T>)
    requires forall x | x in s :: f(x) == 0
    ensures Sum(f, s) == 0
    decreases s
  {
    if s != {} {
      var x :| x in s;
      SumTake(f, s, x);
      SumZero(f, s - {x});
    }
  }

  /** From an empty broker, handler runs never exceed the charges, whatever fails and however
      the steps interleave. */
  lemma HandlerRunsBounded(cfg: Config, steps: seq<Step>)
    requires cfg.maxRetries < MAX_INT && Legal(cfg, Init(cfg), steps)
    ensures Inv(cfg, Init(cfg)) && HandlerRuns(cfg, Init(cfg), steps) <= Charges(cfg, Init(cfg), steps)
  {
    InitInv(cfg);
    InitPotential(cfg);
    RunBalance(cfg, Init(cfg), steps);
  }

  // ---------------------------------------------------------------- one message

  /** Nothing comes in from outside: no producer, no redelivery, no repeated transfer. */
  predicate Undisturbed(cfg: Config, s: State, steps: seq<Step>)
    requires Legal(cfg, s, steps)
    decreases |steps|
  {
    |steps| > 0 ==>
      && !steps[0].Publish? && !steps[0].Postpone? && !steps[0].Claim?
      && (steps[0].Transfer? && steps[0].ok ==> s.passes[steps[0].p].batch[0] in s.h.owed)
      && Undisturbed(cfg, Apply(cfg, s, steps[0]), steps[1..])
  }

  lemma {:induction false} UndisturbedIsFree(cfg: Config, s: State, steps: seq<Step>)
    requires cfg.maxRetries < MAX_INT && Inv(cfg, s) && Legal(cfg, s, steps) && Undisturbed(cfg, s, steps)
    ensures Charges(cfg, s, steps) == 0
    decreases |steps|
  {
    if |steps| > 0 {
      StepInv(cfg, s, steps[0]);
      UndisturbedIsFree(cfg, Apply(cfg, s, steps[0]), steps[1..]);
    }
  }

  function Power(g: nat, n: nat): nat {
    if n == 0 then 1 else g * Power(g, n - 1)
  }

  /** g + g^2 + ... + g^n. */
  function PowerSum(g: nat, n: nat): nat {
    if n == 0 then 0 else Power(g, n) + PowerSum(g, n - 1)
  }

  lemma {:induction false} PowerSumShift(g: nat, n: nat)
    ensures PowerSum(g, n + 1) == g * (1 + PowerSum(g, n))
  {
    if n == 0 {
      assert Power(g, 1) == g * Power(g, 0);
    } else {
      PowerSumShift(g, n - 1);
      Distribute(g, Power(g, n), 1 + PowerSum(g, n - 1));
    }
  }

  lemma Distribute(g: nat, a: nat, b: nat)
    ensures g * (a + b) == g * a + g * b
  {
  }

  lemma {:induction false} RunsClosedForm(g: nat, max: int, k: int)
    requires 0 <= k <= max < MAX_INT
    ensures g * Runs(g, max, k) == PowerSum(g, max - k + 1)
    decreases max - k
  {
    PowerSumShift(g, max - k);
    if k < max {
      RunsClosedForm(g, max, k + 1);
    } else {
      assert Runs(g, max, k) == 1;
    }
  }

  /** One message published at count zero to a stream with g groups causes at most
      g + g^2 + ... + g^(MaxRetries+1) handler runs, even if every handler always fails. */
  lemma OneMessageBound(cfg: Config, m: Message, steps: seq<Step>)
    requires 0 <= cfg.maxRetries < MAX_INT && Attempt(m.headers) == 0
    requires |steps| > 0 && steps[0] == Publish(m) && Legal(cfg, Init(cfg), steps)
    requires Undisturbed(cfg, Apply(cfg, Init(cfg), steps[0]), steps[1..])
    ensures HandlerRuns(cfg, Init(cfg), steps) <= PowerSum(|GroupsOn(cfg, RedisStream(m.topic))|, cfg.maxRetries + 1)
  {
    HandlerRunsBounded(cfg, steps);
    StepInv(cfg, Init(cfg), steps[0]);
    UndisturbedIsFree(cfg, Apply(cfg, Init(cfg), steps[0]), steps[1..]);
    RunsClosedForm(|GroupsOn(cfg, RedisStream(m.topic))|, cfg.maxRetries, 0);
  }

  /** The same for any message without a count in its headers, such as every event and cron firing. */
  lemma FreshMessageBound(cfg: Config, m: Message, steps: seq<Step>)
    requires 0 <= cfg.maxRetries < MAX_INT && "x-retry-count" !in m.headers
    requires |steps| > 0 && steps[0] == Publish(m) && Legal(cfg, Init(cfg), steps)
    requires Undisturbed(cfg, Apply(cfg, Init(cfg), steps[0]), steps[1..])
    ensures HandlerRuns(cfg, Init(cfg), steps) <= PowerSum(|GroupsOn(cfg, RedisStream(m.topic))|, cfg.maxRetries + 1)
  {
    FirstCopy(m);
    OneMessageBound(cfg, m, steps);
  }

  /** What comes in from outside is charged in numbers: a producer's message at count k, or one
      transferred once more, by g + ... + g^(MaxRetries-k+1); a redelivery, which concerns one of
      the g groups, by one g-th of that. */
  lemma ChargesInNumbers(cfg: Config, s: State, step: Step, m: Message)
    requires 0 <= Attempt(m.headers) <= cfg.maxRetries < MAX_INT && Inv(cfg, s) && EntriesRouted(s) && Enabled(cfg, s, step)
    ensures
      var g, most := |GroupsOn(cfg, RedisStream(m.topic))|, cfg.maxRetries - Attempt(m.headers) + 1;
      && (step == Publish(m) || (step.Postpone? && step.m == m) ==> Charge(cfg, s, step) == PowerSum(g, most))
      && (step.Transfer? && s.passes[step.p].batch[0] == m ==>
            Charge(cfg, s, step) == if step.ok && m !in s.h.owed then PowerSum(g, most) else 0)
      && (step.Claim? && step.id < |EntriesFor(cfg, s, step.c)| && EntriesFor(cfg, s, step.c)[step.id] == m ==>
            g * Charge(cfg, s, step) == PowerSum(g, most))
      && (!step.Publish? && !step.Postpone? && !step.Transfer? && !step.Claim? ==> Charge(cfg, s, step) == 0)
  {
    RunsClosedForm(|GroupsOn(cfg, RedisStream(m.topic))|, cfg.maxRetries, Attempt(m.headers));
    if step.Claim? && step.id < |EntriesFor(cfg, s, step.c)| && EntriesFor(cfg, s, step.c)[step.id] == m {
      assert RedisStream(Entries(s.broker, KeyOf(cfg.consumers[step.c]).stream)[step.id].topic) == KeyOf(cfg.consumers[step.c]).stream;
    }
  }

  /** With one group the bound is one run and one for each retry. */
  lemma {:induction false} OneGroup(n: nat)
    ensures Power(1, n) == 1 && PowerSum(1, n) == n
  {
    if n > 0 {
      OneGroup(n - 1);
    }
  }
}
