/** The delivery protocol with its clock: a run of `Delivery` in which every step has a time is, for
    the delay set, a history of `DelayTiming`, so what holds of all histories holds of all runs. */
module DeliveryTiming {
  import opened Messages
  import opened ZSets
  import opened Scheduler
  import D = Delivery
  import T = DelayTiming
  import R = RedisAdapter

  /** A step, when it happens, and, for a step that puts a message off, by how long. */
  datatype Timed = Timed(step: D.Step, time: int, wait: int)

  /** Messages are put off to the millisecond asked for, and range reads give what is due. */
  predicate OnTime(s: D.State, t: Timed) {
    match t.step
    case Postpone(m, score) => score == UnixMilli(t.time + t.wait)
    case Reschedule(_, due, _, _) => due == UnixMilli(t.time + t.wait)
    case Scan(p, batch) => batch == R.Payloads(ZRange(s.broker.delay, UnixMilli(t.time), BATCH))
    case _ => true
  }

  predicate Run(cfg: D.Config, s: D.State, run: seq<Timed>, from: int)
    decreases |run|
  {
    |run| > 0 ==>
      var t := run[0];
      && from <= t.time && D.Enabled(cfg, s, t.step) && OnTime(s, t)
      && Run(cfg, D.Apply(cfg, s, t.step), run[1..], t.time)
  }

  function Last(cfg: D.Config, s: D.State, run: seq<Timed>, from: int): (D.State, int)
    requires Run(cfg, s, run, from)
    decreases |run|
  {
    if |run| == 0 then (s, from) else Last(cfg, D.Apply(cfg, s, run[0].step), run[1..], run[0].time)
  }

  /** What a step is for the delay set. */
  function Commands(cfg: D.Config, s: D.State, t: Timed): seq<T.Command<Message>>
    requires D.Enabled(cfg, s, t.step)
  {
    match t.step
    case Postpone(m, score) => [T.Put(m, t.time, t.wait)]
    case Reschedule(k, due, applied, reported) =>
      if applied then [T.Put(RetryCopy(D.MessageOf(cfg, s, k)), t.time, t.wait)] else []
    case Scan(p, batch) => [T.Pick(p, t.time)]
    case Transfer(p, ok) => [T.Send(p, t.time)]
    case Remove(p, applied) => [T.Drop(p, t.time, applied)]
    case Stop(p) => [T.Quit(p, t.time)]
    case _ => []
  }

  function AllCommands(cfg: D.Config, s: D.State, run: seq<Timed>, from: int): seq<T.Command<Message>>
    requires Run(cfg, s, run, from)
    decreases |run|
  {
    if |run| == 0 then []
    else Commands(cfg, s, run[0]) + AllCommands(cfg, D.Apply(cfg, s, run[0].step), run[1..], run[0].time)
  }

  /** The same delay set, and the same items in the hands of the same schedulers. */
  ghost predicate Agree(s: D.State, d: T.Delayed<Message>) {
    && d.z == s.broker.delay
    && d.passes.Keys == s.passes.Keys
    && forall p | p in s.passes ::
         s.passes[p].batch == R.Payloads(d.passes[p].batch) && s.passes[p].sent == d.passes[p].sent
  }

  lemma PayloadsFront(batch: ZSet<Message>)
    ensures R.Payloads(batch) == [] <==> |batch| == 0
    ensures |batch| > 0 ==> R.Payloads(batch)[0] == batch[0].member && R.Payloads(batch)[1..] == R.Payloads(batch[1..])
  {
  }

  ghost predicate Caught(s: D.State, history: seq<T.Command<Message>>, now: int) {
    && T.History(history) && Agree(s, T.After(history))
    && (|history| > 0 ==> T.Now(history) <= now)
  }

  lemma CatchCommand(s: D.State, s': D.State, c: T.Command<Message>, history: seq<T.Command<Message>>, from: int)
    requires Caught(s, history, from) && from <= c.time && T.Enabled(T.After(history), c)
    requires Agree(s', T.Step(T.After(history), c))
    ensures Caught(s', history + [c], c.time)
  {
    T.NextCommand(history, c);
  }

  lemma CatchNothing(s: D.State, s': D.State, history: seq<T.Command<Message>>, from: int, time: int)
    requires Caught(s, history, from) && from <= time && s'.passes == s.passes && s'.broker.delay == s.broker.delay
    ensures Caught(s', history + [], time)
  {
    assert history + [] == history;
  }

  lemma AgreeOnRemoval(cfg: D.Config, s: D.State, t: Timed, d: T.Delayed<Message>)
    requires Agree(s, d) && D.Enabled(cfg, s, t.step) && t.step.Remove?
    ensures T.Enabled(d, Commands(cfg, s, t)[0])
    ensures Agree(D.Apply(cfg, s, t.step), T.Step(d, Commands(cfg, s, t)[0]))
  {
    PayloadsFront(d.passes[t.step.p].batch);
  }

  lemma AgreeOnScan(cfg: D.Config, s: D.State, t: Timed, d: T.Delayed<Message>)
    requires Agree(s, d) && D.Enabled(cfg, s, t.step) && OnTime(s, t) && (t.step.Scan? || t.step.Transfer? || t.step.Stop?)
    ensures T.Enabled(d, Commands(cfg, s, t)[0])
    ensures Agree(D.Apply(cfg, s, t.step), T.Step(d, Commands(cfg, s, t)[0]))
  {
    if t.step.Transfer? {
      PayloadsFront(d.passes[t.step.p].batch);
    }
  }

  lemma AgreeOnPutOff(cfg: D.Config, s: D.State, t: Timed, d: T.Delayed<Message>)
    requires Agree(s, d) && D.Enabled(cfg, s, t.step) && OnTime(s, t)
    requires t.step.Postpone? || (t.step.Reschedule? && t.step.applied)
    ensures T.Enabled(d, Commands(cfg, s, t)[0])
    ensures Agree(D.Apply(cfg, s, t.step), T.Step(d, Commands(cfg, s, t)[0]))
  {
  }

  /** One command does to the delay set and the schedulers' items what the step does. */
  lemma AgreeOnCommand(cfg: D.Config, s: D.State, t: Timed, d: T.Delayed<Message>)
    requires Agree(s, d) && D.Enabled(cfg, s, t.step) && OnTime(s, t) && |Commands(cfg, s, t)| > 0
    ensures T.Enabled(d, Commands(cfg, s, t)[0])
    ensures Agree(D.Apply(cfg, s, t.step), T.Step(d, Commands(cfg, s, t)[0]))
  {
    if t.step.Remove? {
      AgreeOnRemoval(cfg, s, t, d);
    } else if t.step.Scan? || t.step.Transfer? || t.step.Stop? {
      AgreeOnScan(cfg, s, t, d);
    } else {
      assert t.step.Postpone? || (t.step.Reschedule? && t.step.applied);
      AgreeOnPutOff(cfg, s, t, d);
    }
  }

  lemma CatchStep(cfg: D.Config, s: D.State, t: Timed, history: seq<T.Command<Message>>, from: int)
    requires Caught(s, history, from) && from <= t.time && D.Enabled(cfg, s, t.step) && OnTime(s, t)
    ensures Caught(D.Apply(cfg, s, t.step), history + Commands(cfg, s, t), t.time)
  {
    var cs, s' := Commands(cfg, s, t), D.Apply(cfg, s, t.step);
    if |cs| > 0 {
      assert cs == [cs[0]] && cs[0].time == t.time;
      AgreeOnCommand(cfg, s, t, T.After(history));
      CatchCommand(s, s', cs[0], history, from);
    } else {
      assert cs == [];
      CatchNothing(s, s', history, from, t.time);
    }
  }

  lemma Regrouped(a: seq<T.Command<Message>>, b: seq<T.Command<Message>>, c: seq<T.Command<Message>>)
    ensures a + b + c == a + (b + c)
  {
  }

  lemma {:induction false} CatchRun(cfg: D.Config, s: D.State, run: seq<Timed>, from: int, history: seq<T.Command<Message>>)
    requires Run(cfg, s, run, from) && Caught(s, history, from)
    ensures
      var (s', now) := Last(cfg, s, run, from);
      Caught(s', history + AllCommands(cfg, s, run, from), now)
    decreases |run|
  {
    if |run| > 0 {
      var s', t := D.Apply(cfg, s, run[0].step), run[0];
      CatchStep(cfg, s, t, history, from);
      CatchRun(cfg, s', run[1..], t.time, history + Commands(cfg, s, t));
      Regrouped(history, Commands(cfg, s, t), AllCommands(cfg, s', run[1..], t.time));
    } else {
      CatchNothing(s, s, history, from, from);
    }
  }

  /** In any run of producers, consumers, handlers and schedulers, with any failures and crashes:
      a transfer comes a full millisecond or more before the time last asked for the message if and
      only if the message was put off again after the scheduler had read it, to a time that is still
      that far ahead. */
  lemma TransferPrematureIff(cfg: D.Config, run: seq<Timed>, from: int, p: nat, time: int)
    requires Run(cfg, D.Init(cfg), run, from)
    requires
      var (s, now) := Last(cfg, D.Init(cfg), run, from);
      now <= time && D.Enabled(cfg, s, D.Transfer(p, true))
    ensures
      var history := AllCommands(cfg, D.Init(cfg), run, from);
      var m := Last(cfg, D.Init(cfg), run, from).0.passes[p].batch[0];
      var since := T.Since(history, p);
      && T.PutOff(history, m)
      && (T.LastDue(history, m) - time >= 1_000_000 <==> T.PutOff(since, m) && T.LastDue(since, m) - time >= 1_000_000)
  {
    var (s, now) := Last(cfg, D.Init(cfg), run, from);
    var history := AllCommands(cfg, D.Init(cfg), run, from);
    CatchRun(cfg, D.Init(cfg), run, from, []);
    assert [] + history == history;
    PayloadsFront(T.After(history).passes[p].batch);
    T.NextCommand(history, T.Send(p, time));
    T.PrematureIff(history, p, time);
    T.HeldItems(history, p, T.After(history).passes[p].batch[0]);
  }
}
