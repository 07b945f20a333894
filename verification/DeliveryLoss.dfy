/** Where the Redis delivery protocol can lose a message, and exactly when: the scheduler ignores
    the result of XADD, the delay set is keyed by the whole message, and a consumer acknowledges
    what its own pattern does not match. */
module DeliveryLoss {
  import opened Topics
  import opened Routing
  import opened Messages
  import opened ZSets
  import opened Delivery

  // ---------------------------------------------------------------- the delay set

  /** ZREM throws away a message that no XADD has followed. */
  predicate LosesItem(s: State, step: Step) {
    step.Remove? && step.applied && step.p in s.passes && s.passes[step.p].batch != [] &&
    s.passes[step.p].batch[0] in s.h.owed
  }

  predicate NeverLosesItem(cfg: Config, s: State, steps: seq<Step>)
    requires Legal(cfg, s, steps)
    decreases |steps|
  {
    |steps| > 0 ==> !LosesItem(s, steps[0]) && NeverLosesItem(cfg, Apply(cfg, s, steps[0]), steps[1..])
  }

  lemma LostGrows(cfg: Config, s: State, step: Step)
    requires Enabled(cfg, s, step)
    ensures Apply(cfg, s, step).h.lost == s.h.lost + if LosesItem(s, step) then {s.passes[step.p].batch[0]} else {}
  {
  }

  lemma {:induction false} LostIff(cfg: Config, s: State, steps: seq<Step>)
    requires Legal(cfg, s, steps)
    ensures Exec(cfg, s, steps).h.lost == {} <==> s.h.lost == {} && NeverLosesItem(cfg, s, steps)
    decreases |steps|
  {
    if |steps| > 0 {
      LostGrows(cfg, s, steps[0]);
      LostIff(cfg, Apply(cfg, s, steps[0]), steps[1..]);
    }
  }

  /** A message that some scheduler has handed to XADD but not yet removed. */
  predicate InTransit(s: State, m: Message) {
    exists p | p in s.passes :: s.passes[p].sent && s.passes[p].batch != [] && s.passes[p].batch[0] == m
  }

  /** A step under ordinary conditions: the scheduler's XADD succeeds, unless the item was sent
      before and not put off since; and nobody puts a message into the delay set while an identical
      one is between its XADD and its ZREM. */
  predicate Ordinary(cfg: Config, s: State, step: Step)
    requires Enabled(cfg, s, step)
  {
    match step
    case Transfer(p, ok) => ok || s.passes[p].batch[0] !in s.h.owed
    case Postpone(m, score) => !InTransit(s, m)
    case Reschedule(t, due, applied, reported) => applied ==> !InTransit(s, RetryCopy(MessageOf(cfg, s, t)))
    case _ => true
  }

  predicate OrdinaryRun(cfg: Config, s: State, steps: seq<Step>)
    requires Legal(cfg, s, steps)
    decreases |steps|
  {
    |steps| > 0 ==> Ordinary(cfg, s, steps[0]) && OrdinaryRun(cfg, Apply(cfg, s, steps[0]), steps[1..])
  }

  ghost predicate TransitPaid(s: State) {
    forall p | p in s.passes && s.passes[p].sent && s.passes[p].batch != [] :: s.passes[p].batch[0] !in s.h.owed
  }

  lemma OrdinaryStep(cfg: Config, s: State, step: Step)
    requires Enabled(cfg, s, step) && Ordinary(cfg, s, step) && TransitPaid(s)
    ensures !LosesItem(s, step) && TransitPaid(Apply(cfg, s, step))
  {
  }

  lemma {:induction false} OrdinaryNeverLoses(cfg: Config, s: State, steps: seq<Step>)
    requires Legal(cfg, s, steps) && TransitPaid(s) && OrdinaryRun(cfg, s, steps)
    ensures NeverLosesItem(cfg, s, steps)
    decreases |steps|
  {
    if |steps| > 0 {
      OrdinaryStep(cfg, s, steps[0]);
      OrdinaryNeverLoses(cfg, Apply(cfg, s, steps[0]), steps[1..]);
    }
  }

  /** Under ordinary conditions every message ever put off, retry copies included, is still in
      the delay set or has reached its stream. */
  lemma PutOffNeverLost(cfg: Config, steps: seq<Step>, m: Message)
    requires Legal(cfg, Init(cfg), steps) && OrdinaryRun(cfg, Init(cfg), steps)
    requires m in Exec(cfg, Init(cfg), steps).h.zadded
    ensures
      var s := Exec(cfg, Init(cfg), steps);
      m in Members(s.broker.delay) || OnStream(s, m)
  {
    InitInv(cfg);
    RunInv(cfg, Init(cfg), steps);
    OrdinaryNeverLoses(cfg, Init(cfg), steps);
    LostIff(cfg, Init(cfg), steps);
  }

  predicate PutsOff(cfg: Config, s: State, step: Step, m: Message)
    requires Enabled(cfg, s, step)
  {
    (step.Postpone? && step.m == m) || (step.Reschedule? && step.applied && RetryCopy(MessageOf(cfg, s, step.t)) == m)
  }

  /** Somewhere in the run the scheduler's XADD of `m` succeeds. */
  predicate SentIn(cfg: Config, s: State, steps: seq<Step>, m: Message)
    requires Legal(cfg, s, steps)
    decreases |steps|
  {
    && |steps| > 0
    && ((steps[0].Transfer? && steps[0].ok && s.passes[steps[0].p].batch[0] == m) ||
        SentIn(cfg, Apply(cfg, s, steps[0]), steps[1..], m))
  }

  /** Each single time a message is put off, it is sent afterwards, or waits at the end. */
  ghost predicate EveryPutOffAnswered(cfg: Config, s: State, steps: seq<Step>)
    requires Legal(cfg, s, steps)
    decreases |steps|
  {
    |steps| > 0 ==>
      var s', rest := Apply(cfg, s, steps[0]), steps[1..];
      && EveryPutOffAnswered(cfg, s', rest)
      && forall m | PutsOff(cfg, s, steps[0], m) ::
           SentIn(cfg, s', rest, m) || m in Members(Exec(cfg, s', rest).broker.delay)
  }

  lemma OwedStep(cfg: Config, s: State, step: Step, m: Message)
    requires Enabled(cfg, s, step) && !LosesItem(s, step) && m in s.h.owed
    ensures m in Apply(cfg, s, step).h.owed || (step.Transfer? && step.ok && s.passes[step.p].batch[0] == m)
  {
  }

  lemma {:induction false} OwedUntilSent(cfg: Config, s: State, steps: seq<Step>, m: Message)
    requires Legal(cfg, s, steps) && NeverLosesItem(cfg, s, steps) && m in s.h.owed
    ensures SentIn(cfg, s, steps, m) || m in Exec(cfg, s, steps).h.owed
    decreases |steps|
  {
    if |steps| > 0 {
      OwedStep(cfg, s, steps[0], m);
      if m in Apply(cfg, s, steps[0]).h.owed {
        OwedUntilSent(cfg, Apply(cfg, s, steps[0]), steps[1..], m);
      }
    }
  }

  lemma {:induction false} PutOffsAnswered(cfg: Config, s: State, steps: seq<Step>)
    requires Legal(cfg, s, steps) && Inv(cfg, s) && NeverLosesItem(cfg, s, steps)
    ensures EveryPutOffAnswered(cfg, s, steps)
    decreases |steps|
  {
    if |steps| > 0 {
      var s', rest := Apply(cfg, s, steps[0]), steps[1..];
      StepInv(cfg, s, steps[0]);
      RunInv(cfg, s', rest);
      PutOffsAnswered(cfg, s', rest);
      forall m | PutsOff(cfg, s, steps[0], m)
        ensures SentIn(cfg, s', rest, m) || m in Members(Exec(cfg, s', rest).broker.delay)
      {
        OwedUntilSent(cfg, s', rest, m);
      }
    }
  }

  /** Under ordinary conditions every single delayed publication and retry copy, equal messages
      included, is sent to its stream afterwards or still waits. */
  lemma EveryPutOffIsSent(cfg: Config, steps: seq<Step>)
    requires Legal(cfg, Init(cfg), steps) && OrdinaryRun(cfg, Init(cfg), steps)
    ensures EveryPutOffAnswered(cfg, Init(cfg), steps)
  {
    InitInv(cfg);
    OrdinaryNeverLoses(cfg, Init(cfg), steps);
    PutOffsAnswered(cfg, Init(cfg), steps);
  }

  // ---------------------------------------------------------------- lost exactly when

  /** The next command may throw away a message that no XADD has followed. */
  ghost predicate AtRisk(cfg: Config, s: State) {
    exists step :: Enabled(cfg, s, step) && LosesItem(s, step)
  }

  lemma PaidIff(cfg: Config, s: State)
    ensures TransitPaid(s) <==> !AtRisk(cfg, s)
  {
    if !TransitPaid(s) {
      var p :| p in s.passes && s.passes[p].sent && s.passes[p].batch != [] && s.passes[p].batch[0] in s.h.owed;
      assert Enabled(cfg, s, Remove(p, true)) && LosesItem(s, Remove(p, true));
    }
  }

  /** A step out of the ordinary is what puts a message at risk. */
  lemma OrdinaryIff(cfg: Config, s: State, step: Step)
    requires Enabled(cfg, s, step) && TransitPaid(s)
    ensures TransitPaid(Apply(cfg, s, step)) <==> Ordinary(cfg, s, step)
  {
    var s' := Apply(cfg, s, step);
    if Ordinary(cfg, s, step) {
      OrdinaryStep(cfg, s, step);
    } else if step.Transfer? {
      assert s'.passes[step.p].sent && s'.passes[step.p].batch[0] in s'.h.owed;
    } else {
      var m := if step.Postpone? then step.m else RetryCopy(MessageOf(cfg, s, step.t));
      var p :| p in s.passes && s.passes[p].sent && s.passes[p].batch != [] && s.passes[p].batch[0] == m;
      assert s'.passes[p] == s.passes[p] && m in s'.h.owed;
    }
  }

  /** In no state along the run, the last included, is a message at risk. */
  ghost predicate NeverAtRisk(cfg: Config, s: State, steps: seq<Step>)
    requires Legal(cfg, s, steps)
    decreases |steps|
  {
    !AtRisk(cfg, s) && (|steps| > 0 ==> NeverAtRisk(cfg, Apply(cfg, s, steps[0]), steps[1..]))
  }

  lemma {:induction false} NeverAtRiskIff(cfg: Config, s: State, steps: seq<Step>)
    requires Legal(cfg, s, steps) && TransitPaid(s)
    ensures NeverAtRisk(cfg, s, steps) <==> OrdinaryRun(cfg, s, steps)
    decreases |steps|
  {
    PaidIff(cfg, s);
    if |steps| > 0 {
      var s' := Apply(cfg, s, steps[0]);
      OrdinaryIff(cfg, s, steps[0]);
      PaidIff(cfg, s');
      if TransitPaid(s') {
        NeverAtRiskIff(cfg, s', steps[1..]);
      }
    }
  }

  /** Whatever single command comes next, at the end or anywhere on the way, every put-off up to
      there is still answered. */
  ghost predicate AnsweredWhateverNext(cfg: Config, s: State, steps: seq<Step>)
    requires Legal(cfg, s, steps)
  {
    forall k: nat, next: Step | k <= |steps| && Legal(cfg, s, steps[..k] + [next]) ::
      EveryPutOffAnswered(cfg, s, steps[..k] + [next])
  }

  lemma {:induction false} NoRiskNoLoss(cfg: Config, s: State, steps: seq<Step>, k: nat, next: Step)
    requires Legal(cfg, s, steps) && NeverAtRisk(cfg, s, steps) && k <= |steps| && Legal(cfg, s, steps[..k] + [next])
    ensures NeverLosesItem(cfg, s, steps[..k] + [next])
    decreases k
  {
    var all := steps[..k] + [next];
    if k > 0 {
      assert all[0] == steps[0] && all[1..] == steps[1..][..k - 1] + [next];
      NoRiskNoLoss(cfg, Apply(cfg, s, steps[0]), steps[1..], k - 1, next);
    } else {
      assert all == [next];
    }
  }

  /** A ZREM that comes right after `steps` and takes `m` away unsent. */
  ghost predicate LosesNext(cfg: Config, s: State, steps: seq<Step>, next: Step, m: Message) {
    && Legal(cfg, s, steps) && Enabled(cfg, Exec(cfg, s, steps), next)
    && LosesItem(Exec(cfg, s, steps), next) && Exec(cfg, s, steps).passes[next.p].batch[0] == m
  }

  lemma {:induction false} RiskFound(cfg: Config, s: State, steps: seq<Step>) returns (k: nat, next: Step, m: Message)
    requires Legal(cfg, s, steps) && !NeverAtRisk(cfg, s, steps)
    ensures k <= |steps| && LosesNext(cfg, s, steps[..k], next, m)
    decreases |steps|
  {
    if AtRisk(cfg, s) {
      k := 0;
      next :| Enabled(cfg, s, next) && LosesItem(s, next);
      m := s.passes[next.p].batch[0];
    } else {
      var s' := Apply(cfg, s, steps[0]);
      var j;
      j, next, m := RiskFound(cfg, s', steps[1..]);
      k := j + 1;
      assert steps[..k] == [steps[0]] + steps[1..][..j];
      OneMoreStep(cfg, s, steps[0], steps[1..][..j]);
    }
  }

  lemma {:induction false} LostIsGone(cfg: Config, s: State, steps: seq<Step>, next: Step, m: Message)
    requires LosesNext(cfg, s, steps, next, m)
    ensures Legal(cfg, s, steps + [next]) && m !in Members(Exec(cfg, s, steps + [next]).broker.delay)
    decreases |steps|
  {
    if |steps| == 0 {
      assert steps + [next] == [next];
      ZRemMembers(s.broker.delay, m);
    } else {
      assert (steps + [next])[1..] == steps[1..] + [next];
      LostIsGone(cfg, Apply(cfg, s, steps[0]), steps[1..], next, m);
    }
  }

  /** The loss betrays itself: a put-off on the way, or one before, is neither sent nor waiting. */
  lemma {:induction false} LossIsUnanswered(cfg: Config, s: State, steps: seq<Step>, next: Step, m: Message)
    requires LosesNext(cfg, s, steps, next, m)
    ensures Legal(cfg, s, steps + [next])
    ensures EveryPutOffAnswered(cfg, s, steps + [next]) ==> m in s.h.owed && !SentIn(cfg, s, steps + [next], m)
    decreases |steps|
  {
    var all := steps + [next];
    LostIsGone(cfg, s, steps, next, m);
    if |steps| == 0 {
      assert all == [next];
    } else {
      assert all[0] == steps[0] && all[1..] == steps[1..] + [next];
      LossIsUnanswered(cfg, Apply(cfg, s, steps[0]), steps[1..], next, m);
      LostIsGone(cfg, Apply(cfg, s, steps[0]), steps[1..], next, m);
      if m in Apply(cfg, s, steps[0]).h.owed {
        OwedComesFrom(cfg, s, steps[0], m);
      }
    }
  }

  lemma OwedComesFrom(cfg: Config, s: State, step: Step, m: Message)
    requires Enabled(cfg, s, step) && m in Apply(cfg, s, step).h.owed
    ensures m in s.h.owed || PutsOff(cfg, s, step, m)
    ensures !(step.Transfer? && step.ok && s.passes[step.p].batch[0] == m)
  {
  }

  /** Every put-off is sent or waits, and goes on doing so whatever the next command is, if and
      only if every step was an ordinary one: no XADD of an unsent item failed, and nothing was put
      off while an identical message was between its XADD and its ZREM. */
  lemma AnsweredWhateverNextIff(cfg: Config, steps: seq<Step>)
    requires Legal(cfg, Init(cfg), steps)
    ensures AnsweredWhateverNext(cfg, Init(cfg), steps) <==> OrdinaryRun(cfg, Init(cfg), steps)
  {
    var s := Init(cfg);
    NeverAtRiskIff(cfg, s, steps);
    InitInv(cfg);
    if NeverAtRisk(cfg, s, steps) {
      forall k: nat, next: Step | k <= |steps| && Legal(cfg, s, steps[..k] + [next])
        ensures EveryPutOffAnswered(cfg, s, steps[..k] + [next])
      {
        NoRiskNoLoss(cfg, s, steps, k, next);
        PutOffsAnswered(cfg, s, steps[..k] + [next]);
      }
    } else {
      var k, next, m := RiskFound(cfg, s, steps);
      LossIsUnanswered(cfg, s, steps[..k], next, m);
    }
  }

  /** Out of the ordinary a message can vanish: the scheduler removes an item whose XADD failed. */
  lemma FailedTransferLoses(cfg: Config, m: Message)
    ensures
      var steps := [Postpone(m, 0), Scan(0, [m]), Transfer(0, false), Remove(0, true)];
      && Legal(cfg, Init(cfg), steps)
      && var s := Exec(cfg, Init(cfg), steps);
         m in s.h.zadded && m !in Members(s.broker.delay) && !OnStream(s, m)
  {
    var steps := [Postpone(m, 0), Scan(0, [m]), Transfer(0, false), Remove(0, true)];
    var s0 := Init(cfg);
    var s1 := Apply(cfg, s0, steps[0]);
    ZAddMembers(s0.broker.delay, m, 0);
    var s2 := Apply(cfg, s1, steps[1]);
    var s3 := Apply(cfg, s2, steps[2]);
    var s4 := Apply(cfg, s3, steps[3]);
    ZRemMembers(s3.broker.delay, m);
    FourSteps(cfg, s0, steps[0], steps[1], steps[2], steps[3]);
  }

  /** And an identical message put off between XADD and ZREM vanishes with the old one: of two
      it takes only one to the stream. */
  lemma ReaddedInTransitLoses(cfg: Config, m: Message)
    ensures
      var steps := [Postpone(m, 0), Scan(0, [m]), Transfer(0, true), Postpone(m, 1), Remove(0, true)];
      && Legal(cfg, Init(cfg), steps)
      && var s := Exec(cfg, Init(cfg), steps);
         m !in Members(s.broker.delay) && Entries(s.broker, RedisStream(m.topic)) == [Carried(m)] && s.h.lost == {m}
  {
    var s0 := Init(cfg);
    var s1 := Apply(cfg, s0, Postpone(m, 0));
    ZAddMembers(s0.broker.delay, m, 0);
    var s2 := Apply(cfg, s1, Scan(0, [m]));
    var s3 := Apply(cfg, s2, Transfer(0, true));
    var s4 := Apply(cfg, s3, Postpone(m, 1));
    var s5 := Apply(cfg, s4, Remove(0, true));
    ZRemMembers(s4.broker.delay, m);
    FourSteps(cfg, s1, Scan(0, [m]), Transfer(0, true), Postpone(m, 1), Remove(0, true));
    OneMoreStep(cfg, s0, Postpone(m, 0), [Scan(0, [m]), Transfer(0, true), Postpone(m, 1), Remove(0, true)]);
  }

  lemma FourSteps(cfg: Config, s: State, a: Step, b: Step, c: Step, d: Step)
    requires Enabled(cfg, s, a)
    requires Enabled(cfg, Apply(cfg, s, a), b)
    requires Enabled(cfg, Apply(cfg, Apply(cfg, s, a), b), c)
    requires Enabled(cfg, Apply(cfg, Apply(cfg, Apply(cfg, s, a), b), c), d)
    ensures Legal(cfg, s, [a, b, c, d])
    ensures Exec(cfg, s, [a, b, c, d]) == Apply(cfg, Apply(cfg, Apply(cfg, Apply(cfg, s, a), b), c), d)
  {
    var s1 := Apply(cfg, s, a);
    var s2 := Apply(cfg, s1, b);
    var s3 := Apply(cfg, s2, c);
    OneMoreStep(cfg, s3, d, []);
    OneMoreStep(cfg, s2, c, [d]);
    OneMoreStep(cfg, s1, b, [c, d]);
    OneMoreStep(cfg, s, a, [b, c, d]);
    assert [d] + [] == [d] && [c] + [d] == [c, d] && [b] + [c, d] == [b, c, d] && [a] + [b, c, d] == [a, b, c, d];
  }

  // ---------------------------------------------------------------- patterns within a group

  /** An entry was acknowledged as a mismatch although another consumer of the same group is
      waiting for exactly such topics. */
  ghost predicate DropsMatch(cfg: Config, s: State, c: nat, id: nat) {
    && ValidConsumer(cfg, c)
    && var key := KeyOf(cfg.consumers[c]);
       && (key, id) in s.h.settled && s.h.settled[(key, id)].reason.Mismatched?
       && id < |EntriesFor(cfg, s, c)| && Accepts(cfg.consumers[c], EntriesFor(cfg, s, c)[id])
  }

  /** Consumers that share a group agree on every topic of their stream. */
  ghost predicate PatternsAgree(cfg: Config) {
    forall c: nat, d: nat, topic: string |
      ValidConsumer(cfg, c) && ValidConsumer(cfg, d) && KeyOf(cfg.consumers[c]) == KeyOf(cfg.consumers[d]) &&
      RedisStream(topic) == KeyOf(cfg.consumers[c]).stream ::
      MatchTopic(cfg.consumers[c].pattern, topic) == MatchTopic(cfg.consumers[d].pattern, topic)
  }

  lemma MismatchForAll(cfg: Config, s: State, c: nat, id: nat)
    requires PatternsAgree(cfg) && Inv(cfg, s) && EntriesRouted(s)
    requires ValidConsumer(cfg, c) && (KeyOf(cfg.consumers[c]), id) in s.h.settled
    requires s.h.settled[(KeyOf(cfg.consumers[c]), id)].reason.Mismatched?
    ensures id < |EntriesFor(cfg, s, c)| && !Accepts(cfg.consumers[c], EntriesFor(cfg, s, c)[id])
  {
    var key := KeyOf(cfg.consumers[c]);
    var x := s.h.settled[(key, id)];
    assert SettlementInv(cfg, s, key, id, x);
    var topic := EntriesFor(cfg, s, c)[id].topic;
    assert RedisStream(topic) == key.stream;
    assert MatchTopic(cfg.consumers[c].pattern, topic) == MatchTopic(cfg.consumers[x.consumer].pattern, topic);
  }

  lemma AgreementDropsNothing(cfg: Config, steps: seq<Step>, c: nat, id: nat)
    requires PatternsAgree(cfg) && Legal(cfg, Init(cfg), steps)
    ensures !DropsMatch(cfg, Exec(cfg, Init(cfg), steps), c, id)
  {
    var s := Exec(cfg, Init(cfg), steps);
    InitInv(cfg);
    RunInv(cfg, Init(cfg), steps);
    RoutedRun(cfg, Init(cfg), steps);
    if ValidConsumer(cfg, c) && (KeyOf(cfg.consumers[c]), id) in s.h.settled {
      if s.h.settled[(KeyOf(cfg.consumers[c]), id)].reason.Mismatched? {
        MismatchForAll(cfg, s, c, id);
      }
    }
  }

  /** The run in which consumer `d` reads the topic first and acknowledges it away. */
  function DroppingRun(d: nat, topic: string): seq<Step> {
    [Publish(Message(topic, "", [], map[])), Read(d), Check(0), Ack(0, true)]
  }

  lemma DisagreementDrops(cfg: Config, c: nat, d: nat, topic: string)
    requires ValidConsumer(cfg, c) && ValidConsumer(cfg, d)
    requires KeyOf(cfg.consumers[c]) == KeyOf(cfg.consumers[d])
    requires RedisStream(topic) == KeyOf(cfg.consumers[c]).stream
    requires MatchTopic(cfg.consumers[c].pattern, topic) && !MatchTopic(cfg.consumers[d].pattern, topic)
    ensures Legal(cfg, Init(cfg), DroppingRun(d, topic))
    ensures DropsMatch(cfg, Exec(cfg, Init(cfg), DroppingRun(d, topic)), c, 0)
  {
    var m := Message(topic, "", [], map[]);
    var key := KeyOf(cfg.consumers[d]);
    KeyListed(cfg, d);
    var s0 := Init(cfg);
    var s1 := Apply(cfg, s0, Publish(m));
    assert Entries(s1.broker, key.stream) == [Carried(m)];
    var s2 := Apply(cfg, s1, Read(d));
    assert s2.tasks[0] == Task(d, 0, Fetched) && EntriesFor(cfg, s2, d) == [Carried(m)];
    var s3 := Apply(cfg, s2, Check(0));
    assert s3.tasks[0] == Task(d, 0, Acking(Mismatched));
    var s4 := Apply(cfg, s3, Ack(0, true));
    assert IsPending(s3.broker, key, 0);
    assert EntriesFor(cfg, s4, c) == [Carried(m)];
    FourSteps(cfg, s0, Publish(m), Read(d), Check(0), Ack(0, true));
  }

  ghost predicate NothingDropped(cfg: Config) {
    forall steps, c, id | Legal(cfg, Init(cfg), steps) :: !DropsMatch(cfg, Exec(cfg, Init(cfg), steps), c, id)
  }

  lemma NothingDroppedMeansAgreement(cfg: Config, c: nat, d: nat, topic: string)
    requires NothingDropped(cfg)
    requires ValidConsumer(cfg, c) && ValidConsumer(cfg, d) && KeyOf(cfg.consumers[c]) == KeyOf(cfg.consumers[d])
    requires RedisStream(topic) == KeyOf(cfg.consumers[c]).stream
    ensures MatchTopic(cfg.consumers[c].pattern, topic) ==> MatchTopic(cfg.consumers[d].pattern, topic)
  {
    if MatchTopic(cfg.consumers[c].pattern, topic) && !MatchTopic(cfg.consumers[d].pattern, topic) {
      DisagreementDrops(cfg, c, d, topic);
    }
  }

  /** No run drops a message wanted within its group if and only if consumers sharing a group
      agree on every topic of their stream. */
  lemma NothingDroppedIff(cfg: Config)
    ensures NothingDropped(cfg) <==> PatternsAgree(cfg)
  {
    if PatternsAgree(cfg) {
      forall steps, c, id | Legal(cfg, Init(cfg), steps) ensures !DropsMatch(cfg, Exec(cfg, Init(cfg), steps), c, id) {
        AgreementDropsNothing(cfg, steps, c, id);
      }
    }
    if NothingDropped(cfg) {
      forall c: nat, d: nat, topic: string |
        ValidConsumer(cfg, c) && ValidConsumer(cfg, d) && KeyOf(cfg.consumers[c]) == KeyOf(cfg.consumers[d]) &&
        RedisStream(topic) == KeyOf(cfg.consumers[c]).stream
        ensures MatchTopic(cfg.consumers[c].pattern, topic) == MatchTopic(cfg.consumers[d].pattern, topic)
      {
        NothingDroppedMeansAgreement(cfg, c, d, topic);
        NothingDroppedMeansAgreement(cfg, d, c, topic);
      }
    }
  }
}
