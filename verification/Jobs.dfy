/** The job queue (jobs_impl.go): enqueueing, what a worker gets, and the worker groups. */
module Jobs {
  import opened Options
  import opened Decimal
  import opened Words
  import opened Topics
  import opened Routing
  import opened Messages
  import opened Maps
  import Base64
  import ZSets
  import Delivery
  import RedisAdapter

  // ---------------------------------------------------------------- from enqueueing to the handler

  /** The message of a job; an empty job name is refused. */
  function EnqueuedMessage(ns: string, name: string, key: string, payload: seq<Base64.Byte>): Option<Message> {
    if name == "" then None
    else Some(Message(BuildTopic(ns, "job", name), key, payload, map[RETRY_COUNT := "0"]))
  }

  /** What a worker hands to the job handler: name, key and payload. */
  function HandlerArguments(ns: string, m: Message): (string, string, seq<Base64.Byte>) {
    (ExtractJobName(ns, m.topic), m.key, m.body)
  }

  /** Only the empty job name is refused. */
  lemma OnlyEmptyNameRefused(ns: string, name: string, key: string, payload: seq<Base64.Byte>)
    ensures EnqueuedMessage(ns, name, key, payload).None? <==> name == ""
  {
  }

  /** A job arrives as it was enqueued, at once or with a delay, on the stream the workers read,
      past their filter, with a retry count of zero. */
  lemma JobArrives(ns: string, name: string, key: string, payload: seq<Base64.Byte>)
    requires ValidNamespace(ns) && name != ""
    ensures
      var m := EnqueuedMessage(ns, name, key, payload).value;
      && RedisStream(m.topic) == RedisStream(WildcardTopic(ns, "job"))
      && MatchTopic(WildcardTopic(ns, "job"), Wire(m).topic)
      && HandlerArguments(ns, Wire(m)) == (name, key, payload)
      && Wire(m) == m && FromDelay(ToDelay(m)) == m && Attempt(m.headers) == 0
  {
    var m := EnqueuedMessage(ns, name, key, payload).value;
    JobRouting(ns, name);
    DelayRoundTrip(m);
    assert RETRY_COUNT[0] == 'x';
    WireRoundTrip(m);
    ZeroReadsAsZero();
  }

  lemma ZeroReadsAsZero()
    ensures Attempt(map[RETRY_COUNT := "0"]) == 0
  {
    AtoiItoa(0);
    assert Itoa(0) == "0";
  }

  /** It still arrives so after any number of failed deliveries, only the count has grown. */
  lemma JobArrivesAfterRetries(ns: string, name: string, key: string, payload: seq<Base64.Byte>, n: nat)
    requires ValidNamespace(ns) && name != "" && n <= MAX_INT
    ensures
      var m := AfterFailures(EnqueuedMessage(ns, name, key, payload).value, n);
      HandlerArguments(ns, m) == (name, key, payload) && Attempt(m.headers) == n
  {
    var m := EnqueuedMessage(ns, name, key, payload).value;
    ZeroReadsAsZero();
    RetryRoundTrip(m, n);
    RetriedCount(m, n);
    JobRouting(ns, name);
  }

  /** Enqueue: at once onto the stream, or with a delay into the delay set; a job without a name
      is refused and changes nothing. */
  method Enqueue(redis: RedisAdapter.Redis, ns: string, name: string, key: string, payload: seq<Base64.Byte>,
                 now: int, delay: int) returns (ok: bool)
    requires redis.Valid()
    modifies redis
    ensures redis.Valid() && ok == (name != "")
    ensures !ok ==> redis.View() == old(redis.View())
    ensures
      var m := Message(BuildTopic(ns, "job", name), key, payload, map["x-retry-count" := "0"]);
      && (ok && delay <= 0 ==> redis.View() == Delivery.XAdd(old(redis.View()), m))
      && (ok && delay > 0 ==>
            && redis.View().streams == old(redis.View()).streams && redis.View().groups == old(redis.View()).groups
            && ZSets.Scored((now + delay) / 1_000_000, m) in redis.View().delay
            && ZSets.ZRem(redis.View().delay, m) == ZSets.ZRem(old(redis.View()).delay, m))
  {
    var m := EnqueuedMessage(ns, name, key, payload);
    if m.None? {
      return false;
    }
    if delay > 0 {
      redis.PublishDelay(m.value, now, delay);
    } else {
      redis.PublishStream(m.value);
    }
    ok := true;
  }

  // ---------------------------------------------------------------- worker groups

  datatype GroupConfig = GroupConfig(ns: string, prefix: string, defaultGroup: string)

  function ResolveGroup(c: GroupConfig, name: string): string {
    var base := if name != "" then name else if c.defaultGroup != "" then c.defaultGroup else "default";
    var prefix := if c.prefix != "" then c.prefix else c.ns;
    if prefix != "" then prefix + "." + base else base
  }

  /** Group names collide only where they are meant to: the empty name stands for the default. */
  lemma ResolveGroupSharedIff(c: GroupConfig, a: string, b: string)
    ensures ResolveGroup(c, a) == ResolveGroup(c, b) <==>
            var base := if c.defaultGroup != "" then c.defaultGroup else "default";
            a == b || (a == "" && b == base) || (b == "" && a == base)
  {
    var prefix := (if c.prefix != "" then c.prefix else c.ns) + ".";
    var base := if c.defaultGroup != "" then c.defaultGroup else "default";
    var x, y := if a != "" then a else base, if b != "" then b else base;
    if prefix + x == prefix + y {
      PrefixDecides(prefix, x, y);
    }
  }

  /** The group name spelled out: the configured prefix, or else the namespace, in front of the
      given name, or else of the configured default, or else of `default`. */
  lemma ResolveGroupSpelled(c: GroupConfig, name: string)
    ensures c.prefix == "" && c.ns == "" && name != "" ==> ResolveGroup(c, name) == name
    ensures c.prefix != "" || c.ns != "" ==>
      var prefix := if c.prefix != "" then c.prefix else c.ns;
      && (name != "" ==> ResolveGroup(c, name) == prefix + "." + name)
      && (name == "" && c.defaultGroup != "" ==> ResolveGroup(c, name) == prefix + "." + c.defaultGroup)
      && (name == "" && c.defaultGroup == "" ==> ResolveGroup(c, name) == prefix + ".default")
  {
    var prefix := if c.prefix != "" then c.prefix else c.ns;
    Associate(prefix, ".", "default");
    assert "." + "default" == ".default";
  }

  /** Without a configured prefix, workers of different namespaces are never in one group. */
  lemma GroupsOfNamespaces(c1: GroupConfig, c2: GroupConfig, a: string, b: string)
    requires c1.prefix == "" && c2.prefix == "" && ValidNamespace(c1.ns) && ValidNamespace(c2.ns)
    requires ResolveGroup(c1, a) == ResolveGroup(c2, b)
    ensures c1.ns == c2.ns
  {
    var x := if a != "" then a else if c1.defaultGroup != "" then c1.defaultGroup else "default";
    var y := if b != "" then b else if c2.defaultGroup != "" then c2.defaultGroup else "default";
    assert ResolveGroup(c1, a) == c1.ns + "." + x && ResolveGroup(c2, b) == c2.ns + "." + y;
    SplitCons(c1.ns, x);
    SplitCons(c2.ns, y);
    assert ([c1.ns] + Split(x))[0] == ([c2.ns] + Split(y))[0];
  }

  function Size(n: int): int {
    if n <= 0 then 1 else n
  }

  function Requested(groups: map<string, int>): map<string, int> {
    if groups == map[] then map["" := 1] else groups
  }

  /** `r` is what `asked` amounts to: for each resolved group, the largest size asked for under
      any name that resolves to it. */
  ghost predicate IsNormalized(c: GroupConfig, asked: map<string, int>, r: map<string, int>) {
    && (forall name | name in asked ::
          ResolveGroup(c, name) in r && Size(asked[name]) <= r[ResolveGroup(c, name)])
    && (forall g | g in r ::
          exists name | name in asked :: ResolveGroup(c, name) == g && r[g] == Size(asked[name]))
  }

  /** There is only one such answer, so the order in which the map is walked cannot matter. */
  lemma NormalizedIsUnique(c: GroupConfig, asked: map<string, int>, r1: map<string, int>, r2: map<string, int>)
    requires IsNormalized(c, asked, r1) && IsNormalized(c, asked, r2)
    ensures r1 == r2
  {
    forall g ensures g in r1 <==> g in r2 {
    }
    forall g | g in r1 ensures r1[g] == r2[g] {
    }
  }

  /** Without a request one worker starts, in the default group. */
  lemma EmptyRequest(c: GroupConfig, r: map<string, int>)
    requires IsNormalized(c, Requested(map[]), r)
    ensures r == map[ResolveGroup(c, "") := 1]
  {
    assert "" in Requested(map[]);
    assert ResolveGroup(c, "") in r;
    forall g | g in r ensures g == ResolveGroup(c, "") && r[g] == 1 {
    }
  }

  /** One name alone: its group with the size asked for, or one. */
  lemma SingleRequest(c: GroupConfig, name: string, n: int, r: map<string, int>)
    requires IsNormalized(c, Requested(map[name := n]), r)
    ensures r == map[ResolveGroup(c, name) := if n > 0 then n else 1]
  {
    assert name in map[name := n];
    assert ResolveGroup(c, name) in r;
    forall g | g in r ensures g == ResolveGroup(c, name) {
    }
  }

  function Widen(c: GroupConfig, r: map<string, int>, name: string, n: int): map<string, int> {
    var g := ResolveGroup(c, name);
    if g in r && r[g] >= Size(n) then r else r[g := Size(n)]
  }

  /** One entry of the request. */
  method AddGroup(c: GroupConfig, resolved: map<string, int>, name: string, asked: int) returns (r: map<string, int>)
    ensures r == Widen(c, resolved, name, asked)
  {
    var final, size := ResolveGroup(c, name), asked;
    if final == "" {
      final := "default";
    }
    if size <= 0 {
      size := 1;
    }
    r := resolved;
    if final in r {
      if size > r[final] {
        r := r[final := size];
      }
    } else {
      r := r[final := size];
    }
  }

  method NormalizeGroups(c: GroupConfig, groups: map<string, int>) returns (resolved: map<string, int>)
    ensures IsNormalized(c, Requested(groups), resolved)
  {
    var asked := if groups == map[] then map["" := 1] else groups;
    resolved := map[];
    var rest := asked.Keys;
    PartNone(asked);
    while rest != {}
      invariant rest <= asked.Keys
      invariant IsNormalized(c, Part(asked, asked.Keys - rest), resolved)
    {
      var name :| name in rest;
      PartMore(asked, rest, name);
      AskMore(c, Part(asked, asked.Keys - rest), resolved, name, asked[name]);
      resolved := AddGroup(c, resolved, name, asked[name]);
      rest := rest - {name};
    }
    PartAll(asked);
  }

  lemma AskMore(c: GroupConfig, asked: map<string, int>, r: map<string, int>, name: string, n: int)
    requires IsNormalized(c, asked, r) && name !in asked
    ensures IsNormalized(c, asked[name := n], Widen(c, r, name, n))
  {
    var asked', r' := asked[name := n], Widen(c, r, name, n);
    forall g | g in r' ensures exists x | x in asked' :: ResolveGroup(c, x) == g && r'[g] == Size(asked'[x]) {
      if g in r && r'[g] == r[g] {
        var x :| x in asked && ResolveGroup(c, x) == g && r[g] == Size(asked[x]);
        assert x in asked' && asked'[x] == asked[x];
      } else {
        assert name in asked' && ResolveGroup(c, name) == g;
      }
    }
  }

  // ---------------------------------------------------------------- starting workers

  /** The consumers of this client that are running, by group, and the Consume calls so far. */
  class Consumers {
    var running: multiset<string>
    var calls: nat
    var failures: nat

    constructor ()
      ensures running == multiset{} && calls == failures == 0
    {
      running, calls, failures := multiset{}, 0, 0;
    }

    /** Consume: the calls numbered in `failing` fail. */
    method Consume(group: string, failing: set<nat>) returns (ok: bool)
      modifies this
      ensures ok == (old(calls) !in failing) && calls == old(calls) + 1
      ensures failures == old(failures) + if ok then 0 else 1
      ensures running == if ok then old(running) + multiset{group} else old(running)
    {
      ok := calls !in failing;
      calls := calls + 1;
      if ok {
        running := running + multiset{group};
      } else {
        failures := failures + 1;
      }
    }

    method Stop(group: string)
      requires group in running
      modifies this`running
      ensures running == old(running) - multiset{group}
    {
      running := running - multiset{group};
    }

    method StopAll(groups: seq<string>)
      requires multiset(groups) <= running
      modifies this`running
      ensures running == old(running) - multiset(groups)
    {
      for i := 0 to |groups|
        invariant running == old(running) - multiset(groups[..i])
      {
        assert groups == groups[..i] + [groups[i]] + groups[i + 1..];
        assert groups[..i + 1] == groups[..i] + [groups[i]];
        Stop(groups[i]);
      }
      assert groups[..|groups|] == groups;
    }
  }

  /** Each group with its number of workers, and nothing else. */
  ghost predicate Staffed(sizes: map<string, int>, started: multiset<string>) {
    forall g :: started[g] == if g in sizes && sizes[g] >= 0 then sizes[g] else 0
  }

  lemma StaffedMore(sizes: map<string, int>, started: multiset<string>, after: multiset<string>, group: string, size: int)
    requires Staffed(sizes, started) && group !in sizes
    requires forall g :: after[g] == started[g] + if g == group && size >= 0 then size else 0
    ensures Staffed(sizes[group := size], after)
  {
  }

  /** The workers of one group, one Consume each, until one fails. */
  method StartGroup(consumers: Consumers, group: string, size: int, failing: set<nat>, started: seq<string>,
                    ghost base: multiset<string>)
    returns (ok: bool, stops: seq<string>)
    requires consumers.running == base + multiset(started)
    modifies consumers
    ensures consumers.running == base + multiset(stops)
    ensures consumers.failures == old(consumers.failures) + if ok then 0 else 1
    ensures ok ==> forall g :: multiset(stops)[g] == multiset(started)[g] + if g == group && size >= 0 then size else 0
  {
    stops := started;
    var i := 0;
    while i < size
      invariant 0 <= i && (size >= 0 ==> i <= size) && (size < 0 ==> i == 0)
      invariant forall g :: multiset(stops)[g] == multiset(started)[g] + if g == group then i else 0
      invariant consumers.running == base + multiset(stops)
      invariant consumers.failures == old(consumers.failures)
    {
      var accepted := consumers.Consume(group, failing);
      if !accepted {
        return false, stops;
      }
      stops := stops + [group];
      i := i + 1;
    }
    ok := true;
  }

  /** Either exactly the workers asked for are added to the running consumers, or, if any Consume
      fails, none is left behind. */
  method StartWorkers(c: GroupConfig, consumers: Consumers, groups: map<string, int>, failing: set<nat>)
    returns (ok: bool, stops: seq<string>)
    modifies consumers
    ensures ok <==> consumers.failures == old(consumers.failures)
    ensures !ok ==> consumers.running == old(consumers.running)
    ensures ok ==> consumers.running == old(consumers.running) + multiset(stops)
    ensures ok ==> exists sizes :: IsNormalized(c, Requested(groups), sizes) && Staffed(sizes, multiset(stops))
  {
    var resolved := NormalizeGroups(c, groups);
    ok, stops := StartResolved(consumers, resolved, failing);
  }

  method StartResolved(consumers: Consumers, resolved: map<string, int>, failing: set<nat>)
    returns (ok: bool, stops: seq<string>)
    modifies consumers
    ensures ok <==> consumers.failures == old(consumers.failures)
    ensures !ok ==> consumers.running == old(consumers.running)
    ensures ok ==> consumers.running == old(consumers.running) + multiset(stops) && Staffed(resolved, multiset(stops))
  {
    stops := [];
    var rest := resolved.Keys;
    PartNone(resolved);
    while rest != {}
      invariant rest <= resolved.Keys
      invariant Staffed(Part(resolved, resolved.Keys - rest), multiset(stops))
      invariant consumers.running == old(consumers.running) + multiset(stops)
      invariant consumers.failures == old(consumers.failures)
    {
      var group :| group in rest;
      ghost var before := multiset(stops);
      ok, stops := StartGroup(consumers, group, resolved[group], failing, stops, old(consumers.running));
      if !ok {
        consumers.StopAll(stops);
        return false, [];
      }
      PartMore(resolved, rest, group);
      StaffedMore(Part(resolved, resolved.Keys - rest), before, multiset(stops), group, resolved[group]);
      rest := rest - {group};
    }
    PartAll(resolved);
    ok := true;
  }
}
