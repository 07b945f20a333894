/** Where a topic goes: Redis streams (redis_adapter.go), namespaces (client.go), RabbitMQ queue
    names (rabbitmq_adapter.go), and the job and event names carried inside topics. */
module Routing {
  import opened Words
  import opened Topics

  predicate IsComponent(w: string) {
    w == "job" || w == "event" || w == "cron"
  }

  /** Many topics share one Redis stream; consumers filter again after reading. */
  function RedisStream(topic: string): string {
    if !("taskbus." <= topic) then topic
    else
      var parts := Split(topic[8..]);
      if |parts| < 2 then topic
      else if IsComponent(parts[0]) then "taskbus." + parts[0]
      else if IsComponent(parts[1]) then "taskbus." + parts[0] + "." + parts[1]
      else topic
  }

  // ---------------------------------------------------------------- streams by words

  lemma TaskbusPrefixWords(topic: string)
    ensures "taskbus." <= topic <==> |Split(topic)| >= 2 && Split(topic)[0] == "taskbus"
    ensures "taskbus." <= topic ==> Split(topic)[1..] == Split(topic[8..])
  {
    var ws := Split(topic);
    if "taskbus." <= topic {
      assert topic == "taskbus" + "." + topic[8..];
      SplitConcat("taskbus", topic[8..]);
      SplitWord("taskbus");
    }
    if |ws| >= 2 && ws[0] == "taskbus" {
      JoinSplit(topic);
      assert topic == "taskbus" + "." + Join(ws[1..]);
    }
  }

  /** The stream of a topic in terms of its words: the first two or three of them decide. */
  lemma StreamOfWords(topic: string)
    ensures
      var ws := Split(topic);
      RedisStream(topic) ==
        if |ws| < 3 || ws[0] != "taskbus" then topic
        else if IsComponent(ws[1]) then "taskbus." + ws[1]
        else if IsComponent(ws[2]) then "taskbus." + ws[1] + "." + ws[2]
        else topic
  {
    TaskbusPrefixWords(topic);
    var ws := Split(topic);
    if "taskbus." <= topic {
      var parts := Split(topic[8..]);
      assert |parts| == |ws| - 1 && parts[0] == ws[1];
      assert |parts| >= 2 ==> parts[1] == ws[2];
    }
  }

  // ---------------------------------------------------------------- sharding and patterns

  predicate IsWildcardToken(w: string) {
    w == "*" || w == "#"
  }

  /** The pattern shapes whose stream is already fixed by their literal words. */
  predicate RoutedShape(pattern: string) {
    var ws := Split(pattern);
    && |ws| >= 3 && ws[0] == "taskbus"
    && (IsComponent(ws[1]) || (!IsWildcardToken(ws[1]) && IsComponent(ws[2])))
  }

  /** A consumer reads only the stream of its own pattern, so every topic the pattern matches
      has to live on that stream. */
  ghost predicate LosesNoMatch(pattern: string) {
    forall topic :: MatchTopic(pattern, topic) ==> RedisStream(topic) == RedisStream(pattern)
  }

  lemma RoutedShapeKeepsStream(pattern: string, topic: string)
    requires RoutedShape(pattern) && MatchTopic(pattern, topic)
    ensures RedisStream(topic) == RedisStream(pattern)
  {
    var ps, ts := Split(pattern), Split(topic);
    FastPathRefinesTokens(pattern, topic);
    StreamOfWords(pattern);
    StreamOfWords(topic);
    assert ts[0] == "taskbus" && MatchTokens(ps[1..], ts[1..]);
    assert |ts| >= 2 && ts[1] == ps[1] && MatchTokens(ps[1..][1..], ts[1..][1..]);
    if |ts| == 2 {
      JoinSplit(topic);
      assert topic == "taskbus" + "." + Join(ts[1..]);
    } else if !IsComponent(ps[1]) {
      assert ps[1..][1..][0] == ps[2] && ts[1..][1..][0] == ts[2];
    }
  }

  /** Fill every wildcard token with the word `x`. */
  function Fill(ws: seq<string>): (r: seq<string>)
    ensures |r| == |ws|
    ensures forall i | 0 <= i < |ws| :: r[i] == if IsWildcardToken(ws[i]) then "x" else ws[i]
  {
    if |ws| == 0 then []
    else [if IsWildcardToken(ws[0]) then "x" else ws[0]] + Fill(ws[1..])
  }

  lemma {:induction false} FillMatches(ws: seq<string>)
    ensures MatchTokens(ws, Fill(ws))
    decreases |ws|
  {
    if |ws| > 0 {
      FillMatches(ws[1..]);
      assert Fill(ws)[1..] == Fill(ws[1..]);
      if ws[0] == "#" && |ws| > 1 {
        assert MatchTokens(ws[1..], Fill(ws)[1..]);
      }
    }
  }

  /** A topic matched by a pattern outside the safe shapes, on another stream. */
  function StrayTopic(pattern: string): string {
    Join(Fill(Split(pattern)))
  }

  lemma StrayTopicMatches(pattern: string)
    requires HasWildcardToken(Split(pattern))
    ensures MatchTopic(pattern, StrayTopic(pattern))
  {
    StrayWords(pattern);
    FillMatches(Split(pattern));
    FastPathRefinesTokens(pattern, StrayTopic(pattern));
    SplitNonempty(StrayTopic(pattern));
  }

  lemma StrayTopicStrays(pattern: string)
    requires HasWildcardToken(Split(pattern)) && !RoutedShape(pattern)
    ensures RedisStream(StrayTopic(pattern)) != RedisStream(pattern)
  {
    StrayWords(pattern);
    var ws, fs := Split(pattern), Fill(Split(pattern));
    if Unrouted(ws) {
      FillStaysUnrouted(ws);
      UnroutedStream(pattern);
      UnroutedStream(StrayTopic(pattern));
    } else {
      StreamOfWords(pattern);
      StreamOfWords(StrayTopic(pattern));
      StarOrHashIsNotX(ws[1], ws[2]);
    }
  }

  predicate Unrouted(ws: seq<string>) {
    |ws| < 3 || ws[0] != "taskbus" || (!IsComponent(ws[1]) && !IsComponent(ws[2]))
  }

  lemma UnroutedStream(topic: string)
    requires Unrouted(Split(topic))
    ensures RedisStream(topic) == topic
  {
    StreamOfWords(topic);
  }

  lemma FillStaysUnrouted(ws: seq<string>)
    requires Unrouted(ws)
    ensures Unrouted(Fill(ws))
  {
    assert !IsComponent("x");
    assert |"x"| != |"taskbus"|;
  }

  lemma StarOrHashIsNotX(wildcard: string, component: string)
    requires IsWildcardToken(wildcard)
    ensures "taskbus." + wildcard + "." + component != "taskbus." + "x" + "." + component
  {
    assert ("taskbus." + wildcard + "." + component)[8] == wildcard[0];
    assert ("taskbus." + "x" + "." + component)[8] == 'x';
  }

  lemma StrayWords(pattern: string)
    requires HasWildcardToken(Split(pattern))
    ensures Split(StrayTopic(pattern)) == Fill(Split(pattern)) != Split(pattern)
    ensures Fill(Split(pattern)) != [""]
  {
    FillDiffers(Split(pattern));
    SplitJoin(Fill(Split(pattern)));
  }

  lemma FillDiffers(ws: seq<string>)
    requires HasWildcardToken(ws) && forall i | 0 <= i < |ws| :: DotFree(ws[i])
    ensures forall i | 0 <= i < |Fill(ws)| :: DotFree(Fill(ws)[i])
    ensures Fill(ws) != ws && Fill(ws) != [""]
  {
    var k :| 0 <= k < |ws| && IsWildcardToken(ws[k]);
    assert Fill(ws)[k] == "x";
    assert "x"[0] == 'x' && ws[k][0] != 'x';
  }

  /** Sharding loses no match for exactly these patterns: those without a wildcard token, and
      those whose literal words already name a component stream. */
  lemma ShardingLosesNoMatchIff(pattern: string)
    ensures LosesNoMatch(pattern) <==> (!HasWildcardToken(Split(pattern)) || RoutedShape(pattern))
  {
    if !HasWildcardToken(Split(pattern)) {
      forall topic | MatchTopic(pattern, topic) ensures topic == pattern {
        FastPathRefinesTokens(pattern, topic);
        PlainMatchesOnlyItself(Split(pattern), Split(topic));
        SplitInjective(pattern, topic);
      }
    } else if RoutedShape(pattern) {
      forall topic | MatchTopic(pattern, topic) ensures RedisStream(topic) == RedisStream(pattern) {
        RoutedShapeKeepsStream(pattern, topic);
      }
    } else {
      StrayTopicMatches(pattern);
      StrayTopicStrays(pattern);
    }
  }

  // ---------------------------------------------------------------- namespaces

  predicate IsAlnum(c: char) {
    'a' <= c <= 'z' || '0' <= c <= '9'
  }

  predicate ValidNamespace(ns: string) {
    && |ns| >= 1
    && IsAlnum(ns[0]) && IsAlnum(ns[|ns| - 1])
    && forall c | c in ns :: IsAlnum(c) || c == '-'
  }

  predicate Inner(s: string) {
    forall c | c in s :: IsAlnum(c) || c == '-'
  }

  /** The regular expression of a namespace, read from left to right: a letter or digit, and then,
      if anything, hyphens, letters and digits up to a last letter or digit. */
  ghost predicate InNamespaceLanguage(ns: string) {
    exists first: string, rest: string :: Reads(ns, first, rest)
  }

  ghost predicate Reads(ns: string, first: string, rest: string) {
    ns == first + rest && |first| == 1 && IsAlnum(first[0]) && (rest == "" || EndsAlnum(rest))
  }

  ghost predicate EndsAlnum(rest: string) {
    exists middle: string, last: string ::
      rest == middle + last && Inner(middle) && |last| == 1 && IsAlnum(last[0])
  }

  lemma NamespaceLanguageIff(ns: string)
    ensures InNamespaceLanguage(ns) <==> ValidNamespace(ns)
  {
    if ValidNamespace(ns) {
      var rest := ns[1..];
      if rest != "" {
        assert rest == ns[1..|ns| - 1] + ns[|ns| - 1..] && Inner(ns[1..|ns| - 1]);
        assert EndsAlnum(rest);
      }
      assert ns == ns[..1] + rest && Reads(ns, ns[..1], rest);
    }
    if InNamespaceLanguage(ns) {
      var first: string, rest: string :| Reads(ns, first, rest);
      if rest != "" {
        var middle: string, last: string :| rest == middle + last && Inner(middle) && |last| == 1 && IsAlnum(last[0]);
        assert ns[|ns| - 1] == last[0];
      }
    }
  }

  /** A client always works in a valid namespace: anything else is replaced by the default. */
  function ClientNamespace(ns: string): (r: string)
    ensures ValidNamespace(r)
    ensures ValidNamespace(ns) ==> r == ns
    ensures !ValidNamespace(ns) ==> r == "default"
  {
    if ns == "" || !ValidNamespace(ns) then "default" else ns
  }

  lemma PrefixWords(ns: string, component: string, name: string)
    requires DotFree(ns) && DotFree(component)
    ensures Split(TopicPrefix(ns, component) + name) == ["taskbus", ns, component] + Split(name)
  {
    assert TopicPrefix(ns, component) + name == "taskbus" + "." + (ns + "." + (component + "." + name));
    SplitCons3("taskbus", ns, component, name);
  }

  lemma {:induction false} LiteralPrefixMatch(ps: seq<string>, ts: seq<string>, a: seq<string>, b: seq<string>)
    requires |a| == |b| && !HasWildcardToken(a)
    ensures MatchTokens(a + ps, b + ts) <==> a == b && MatchTokens(ps, ts)
    decreases |a|
  {
    if |a| == 0 {
      assert a + ps == ps && b + ts == ts;
    } else {
      LiteralPrefixMatch(ps, ts, a[1..], b[1..]);
      assert (a + ps)[1..] == a[1..] + ps && (b + ts)[1..] == b[1..] + ts;
      assert a[0] in a;
      assert a == [a[0]] + a[1..] && b == [b[0]] + b[1..];
    }
  }

  /** What a subscriber of (ns1, c1) with pattern `q` sees of the topic `name` of (ns2, c2):
      nothing outside its own namespace and component, and inside it what `q` says. */
  lemma PrefixedMatch(ns1: string, c1: string, q: string, ns2: string, c2: string, name: string)
    requires ValidNamespace(ns1) && ValidNamespace(ns2) && IsComponent(c1) && IsComponent(c2)
    ensures MatchTopic(TopicPrefix(ns1, c1) + q, BuildTopic(ns2, c2, name)) <==>
            ns1 == ns2 && c1 == c2 && MatchTokens(Split(q), Split(name))
  {
    PrefixWords(ns1, c1, q);
    PrefixWords(ns2, c2, name);
    FastPathRefinesTokens(TopicPrefix(ns1, c1) + q, BuildTopic(ns2, c2, name));
    NoWildcardInPrefix(ns1, c1);
    LiteralPrefixMatch(Split(q), Split(name), ["taskbus", ns1, c1], ["taskbus", ns2, c2]);
    SameTriple("taskbus", ns1, c1, ns2, c2);
  }

  lemma NoWildcardInPrefix(ns: string, c: string)
    requires ValidNamespace(ns) && IsComponent(c)
    ensures !HasWildcardToken(["taskbus", ns, c])
  {
    assert !IsAlnum('*') && !IsAlnum('#');
  }

  lemma SameTriple(x: string, a: string, b: string, c: string, d: string)
    ensures [x, a, b] == [x, c, d] <==> a == c && b == d
  {
    assert [x, a, b][1] == a && [x, a, b][2] == b && [x, c, d][1] == c && [x, c, d][2] == d;
  }

  /** Namespace isolation: a worker's wildcard sees exactly the topics of its own namespace and
      component, whatever name was put into the topic. */
  lemma NamespaceIsolation(ns1: string, c1: string, ns2: string, c2: string, name: string)
    requires ValidNamespace(ns1) && ValidNamespace(ns2) && IsComponent(c1) && IsComponent(c2)
    ensures MatchTopic(WildcardTopic(ns1, c1), BuildTopic(ns2, c2, name)) <==> ns1 == ns2 && c1 == c2
  {
    PrefixedMatch(ns1, c1, "#", ns2, c2, name);
    SplitWord("#");
  }

  lemma BuildTopicInjective(ns1: string, c1: string, x1: string, ns2: string, c2: string, x2: string)
    requires ValidNamespace(ns1) && ValidNamespace(ns2) && IsComponent(c1) && IsComponent(c2)
    requires BuildTopic(ns1, c1, x1) == BuildTopic(ns2, c2, x2)
    ensures ns1 == ns2 && c1 == c2 && x1 == x2
  {
    PrefixWords(ns1, c1, x1);
    PrefixWords(ns2, c2, x2);
    var a, b := ["taskbus", ns1, c1] + Split(x1), ["taskbus", ns2, c2] + Split(x2);
    assert a[1] == b[1] && a[2] == b[2] && a[3..] == Split(x1) && b[3..] == Split(x2);
    SplitInjective(x1, x2);
  }

  lemma StreamOfBuiltTopic(ns: string, c: string, name: string)
    requires ValidNamespace(ns) && IsComponent(c)
    ensures RedisStream(BuildTopic(ns, c, name)) ==
            if IsComponent(ns) then "taskbus." + ns else "taskbus." + ns + "." + c
  {
    PrefixWords(ns, c, name);
    StreamOfWords(BuildTopic(ns, c, name));
  }

  /** Two built topics share a Redis stream exactly when namespace and component agree, or the
      namespace is itself one of the reserved component words. */
  lemma StreamsSharedIff(ns1: string, c1: string, x1: string, ns2: string, c2: string, x2: string)
    requires ValidNamespace(ns1) && ValidNamespace(ns2) && IsComponent(c1) && IsComponent(c2)
    ensures RedisStream(BuildTopic(ns1, c1, x1)) == RedisStream(BuildTopic(ns2, c2, x2)) <==>
            ns1 == ns2 && (c1 == c2 || IsComponent(ns1))
  {
    StreamOfBuiltTopic(ns1, c1, x1);
    StreamOfBuiltTopic(ns2, c2, x2);
    StreamNameWords(ns1, c1);
    StreamNameWords(ns2, c2);
    var a, b := ["taskbus", ns1], ["taskbus", ns2];
    var al, bl := ["taskbus", ns1, c1], ["taskbus", ns2, c2];
    assert a == b <==> a[1] == b[1];
    assert al == bl <==> al[1] == bl[1] && al[2] == bl[2];
    assert |a| != |bl| && |al| != |b|;
  }

  lemma StreamNameWords(ns: string, c: string)
    requires ValidNamespace(ns) && IsComponent(c)
    ensures Split("taskbus." + ns) == ["taskbus", ns]
    ensures Split("taskbus." + ns + "." + c) == ["taskbus", ns, c]
  {
    assert "taskbus." + ns == "taskbus" + "." + ns;
    assert "taskbus." + ns + "." + c == "taskbus" + "." + (ns + "." + c);
    SplitTwoWords("taskbus", ns);
    SplitThreeWords("taskbus", ns, c);
  }

  const GLOBAL_EVENT_PREFIX := "taskbus.event."

  /** The catch-all subscription of the global event bus sees a namespaced topic exactly when
      the namespace is called `event`. */
  lemma GlobalBusSeesNamespaceEvent(ns: string, c: string, name: string)
    requires ValidNamespace(ns) && IsComponent(c)
    ensures MatchTopic(GLOBAL_EVENT_PREFIX + "#", BuildTopic(ns, c, name)) <==> ns == "event"
  {
    var pattern, topic := GLOBAL_EVENT_PREFIX + "#", BuildTopic(ns, c, name);
    PrefixWords(ns, c, name);
    assert pattern == "taskbus" + "." + ("event" + "." + "#");
    SplitThreeWords("taskbus", "event", "#");
    FastPathRefinesTokens(pattern, topic);
    TwoLiteralsThenHash("taskbus", "event", Split(topic));
  }

  lemma TwoLiteralsThenHash(a: string, b: string, t: seq<string>)
    requires !IsWildcardToken(a) && !IsWildcardToken(b)
    ensures MatchTokens([a, b, "#"], t) <==> |t| >= 2 && t[0] == a && t[1] == b
  {
    assert [a, b, "#"][1..] == [b, "#"] && [b, "#"][1..] == ["#"];
    if |t| >= 2 {
      HashHash(t[1..][1..]);
    }
  }

  // ---------------------------------------------------------------- jobs

  function ExtractJobName(ns: string, topic: string): string {
    var name := TrimTopicPrefix(topic, TopicPrefix(ns, "job"));
    if name == topic && |name| > 4 && name[..4] == "job." then name[4..] else name
  }

  /** From enqueueing to the worker: the worker's wildcard matches the topic, the worker reads
      the stream the topic lands on, and it gets back exactly the job name, dots, wildcards and
      leading `job.` included. */
  lemma JobRouting(ns: string, name: string)
    requires ValidNamespace(ns)
    ensures MatchTopic(WildcardTopic(ns, "job"), BuildTopic(ns, "job", name))
    ensures RedisStream(BuildTopic(ns, "job", name)) == RedisStream(WildcardTopic(ns, "job"))
    ensures ExtractJobName(ns, BuildTopic(ns, "job", name)) == name
  {
    NamespaceIsolation(ns, "job", ns, "job", name);
    StreamOfBuiltTopic(ns, "job", name);
    StreamOfBuiltTopic(ns, "job", "#");
    PrefixDecides(TopicPrefix(ns, "job"), TrimTopicPrefix(BuildTopic(ns, "job", name), TopicPrefix(ns, "job")), name);
  }

  /** Topics from elsewhere: a leading `job.` is the old prefix, and anything else is taken whole. */
  lemma ForeignJobName(ns: string, topic: string)
    requires !(TopicPrefix(ns, "job") <= topic)
    ensures "job." < topic ==> ExtractJobName(ns, topic) == topic[4..]
    ensures !("job." < topic) ==> ExtractJobName(ns, topic) == topic
  {
  }

  /** The same for cron: every executor of the namespace sees the firing of a task, and gets back
      exactly the task name. */
  lemma CronRouting(ns: string, name: string)
    requires ValidNamespace(ns)
    ensures MatchTopic(WildcardTopic(ns, "cron"), BuildTopic(ns, "cron", name))
    ensures RedisStream(BuildTopic(ns, "cron", name)) == RedisStream(WildcardTopic(ns, "cron"))
    ensures TrimTopicPrefix(BuildTopic(ns, "cron", name), TopicPrefix(ns, "cron")) == name
  {
    NamespaceIsolation(ns, "cron", ns, "cron", name);
    StreamOfBuiltTopic(ns, "cron", name);
    StreamOfBuiltTopic(ns, "cron", "#");
    PrefixDecides(TopicPrefix(ns, "cron"), TrimTopicPrefix(BuildTopic(ns, "cron", name), TopicPrefix(ns, "cron")), name);
  }

  /** Every topic a worker accepts is the built topic of the job name it extracts, with one
      exception: the bare prefix without any name, which `#` matches as zero words. */
  lemma WorkerTopics(ns: string, topic: string)
    requires ValidNamespace(ns) && MatchTopic(WildcardTopic(ns, "job"), topic)
    ensures topic == "taskbus." + ns + ".job" || topic == BuildTopic(ns, "job", ExtractJobName(ns, topic))
    ensures topic == "taskbus." + ns + ".job" ==> ExtractJobName(ns, topic) == topic
  {
    FastPathRefinesTokens(WildcardTopic(ns, "job"), topic);
    PrefixWords(ns, "job", "#");
    SplitWord("#");
    var a, ts := ["taskbus", ns, "job"], Split(topic);
    NoWildcardInPrefix(ns, "job");
    var i := MatchSplitPoint(a, ["#"], ts);
    PlainMatchesOnlyItself(a, ts[..i]);
    assert ts == a + ts[3..];
    if i == |ts| {
      StreamNameWords(ns, "job");
      SplitInjective(topic, "taskbus." + ns + "." + "job");
      BarePrefixIsKept(ns, topic);
    } else {
      var rest := Join(ts[3..]);
      SplitJoin(ts[3..]);
      PrefixWords(ns, "job", rest);
      SplitInjective(topic, BuildTopic(ns, "job", rest));
      JobRouting(ns, rest);
    }
  }

  lemma BarePrefixIsKept(ns: string, topic: string)
    requires topic == "taskbus." + ns + "." + "job"
    ensures topic == "taskbus." + ns + ".job"
    ensures ExtractJobName(ns, topic) == topic
    ensures forall name :: topic != BuildTopic(ns, "job", name)
  {
    assert |topic| < |TopicPrefix(ns, "job")|;
    assert topic[0] == 't';
    assert topic[..4][0] == 't';
  }

  // ---------------------------------------------------------------- RabbitMQ queue names

  predicate Forbidden(c: char) {
    c == ' ' || c == '*' || c == '#' || c == '/'
  }

  function Keep(s: string): string {
    if s == "" then ""
    else if Forbidden(s[0]) then Keep(s[1..])
    else [s[0]] + Keep(s[1..])
  }

  lemma {:induction false} KeepConcat(a: string, b: string)
    ensures Keep(a + b) == Keep(a) + Keep(b)
  {
    if a == "" {
      assert a + b == b;
    } else {
      KeepConcat(a[1..], b);
      assert (a + b)[0] == a[0] && (a + b)[1..] == a[1..] + b;
      Associate([a[0]], Keep(a[1..]), Keep(b));
    }
  }

  lemma {:induction false} KeepClean(s: string)
    requires forall c | c in s :: !Forbidden(c)
    ensures Keep(s) == s
  {
    if s != "" {
      assert s == [s[0]] + s[1..];
      KeepClean(s[1..]);
    }
  }

  function QueueSafe(s: string): string {
    if Keep(s) == "" then "q" else Keep(s)
  }

  method SanitizeQueueName(s: string) returns (r: string)
    ensures r == QueueSafe(s)
  {
    var forbidden := [' ', '*', '#', '/'];
    var out := "";
    for i := 0 to |s|
      invariant out == Keep(s[..i])
    {
      var skip := false;
      for j := 0 to |forbidden|
        invariant skip == (s[i] in forbidden[..j])
      {
        if s[i] == forbidden[j] {
          skip := true;
          break;
        }
      }
      assert forbidden[..|forbidden|] == forbidden;
      assert skip == Forbidden(s[i]);
      KeepConcat(s[..i], [s[i]]);
      assert s[..i + 1] == s[..i] + [s[i]];
      if !skip {
        out := out + [s[i]];
      }
    }
    assert s[..|s|] == s;
    r := if |out| == 0 then "q" else out;
  }

  /** A sanitised name is never empty, has no forbidden character, and is `q` if nothing is left. */
  lemma {:induction false} QueueSafeMeaning(s: string)
    ensures QueueSafe(s) != "" && (forall c | c in QueueSafe(s) :: !Forbidden(c))
    ensures (forall c | c in s :: Forbidden(c)) ==> QueueSafe(s) == "q"
  {
    KeptIsAllowed(s);
  }

  lemma {:induction false} KeptIsAllowed(s: string)
    ensures forall c | c in Keep(s) :: !Forbidden(c)
    ensures (forall c | c in s :: Forbidden(c)) ==> Keep(s) == ""
  {
    if s != "" {
      KeptIsAllowed(s[1..]);
      assert s == [s[0]] + s[1..];
    }
  }

  function QueueName(topic: string, group: string): string {
    QueueSafe(topic) + "-" + QueueSafe(group)
  }

  lemma QueueSafeWildcard(ns: string, c: string)
    requires ValidNamespace(ns) && IsComponent(c)
    ensures QueueSafe(WildcardTopic(ns, c)) == TopicPrefix(ns, c)
  {
    KeepConcat(TopicPrefix(ns, c), "#");
    assert forall x | x in ns :: !Forbidden(x);
    assert forall x | x in "taskbus." :: !Forbidden(x);
    KeepClean(TopicPrefix(ns, c));
  }

  lemma QueueNameShape(ns: string, c: string, g: string)
    requires ValidNamespace(ns) && IsComponent(c)
    ensures QueueName(WildcardTopic(ns, c), g) == BuildTopic(ns, c, "-" + QueueSafe(g))
  {
    QueueSafeWildcard(ns, c);
  }

  /** Worker queues are shared exactly by equal namespace, component and sanitised group. */
  lemma QueueNamesSharedIff(ns1: string, c1: string, g1: string, ns2: string, c2: string, g2: string)
    requires ValidNamespace(ns1) && ValidNamespace(ns2) && IsComponent(c1) && IsComponent(c2)
    ensures QueueName(WildcardTopic(ns1, c1), g1) == QueueName(WildcardTopic(ns2, c2), g2) <==>
            ns1 == ns2 && c1 == c2 && QueueSafe(g1) == QueueSafe(g2)
  {
    QueueNameShape(ns1, c1, g1);
    QueueNameShape(ns2, c2, g2);
    var z1, z2 := "-" + QueueSafe(g1), "-" + QueueSafe(g2);
    if BuildTopic(ns1, c1, z1) == BuildTopic(ns2, c2, z2) {
      BuildTopicInjective(ns1, c1, z1, ns2, c2, z2);
      PrefixDecides("-", QueueSafe(g1), QueueSafe(g2));
    }
  }

  /** Groups free of forbidden characters keep their queues apart; with such characters two
      different groups can share one queue. */
  lemma GroupsKeptApart(ns: string, c: string, g1: string, g2: string)
    requires ValidNamespace(ns) && IsComponent(c) && g1 != "" && g2 != ""
    requires forall x | x in g1 + g2 :: !Forbidden(x)
    ensures QueueName(WildcardTopic(ns, c), g1) == QueueName(WildcardTopic(ns, c), g2) ==> g1 == g2
    ensures QueueName(WildcardTopic(ns, c), "a b") == QueueName(WildcardTopic(ns, c), "ab")
  {
    QueueNamesSharedIff(ns, c, g1, ns, c, g2);
    KeepClean(g1);
    KeepClean(g2);
    BlanksVanish("a", " ", "b");
    assert "a" + " " + "b" == "a b" && "a" + "b" == "ab";
  }

  lemma BlanksVanish(a: string, blank: string, b: string)
    requires Keep(blank) == ""
    ensures Keep(a + blank + b) == Keep(a + b)
  {
    KeepConcat(a + blank, b);
    KeepConcat(a, blank);
    KeepConcat(a, b);
  }

  // ---------------------------------------------------------------- queues of subscriptions

  predicate Clean(s: string) {
    forall c | c in s :: !Forbidden(c)
  }

  lemma QueueNameOfPattern(prefix: string, pattern: string, g: string)
    requires Clean(prefix) && prefix != ""
    ensures QueueName(prefix + pattern, g) == prefix + (Keep(pattern) + "-" + QueueSafe(g))
  {
    KeepConcat(prefix, pattern);
    KeepClean(prefix);
    assert Keep(prefix + pattern) != "";
    Associate(prefix, Keep(pattern), "-" + QueueSafe(g));
    Associate(prefix + Keep(pattern), "-", QueueSafe(g));
    Associate(Keep(pattern), "-", QueueSafe(g));
  }

  lemma CleanPrefix(ns: string, c: string)
    requires ValidNamespace(ns) && IsComponent(c)
    ensures Clean(TopicPrefix(ns, c)) && TopicPrefix(ns, c) != ""
  {
    assert forall x | x in ns :: !Forbidden(x);
    assert forall x | x in "taskbus." :: !Forbidden(x);
  }

  /** Two prefixed subscriptions share a RabbitMQ queue exactly if namespace and component agree,
      and what is left of pattern and group after dropping the forbidden characters. */
  lemma SubscriptionsShareQueueIff(ns1: string, c1: string, p1: string, g1: string,
                                   ns2: string, c2: string, p2: string, g2: string)
    requires ValidNamespace(ns1) && ValidNamespace(ns2) && IsComponent(c1) && IsComponent(c2)
    ensures QueueName(TopicPrefix(ns1, c1) + p1, g1) == QueueName(TopicPrefix(ns2, c2) + p2, g2) <==>
            ns1 == ns2 && c1 == c2 && Keep(p1) + "-" + QueueSafe(g1) == Keep(p2) + "-" + QueueSafe(g2)
  {
    CleanPrefix(ns1, c1);
    CleanPrefix(ns2, c2);
    QueueNameOfPattern(TopicPrefix(ns1, c1), p1, g1);
    QueueNameOfPattern(TopicPrefix(ns2, c2), p2, g2);
    var x1, x2 := Keep(p1) + "-" + QueueSafe(g1), Keep(p2) + "-" + QueueSafe(g2);
    if BuildTopic(ns1, c1, x1) == BuildTopic(ns2, c2, x2) {
      BuildTopicInjective(ns1, c1, x1, ns2, c2, x2);
    }
  }

  lemma SuffixDecides(x: string, y: string, z: string)
    requires x + z == y + z
    ensures x == y
  {
    assert |x| == |y|;
    assert (x + z)[..|x|] == x && (y + z)[..|y|] == y;
  }

  /** Within one group: exactly if the patterns differ in forbidden characters only. */
  lemma GroupSharesQueueIff(ns: string, c: string, p1: string, p2: string, g: string)
    requires ValidNamespace(ns) && IsComponent(c)
    ensures QueueName(TopicPrefix(ns, c) + p1, g) == QueueName(TopicPrefix(ns, c) + p2, g) <==> Keep(p1) == Keep(p2)
  {
    SubscriptionsShareQueueIff(ns, c, p1, g, ns, c, p2, g);
    var z := "-" + QueueSafe(g);
    Associate(Keep(p1), "-", QueueSafe(g));
    Associate(Keep(p2), "-", QueueSafe(g));
    if Keep(p1) + z == Keep(p2) + z {
      SuffixDecides(Keep(p1), Keep(p2), z);
    }
  }

  lemma WildcardVanishes(words: string, wildcard: string)
    requires IsWildcardToken(wildcard)
    ensures Keep(words + "." + wildcard) == Keep(words) + "."
  {
    assert wildcard[1..] == "" && "."[1..] == "";
    KeepConcat(words + ".", wildcard);
    KeepConcat(words, ".");
  }

  lemma MoreWords(words: string, wildcard: string, a: string, b: string)
    requires IsWildcardToken(wildcard) && DotFree(a) && DotFree(b)
    ensures Split(words + "." + wildcard) == Split(words) + [wildcard]
    ensures Split(words + "." + a + "." + b) == Split(words) + [a, b]
  {
    SplitConcat(words, wildcard);
    SplitWord(wildcard);
    SplitConcat(words + "." + a, b);
    SplitConcat(words, a);
    SplitWord(a);
    SplitWord(b);
    assert Split(words) + [a] + [b] == Split(words) + [a, b];
  }

  lemma TwoMoreWords(words: string, wildcard: string, a: string, b: string)
    requires !HasWildcardToken(Split(words)) && IsWildcardToken(wildcard) && DotFree(a) && DotFree(b)
    ensures MatchTokens(Split(words + "." + wildcard), Split(words + "." + a + "." + b)) <==> wildcard == "#"
  {
    MoreWords(words, wildcard, a, b);
    LiteralPrefixMatch([wildcard], [a, b], Split(words), Split(words));
    MatchOneToken(wildcard, [a, b]);
  }

  lemma WildcardsShareQueue(ns: string, c: string, words: string, v: string, w: string, g: string)
    requires ValidNamespace(ns) && IsComponent(c) && IsWildcardToken(v) && IsWildcardToken(w)
    ensures QueueName(TopicPrefix(ns, c) + (words + "." + v), g) == QueueName(TopicPrefix(ns, c) + (words + "." + w), g)
  {
    WildcardVanishes(words, v);
    WildcardVanishes(words, w);
    GroupSharesQueueIff(ns, c, words + "." + v, words + "." + w, g);
  }

  /** So `words.*` and `words.#` of one group share a queue, although only the second wants topics
      with two more words; the adapter hands each consumer whatever the queue delivers. */
  lemma StarAndHashShareQueue(ns: string, c: string, words: string, a: string, b: string, g: string)
    requires ValidNamespace(ns) && IsComponent(c) && !HasWildcardToken(Split(words)) && DotFree(a) && DotFree(b)
    ensures
      var (star, hash) := (TopicPrefix(ns, c) + (words + "." + "*"), TopicPrefix(ns, c) + (words + "." + "#"));
      var topic := BuildTopic(ns, c, words + "." + a + "." + b);
      QueueName(star, g) == QueueName(hash, g) && MatchTopic(hash, topic) && !MatchTopic(star, topic)
  {
    WildcardsShareQueue(ns, c, words, "*", "#", g);
    TwoMoreWords(words, "*", a, b);
    TwoMoreWords(words, "#", a, b);
    PrefixedMatch(ns, c, words + "." + "#", ns, c, words + "." + a + "." + b);
    PrefixedMatch(ns, c, words + "." + "*", ns, c, words + "." + a + "." + b);
  }
}
