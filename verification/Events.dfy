/** The event bus (eventbus_impl.go): events as messages and back. */
module Events {
  import opened Words
  import opened Topics
  import opened Routing
  import opened Messages
  import Base64

  datatype Event = Event(topic: string, kind: string, subject: string, metadata: map<string, string>, payload: seq<Base64.Byte>)

  datatype Mode = Global | Isolated

  const TYPE := "type"

  function EventPrefix(mode: Mode, ns: string): string {
    match mode
    case Global => GLOBAL_EVENT_PREFIX
    case Isolated => TopicPrefix(ns, "event")
  }

  function ToMessage(mode: Mode, ns: string, e: Event): Message {
    Message(EventPrefix(mode, ns) + e.topic, e.subject, e.payload,
            if e.kind != "" then e.metadata[TYPE := e.kind] else e.metadata)
  }

  function FromMessage(mode: Mode, ns: string, m: Message): Event {
    Event(TrimTopicPrefix(m.topic, EventPrefix(mode, ns)),
          if TYPE in m.headers then m.headers[TYPE] else "",
          m.key, m.headers, m.body)
  }

  /** Publish: copy the metadata, note the type, prefix the topic. */
  method EventMessage(mode: Mode, ns: string, e: Event) returns (m: Message)
    ensures m == ToMessage(mode, ns, e)
  {
    var headers := CopyHeaders(e.metadata);
    if e.kind != "" {
      headers := headers[TYPE := e.kind];
    }
    m := Message(EventPrefix(mode, ns) + e.topic, e.subject, e.payload, headers);
  }

  /** The type a subscriber sees. */
  function SeenType(e: Event): string {
    if e.kind != "" then e.kind else if TYPE in e.metadata then e.metadata[TYPE] else ""
  }

  /** A published event reaches subscribers with its topic, subject and payload, whatever its
      topic looks like; the metadata only gains the type, and loses an entry without a name. */
  lemma EventRoundTrip(mode: Mode, ns: string, e: Event)
    ensures
      var seen := FromMessage(mode, ns, Wire(ToMessage(mode, ns, e)));
      && seen.topic == e.topic && seen.subject == e.subject && seen.payload == e.payload
      && seen.kind == SeenType(e)
      && seen.metadata == (if e.kind != "" then e.metadata[TYPE := e.kind] else e.metadata) - {""}
  {
    var m := ToMessage(mode, ns, e);
    WireRoundTrip(m);
    assert TYPE[0] == 't';
    PrefixDecides(EventPrefix(mode, ns), TrimTopicPrefix(m.topic, EventPrefix(mode, ns)), e.topic);
  }

  /** The type comes back exactly if there is one, or the metadata does not pretend one. */
  lemma TypeRestoredIff(mode: Mode, ns: string, e: Event)
    ensures FromMessage(mode, ns, Wire(ToMessage(mode, ns, e))).kind == e.kind <==>
            e.kind != "" || TYPE !in e.metadata || e.metadata[TYPE] == ""
  {
    EventRoundTrip(mode, ns, e);
  }

  /** The whole event comes back exactly if its metadata has no nameless entry and already agrees
      with the type. */
  lemma EventRestoredIff(mode: Mode, ns: string, e: Event)
    ensures FromMessage(mode, ns, Wire(ToMessage(mode, ns, e))) == e <==>
            && "" !in e.metadata
            && (if e.kind != "" then TYPE in e.metadata && e.metadata[TYPE] == e.kind
                else TYPE !in e.metadata || e.metadata[TYPE] == "")
  {
    EventRoundTrip(mode, ns, e);
    var seen := FromMessage(mode, ns, Wire(ToMessage(mode, ns, e)));
    assert seen == e <==> seen.kind == e.kind && seen.metadata == e.metadata;
    NamelessEntry(e.metadata, e.kind);
  }

  lemma NamelessEntry(metadata: map<string, string>, kind: string)
    ensures metadata - {""} == metadata <==> "" !in metadata
    ensures kind != "" ==>
              (metadata[TYPE := kind] - {""} == metadata <==>
               "" !in metadata && TYPE in metadata && metadata[TYPE] == kind)
  {
    assert TYPE[0] == 't';
    if metadata[TYPE := kind] - {""} == metadata {
      assert TYPE in metadata[TYPE := kind] - {""};
      assert "" !in metadata[TYPE := kind] - {""};
    }
    if metadata - {""} == metadata {
      assert "" !in metadata - {""};
    }
  }

  /** A subscriber of an isolated bus sees exactly the events of its own namespace whose topic its
      pattern matches word by word. */
  lemma IsolatedSubscription(ns1: string, pattern: string, ns2: string, e: Event)
    requires ValidNamespace(ns1) && ValidNamespace(ns2)
    ensures MatchTopic(EventPrefix(Isolated, ns1) + pattern, ToMessage(Isolated, ns2, e).topic) <==>
            ns1 == ns2 && MatchTokens(Split(pattern), Split(e.topic))
  {
    PrefixedMatch(ns1, "event", pattern, ns2, "event", e.topic);
  }

  lemma GlobalWords(x: string)
    ensures Split(EventPrefix(Global, "") + x) == ["taskbus", "event"] + Split(x)
  {
    assert GLOBAL_EVENT_PREFIX + x == "taskbus" + "." + ("event" + "." + x);
    SplitCons("event", x);
    SplitCons("taskbus", "event" + "." + x);
    assert ["taskbus"] + (["event"] + Split(x)) == ["taskbus", "event"] + Split(x);
  }

  /** On the global bus a subscriber of any namespace sees exactly the events, of every namespace,
      whose topic its pattern matches word by word. */
  lemma GlobalSubscription(ns1: string, pattern: string, ns2: string, e: Event)
    ensures MatchTopic(EventPrefix(Global, ns1) + pattern, ToMessage(Global, ns2, e).topic) <==>
            MatchTokens(Split(pattern), Split(e.topic))
  {
    var topic := ToMessage(Global, ns2, e).topic;
    GlobalWords(pattern);
    GlobalWords(e.topic);
    FastPathRefinesTokens(EventPrefix(Global, ns1) + pattern, topic);
    LiteralPrefixMatch(Split(pattern), Split(e.topic), ["taskbus", "event"], ["taskbus", "event"]);
  }

  /** All global events and their subscribers share one Redis stream; isolated ones have the
      stream of their namespace. */
  lemma EventStreams(ns: string, x: string)
    ensures RedisStream(EventPrefix(Global, ns) + x) == "taskbus.event"
    ensures ValidNamespace(ns) && !IsComponent(ns) ==>
              RedisStream(EventPrefix(Isolated, ns) + x) == "taskbus." + ns + ".event"
  {
    GlobalWords(x);
    StreamOfWords(EventPrefix(Global, ns) + x);
    if ValidNamespace(ns) {
      StreamOfBuiltTopic(ns, "event", x);
    }
  }

  /** An event carries no retry count of its own, unless its metadata does. */
  lemma EventNamesNoCount(mode: Mode, ns: string, e: Event)
    requires "x-retry-count" !in e.metadata
    ensures "x-retry-count" !in ToMessage(mode, ns, e).headers
  {
    assert |TYPE| == 4 && |"x-retry-count"| == 13;
  }
}
