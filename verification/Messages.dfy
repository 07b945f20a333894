/** Messages on the wire: the fields of a Redis stream entry, the delayed item of the ZSET, and
    the retry copy a failed delivery leaves behind (redis_adapter.go, mq.go). */
module Messages {
  import opened Options
  import opened Decimal
  import opened Routing
  import opened Maps
  import Base64

  datatype Message = Message(topic: string, key: string, body: seq<Base64.Byte>, headers: map<string, string>)

  type Fields = map<string, string>

  datatype DelayItem = DelayItem(topic: string, key: string, bodyB64: string, headers: map<string, string>)

  const RETRY_COUNT := "x-retry-count"

  // ---------------------------------------------------------------- stream entries

  function BaseFields(m: Message): Fields {
    map["key" := m.key, "body" := Base64.Encode(m.body), "topic" := m.topic]
  }

  /** Header fields start with `h:`. */
  predicate IsHeaderField(f: string) {
    |f| >= 2 && f[0] == 'h' && f[1] == ':'
  }

  function HeaderField(k: string): (f: string)
    ensures IsHeaderField(f) && f[2..] == k
  {
    ['h', ':'] + k
  }

  lemma HeaderFieldOf(f: string)
    requires IsHeaderField(f)
    ensures f == HeaderField(f[2..])
  {
  }

  function HeaderFields(headers: map<string, string>): Fields {
    var names := set k | k in headers :: HeaderField(k);
    map f | f in names :: headers[f[2..]]
  }

  lemma HeaderFieldsMeaning(headers: map<string, string>, f: string)
    ensures f in HeaderFields(headers) <==> IsHeaderField(f) && f[2..] in headers
    ensures f in HeaderFields(headers) ==> HeaderFields(headers)[f] == headers[f[2..]]
  {
    if IsHeaderField(f) {
      HeaderFieldOf(f);
    }
  }

  /** The fields of the stream entry that carries a message. */
  function EncodeFields(m: Message): Fields {
    BaseFields(m) + HeaderFields(m.headers)
  }

  /** Publishing fills the fields header by header, in whatever order the map is walked. */
  method PublishFields(m: Message) returns (fields: Fields)
    ensures fields == EncodeFields(m)
  {
    fields := BaseFields(m);
    var rest := m.headers.Keys;
    PartNone(m.headers);
    NoHeaderFields(BaseFields(m));
    while rest != {}
      invariant rest <= m.headers.Keys
      invariant fields == BaseFields(m) + HeaderFields(Part(m.headers, m.headers.Keys - rest))
    {
      var k :| k in rest;
      PartMore(m.headers, rest, k);
      HeaderFieldsAdd(BaseFields(m), Part(m.headers, m.headers.Keys - rest), k, m.headers[k]);
      fields := fields[HeaderField(k) := m.headers[k]];
      rest := rest - {k};
    }
    PartAll(m.headers);
  }

  lemma NoHeaderFields(base: Fields)
    ensures base + HeaderFields(map[]) == base
  {
    assert HeaderFields(map[]).Keys == {};
  }

  lemma HeaderFieldsAdd(base: Fields, headers: map<string, string>, k: string, v: string)
    ensures base + HeaderFields(headers[k := v]) == (base + HeaderFields(headers))[HeaderField(k) := v]
  {
    HeaderFieldsUpdated(headers, k, v);
    OverlayUpdate(base, HeaderFields(headers), HeaderField(k), v);
  }

  lemma HeaderFieldsUpdated(headers: map<string, string>, k: string, v: string)
    ensures HeaderFields(headers[k := v]) == HeaderFields(headers)[HeaderField(k) := v]
  {
    var before, after := HeaderFields(headers), HeaderFields(headers[k := v]);
    forall f: string ensures f in after <==> f in before || f == HeaderField(k)
                     ensures f in after ==> after[f] == if f == HeaderField(k) then v else before[f]
    {
      HeaderFieldAdd(headers, k, v, f);
    }
  }

  lemma HeaderFieldAdd(headers: map<string, string>, k: string, v: string, f: string)
    ensures f in HeaderFields(headers[k := v]) <==> f in HeaderFields(headers) || f == HeaderField(k)
    ensures f in HeaderFields(headers[k := v]) ==>
            HeaderFields(headers[k := v])[f] == if f == HeaderField(k) then v else HeaderFields(headers)[f]
  {
    HeaderFieldsMeaning(headers[k := v], f);
    HeaderFieldsMeaning(headers, f);
    if IsHeaderField(f) {
      HeaderFieldOf(f);
    }
  }

  function Lookup(fields: Fields, f: string): string {
    if f in fields then fields[f] else ""
  }

  predicate CarriesHeader(f: string) {
    |f| > 2 && IsHeaderField(f)
  }

  function HeadersIn(fields: Fields): map<string, string> {
    var names := set f | f in fields && CarriesHeader(f) :: f[2..];
    assert forall f: string | CarriesHeader(f) :: f == HeaderField(f[2..]);
    map k | k in names :: fields[HeaderField(k)]
  }

  lemma HeadersInMeaning(fields: Fields, k: string)
    ensures k in HeadersIn(fields) <==> k != "" && HeaderField(k) in fields
    ensures k in HeadersIn(fields) ==> HeadersIn(fields)[k] == fields[HeaderField(k)]
  {
    if k != "" {
      assert CarriesHeader(HeaderField(k));
    }
    forall f: string | CarriesHeader(f) && f[2..] == k ensures f == HeaderField(k) && k != "" {
      HeaderFieldOf(f);
    }
  }

  /** What a consumer of `stream` makes of an entry. */
  function Decode(stream: string, fields: Fields): Message {
    var topic := Lookup(fields, "topic");
    Message(if topic == "" then stream else topic, Lookup(fields, "key"),
            Base64.Decode(Lookup(fields, "body")), HeadersIn(fields))
  }

  /** One field of an entry; fields of any other name are ignored. */
  function Absorb(m: Message, f: string, v: string): Message {
    if f == "key" then m.(key := v)
    else if f == "body" then m.(body := Base64.Decode(v))
    else if f == "topic" then m.(topic := v)
    else if CarriesHeader(f) then m.(headers := m.headers[f[2..] := v])
    else m
  }

  /** Decoding as the consumer does it, field by field in whatever order the map is walked. */
  method DecodeXMessage(stream: string, fields: Fields) returns (m: Message)
    ensures m == Decode(stream, fields)
  {
    var partial := Message("", "", [], map[]);
    var rest := fields.Keys;
    PartNone(fields);
    AbsorbNothing();
    while rest != {}
      invariant rest <= fields.Keys
      invariant partial == Decode("", Part(fields, fields.Keys - rest))
    {
      var f :| f in rest;
      var v := fields[f];
      PartMore(fields, rest, f);
      AbsorbField(Part(fields, fields.Keys - rest), f, v);
      partial := Absorb(partial, f, v);
      rest := rest - {f};
    }
    PartAll(fields);
    if partial.topic == "" {
      partial := partial.(topic := stream);
    }
    m := partial;
  }

  lemma AbsorbNothing()
    ensures Decode("", map[]) == Message("", "", [], map[])
  {
    assert HeadersIn(map[]).Keys == {};
  }

  lemma AbsorbField(fields: Fields, f: string, v: string)
    ensures Decode("", fields[f := v]) == Absorb(Decode("", fields), f, v)
  {
    HeadersInAdd(fields, f, v);
    AbsorbBase(fields, f, v);
    BaseNamesCarryNoHeader();
    BaseNamesDiffer();
  }

  lemma AbsorbBase(fields: Fields, f: string, v: string)
    ensures
      var (before, after) := (Decode("", fields), Decode("", fields[f := v]));
      && after.key == (if f == "key" then v else before.key)
      && after.topic == (if f == "topic" then v else before.topic)
      && after.body == (if f == "body" then Base64.Decode(v) else before.body)
  {
    LookupAdd(fields, f, v, "key");
    LookupAdd(fields, f, v, "topic");
    LookupAdd(fields, f, v, "body");
  }

  lemma BaseNamesDiffer()
    ensures "key" != "body" && "key" != "topic" && "body" != "topic"
  {
    assert "key"[0] == 'k' && "body"[0] == 'b' && "topic"[0] == 't';
  }

  lemma LookupAdd(fields: Fields, f: string, v: string, g: string)
    ensures Lookup(fields[f := v], g) == if f == g then v else Lookup(fields, g)
  {
  }

  lemma BaseNamesCarryNoHeader()
    ensures !IsHeaderField("key") && !IsHeaderField("body") && !IsHeaderField("topic")
  {
    assert "key"[0] == 'k' && "body"[0] == 'b' && "topic"[0] == 't';
  }

  lemma HeadersInAdd(fields: Fields, f: string, v: string)
    ensures HeadersIn(fields[f := v]) ==
            if CarriesHeader(f) then HeadersIn(fields)[f[2..] := v] else HeadersIn(fields)
  {
    var after := HeadersIn(fields[f := v]);
    var expected := if CarriesHeader(f) then HeadersIn(fields)[f[2..] := v] else HeadersIn(fields);
    forall k: string ensures k in after <==> k in expected
                     ensures k in after ==> after[k] == expected[k]
    {
      HeadersInMeaning(fields[f := v], k);
      HeadersInMeaning(fields, k);
      if CarriesHeader(f) {
        HeaderFieldOf(f);
      }
    }
  }

  /** The message a consumer sees after a message is published to a Redis stream. */
  function Wire(m: Message): Message {
    Decode(RedisStream(m.topic), EncodeFields(m))
  }

  /** What survives of a message on the way through a stream. */
  function Carried(m: Message): Message {
    m.(headers := m.headers - {""})
  }

  /** Publishing and consuming preserves a message, header fields never collide with the other
      fields, and only a header with an empty name is dropped. */
  lemma WireRoundTrip(m: Message)
    ensures Wire(m) == Carried(m)
    ensures Wire(m) == m <==> "" !in m.headers
  {
    BaseLookups(m);
    Base64.RoundTrip(m.body);
    HeadersKept(m);
    assert Wire(m) == m ==> m.headers == m.headers - {""};
  }

  lemma HeadersKept(m: Message)
    ensures HeadersIn(EncodeFields(m)) == m.headers - {""}
  {
    forall k: string ensures k in HeadersIn(EncodeFields(m)) <==> k in m.headers - {""}
                     ensures k in HeadersIn(EncodeFields(m)) ==> HeadersIn(EncodeFields(m))[k] == m.headers[k]
    {
      HeaderKept(m, k);
    }
  }

  lemma HeaderKept(m: Message, k: string)
    ensures k in HeadersIn(EncodeFields(m)) <==> k in m.headers && k != ""
    ensures k in HeadersIn(EncodeFields(m)) ==> HeadersIn(EncodeFields(m))[k] == m.headers[k]
  {
    HeadersInMeaning(EncodeFields(m), k);
    HeaderFieldsMeaning(m.headers, HeaderField(k));
    BaseNamesCarryNoHeader();
  }

  lemma BaseLookups(m: Message)
    ensures Lookup(EncodeFields(m), "key") == m.key
    ensures Lookup(EncodeFields(m), "body") == Base64.Encode(m.body)
    ensures Lookup(EncodeFields(m), "topic") == m.topic
  {
    BaseFieldsKept(m);
    BaseNamesDiffer();
  }

  lemma BaseFieldsKept(m: Message)
    ensures forall f | f in BaseFields(m) :: f in EncodeFields(m) && EncodeFields(m)[f] == BaseFields(m)[f]
  {
    BaseNamesCarryNoHeader();
    forall f | f in BaseFields(m) ensures f !in HeaderFields(m.headers) {
      HeaderFieldsMeaning(m.headers, f);
    }
  }

  /** The names of the fields of an entry, and what is stored under them. */
  lemma FieldNames(m: Message, k: string)
    ensures
      var fields := EncodeFields(m);
      && "key" in fields && fields["key"] == m.key
      && "topic" in fields && fields["topic"] == m.topic
      && "body" in fields && fields["body"] == Base64.Encode(m.body)
      && ("h:" + k in fields <==> k in m.headers)
      && (k in m.headers ==> fields["h:" + k] == m.headers[k])
  {
    BaseFieldsKept(m);
    BaseNamesDiffer();
    assert "h:" + k == HeaderField(k);
    HeaderFieldsMeaning(m.headers, HeaderField(k));
    BaseNamesCarryNoHeader();
  }

  /** What becomes of an entry that somebody else wrote: missing fields read as empty, an empty
      topic as the name of the stream, and any other field is ignored. */
  lemma ForeignEntry(stream: string, fields: Fields, k: string)
    ensures
      var m := Decode(stream, fields);
      && m.topic == (if "topic" in fields && fields["topic"] != "" then fields["topic"] else stream)
      && m.key == (if "key" in fields then fields["key"] else "")
      && ("body" !in fields ==> m.body == [])
      && (k in m.headers <==> k != "" && "h:" + k in fields)
      && (k in m.headers ==> m.headers[k] == fields["h:" + k])
  {
    assert "h:" + k == HeaderField(k);
    HeadersInMeaning(fields, k);
  }

  // ---------------------------------------------------------------- delayed items

  function ToDelay(m: Message): DelayItem {
    DelayItem(m.topic, m.key, Base64.Encode(m.body), m.headers)
  }

  function FromDelay(d: DelayItem): Message {
    Message(d.topic, d.key, Base64.Decode(d.bodyB64), d.headers)
  }

  lemma DelayRoundTrip(m: Message)
    ensures FromDelay(ToDelay(m)) == m
  {
    Base64.RoundTrip(m.body);
  }

  // ---------------------------------------------------------------- retries

  method CopyHeaders(h: map<string, string>) returns (m: map<string, string>)
    ensures m == h
  {
    m := map[];
    var rest := h.Keys;
    PartNone(h);
    while rest != {}
      invariant rest <= h.Keys
      invariant m == Part(h, h.Keys - rest)
    {
      var k :| k in rest;
      PartMore(h, rest, k);
      m := m[k := h[k]];
      rest := rest - {k};
    }
    PartAll(h);
  }

  /** The retry count of a message; a missing or unreadable header counts as zero. */
  function Attempt(headers: map<string, string>): (a: int)
    ensures MIN_INT <= a <= MAX_INT
  {
    if RETRY_COUNT in headers then Atoi(headers[RETRY_COUNT]).GetOr(0) else 0
  }

  method ReadAttempt(headers: map<string, string>) returns (attempt: int)
    ensures attempt == Attempt(headers)
  {
    attempt := 0;
    if RETRY_COUNT in headers {
      var n := Atoi(headers[RETRY_COUNT]);
      if n.Some? {
        attempt := n.value;
      }
    }
  }

  /** The count of the next try, in 64-bit arithmetic. */
  function NextAttempt(a: int): int {
    if a == MAX_INT then MIN_INT else a + 1
  }

  /** The copy that a failed delivery schedules. */
  function RetryCopy(m: Message): Message {
    m.(headers := m.headers[RETRY_COUNT := Itoa(NextAttempt(Attempt(m.headers)))])
  }

  lemma RetryCopyCount(m: Message)
    ensures Attempt(RetryCopy(m).headers) == NextAttempt(Attempt(m.headers))
  {
    AtoiItoa(NextAttempt(Attempt(m.headers)));
  }

  /** From a failed delivery to the next one: retry copy, ZSET item, scheduler, stream entry and
      decoding. */
  function Redeliver(m: Message): Message {
    Wire(FromDelay(ToDelay(RetryCopy(m))))
  }

  function Iterate<T>(f: T -> T, x: T, n: nat): T {
    if n == 0 then x else f(Iterate(f, x, n - 1))
  }

  /** The message seen at the delivery that follows `n` failed deliveries of `m`. */
  function AfterFailures(m: Message, n: nat): Message {
    Iterate(Redeliver, Wire(m), n)
  }

  /** A message with the header of an empty name gone, after `n` retries. */
  function Retried(m: Message, n: nat): Message {
    var headers := m.headers - {""};
    m.(headers := if n == 0 then headers else headers[RETRY_COUNT := Itoa(Attempt(m.headers) + n)])
  }

  /** Topic, key, body and headers survive any number of retries; the count alone grows. */
  lemma RetryRoundTrip(m: Message, n: nat)
    requires Attempt(m.headers) + n <= MAX_INT
    ensures AfterFailures(m, n) == Retried(m, n)
  {
    FirstDelivery(m);
    EveryRedelivery(m, n);
    FollowRetries(Redeliver, Wire(m), m, n);
  }

  ghost predicate CountsUp(f: Message -> Message, m: Message, n: nat) {
    forall k: nat | k < n :: f(Retried(m, k)) == Retried(m, k + 1)
  }

  lemma EveryRedelivery(m: Message, n: nat)
    requires Attempt(m.headers) + n <= MAX_INT
    ensures CountsUp(Redeliver, m, n)
  {
    var f: Message -> Message := Redeliver;
    forall k: nat | k < n ensures f(Retried(m, k)) == Retried(m, k + 1) {
      RedeliverRetried(f, m, k);
    }
  }

  lemma {:induction false} FollowRetries(f: Message -> Message, x: Message, m: Message, n: nat)
    requires x == Retried(m, 0) && CountsUp(f, m, n)
    ensures Iterate(f, x, n) == Retried(m, n)
    decreases n
  {
    if n > 0 {
      FollowRetries(f, x, m, n - 1);
      assert f(Retried(m, n - 1)) == Retried(m, n);
    }
  }

  lemma FirstDelivery(m: Message)
    ensures Wire(m) == Retried(m, 0)
  {
    WireRoundTrip(m);
  }

  lemma RedeliverRetried(f: Message -> Message, m: Message, k: nat)
    requires f == Redeliver && Attempt(m.headers) + k + 1 <= MAX_INT
    ensures f(Retried(m, k)) == Retried(m, k + 1)
  {
    RetryAgain(m, k + 1);
    RetryStep(Retried(m, k));
  }

  lemma RetriedCount(m: Message, n: nat)
    requires Attempt(m.headers) + n <= MAX_INT
    ensures Attempt(Retried(m, n).headers) == Attempt(m.headers) + n
    ensures "" !in Retried(m, n).headers
  {
    assert RETRY_COUNT[0] == 'x';
    AtoiItoa(Attempt(m.headers) + n);
  }

  lemma RetryAgain(m: Message, n: nat)
    requires n > 0 && Attempt(m.headers) + n <= MAX_INT
    ensures RetryCopy(Retried(m, n - 1)) == Retried(m, n)
    ensures "" !in Retried(m, n - 1).headers
  {
    RetriedCount(m, n - 1);
    RewriteHeader(m.headers, RETRY_COUNT, Itoa(Attempt(m.headers) + n - 1), Itoa(Attempt(m.headers) + n));
  }

  lemma RetryStep(m: Message)
    requires "" !in m.headers
    ensures Redeliver(m) == RetryCopy(m)
  {
    DelayRoundTrip(RetryCopy(m));
    WireRoundTrip(RetryCopy(m));
    assert RETRY_COUNT[0] == 'x';
  }

  lemma RewriteHeader(headers: map<string, string>, name: string, v: string, w: string)
    ensures (headers - {""})[name := v][name := w] == (headers - {""})[name := w]
  {
  }

  // ---------------------------------------------------------------- messages without a count

  /** No header says how often the message was tried, or none that is a number. */
  predicate Countless(headers: map<string, string>) {
    "x-retry-count" !in headers || Atoi(headers["x-retry-count"]).None?
  }

  lemma OneDigit()
    ensures Itoa(0) == "0" && Itoa(1) == "1"
  {
  }

  /** The first failure of a message without a count puts off a copy with the count "1". */
  lemma FirstCopy(m: Message)
    requires Countless(m.headers)
    ensures Attempt(m.headers) == 0 && NextAttempt(Attempt(m.headers)) == 1
    ensures RetryCopy(m) == m.(headers := m.headers["x-retry-count" := "1"])
  {
    OneDigit();
  }

  /** After n failures its count is the decimal of n, and nothing else has changed. */
  lemma CountAfterFailures(m: Message, n: nat)
    requires Countless(m.headers) && n <= MAX_INT
    ensures
      var seen := AfterFailures(m, n);
      && seen.topic == m.topic && seen.key == m.key && seen.body == m.body
      && seen.headers == (if n == 0 then m.headers - {""} else (m.headers - {""})["x-retry-count" := Digits(n)])
      && Attempt(seen.headers) == n
  {
    FirstCopy(m);
    RetryRoundTrip(m, n);
    RetriedCount(m, n);
    RetriedSpelled(m, n, AfterFailures(m, n));
  }

  lemma RetriedSpelled(m: Message, n: nat, seen: Message)
    requires Attempt(m.headers) == 0 && seen == Retried(m, n)
    ensures seen.topic == m.topic && seen.key == m.key && seen.body == m.body
    ensures seen.headers == if n == 0 then m.headers - {""} else (m.headers - {""})["x-retry-count" := Digits(n)]
  {
  }

  /** `seen` is `m` with n failures behind it: only headers differ, and of these only the count,
      which is n, and one without a name. */
  ghost predicate Tried(m: Message, n: nat, seen: Message) {
    && seen.topic == m.topic && seen.key == m.key && seen.body == m.body
    && Attempt(seen.headers) == n
    && seen.headers - {"x-retry-count"} == m.headers - {"", "x-retry-count"}
  }

  lemma TriedAfterFailures(m: Message, n: nat)
    requires Countless(m.headers) && n <= MAX_INT
    ensures Tried(m, n, AfterFailures(m, n))
  {
    CountAfterFailures(m, n);
    CountedIsTried(m, n, AfterFailures(m, n));
  }

  lemma CountedIsTried(m: Message, n: nat, seen: Message)
    requires seen.topic == m.topic && seen.key == m.key && seen.body == m.body && Attempt(seen.headers) == n
    requires seen.headers == if n == 0 then m.headers - {""} else (m.headers - {""})["x-retry-count" := Digits(n)]
    ensures Tried(m, n, seen)
  {
  }

  lemma NextCopy(m: Message, n: nat, seen: Message, count: string)
    requires Tried(m, n, seen)
    ensures
      seen.(headers := seen.headers["x-retry-count" := count]) ==
      m.(headers := (m.headers - {""})["x-retry-count" := count])
  {
    SameBut(seen.headers, m.headers - {""}, "x-retry-count", count);
  }

  lemma SameBut(a: map<string, string>, b: map<string, string>, k: string, v: string)
    requires a - {k} == b - {k}
    ensures a[k := v] == b[k := v]
  {
    forall x | x != k ensures x in a <==> x in b
                      ensures x in a ==> a[x] == b[x]
    {
      assert x in a - {k} <==> x in a;
      assert x in b - {k} <==> x in b;
      assert x in a ==> (a - {k})[x] == a[x] && (b - {k})[x] == b[x];
    }
  }
}
