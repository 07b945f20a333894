/** The RabbitMQ adapter (rabbitmq_adapter.go): header tables, the delay header, and what happens
    to one delivery. Queues, exchanges and redelivery belong to the broker. */
module Rabbit {
  import opened Options
  import opened Decimal
  import opened Maps
  import opened Messages
  import opened Backoff
  import Base64

  /** A field value of an AMQP header table. */
  datatype Value = Text(s: string) | Number(n: int) | Other

  type Table = map<string, Value>

  function ToTable(headers: map<string, string>): Table {
    map k | k in headers :: Text(headers[k])
  }

  /** Texts and integers become strings; anything else is dropped. */
  function FromTable(t: Table): map<string, string> {
    map k | k in t && !t[k].Other? :: if t[k].Text? then t[k].s else Itoa(t[k].n)
  }

  method StringMapToTable(headers: map<string, string>) returns (t: Table)
    ensures t == ToTable(headers)
  {
    t := map[];
    var rest := headers.Keys;
    PartNone(headers);
    while rest != {}
      invariant rest <= headers.Keys
      invariant t == ToTable(Part(headers, headers.Keys - rest))
    {
      var k :| k in rest;
      PartMore(headers, rest, k);
      t := t[k := Text(headers[k])];
      rest := rest - {k};
    }
    PartAll(headers);
  }

  method TableToStringMap(t: Table) returns (headers: map<string, string>)
    ensures headers == FromTable(t)
  {
    headers := map[];
    var rest := t.Keys;
    PartNone(t);
    while rest != {}
      invariant rest <= t.Keys
      invariant headers == FromTable(Part(t, t.Keys - rest))
    {
      var k :| k in rest;
      PartMore(t, rest, k);
      FromTableMore(Part(t, t.Keys - rest), k, t[k]);
      match t[k] {
        case Text(s) => headers := headers[k := s];
        case Number(n) => headers := headers[k := Itoa(n)];
        case Other =>
      }
      rest := rest - {k};
    }
    PartAll(t);
  }

  lemma FromTableMore(t: Table, k: string, v: Value)
    requires k !in t
    ensures FromTable(t[k := v]) ==
            match v
            case Text(s) => FromTable(t)[k := s]
            case Number(n) => FromTable(t)[k := Itoa(n)]
            case Other => FromTable(t)
  {
  }

  /** What cannot become a string is left out, as if it had not been there. */
  lemma OthersAreDropped(t: Table, k: string)
    ensures FromTable(t[k := Other]) == FromTable(t - {k})
  {
  }

  datatype DelayMode = Standard | Aliyun

  function DelayHeader(mode: DelayMode): string {
    match mode
    case Standard => "x-delay"
    case Aliyun => "delay"
  }

  /** The header table of a delayed message: a number of milliseconds, or their digits. */
  function DelayTable(mode: DelayMode, headers: map<string, string>, ms: int): Table {
    ToTable(headers)[DelayHeader(mode) := if mode.Standard? then Number(ms) else Text(Itoa(ms))]
  }

  function Millis(duration: nat): nat {
    duration / 1_000_000
  }

  /** Headers come back as they went; a delayed message also shows its delay in milliseconds. */
  lemma TableRoundTrip(mode: DelayMode, headers: map<string, string>, ms: int)
    ensures FromTable(ToTable(headers)) == headers
    ensures FromTable(DelayTable(mode, headers, ms)) == headers[DelayHeader(mode) := Itoa(ms)]
  {
  }

  /** Where the delay stands and how: a number of whole milliseconds under `x-delay`, or its digits
      under `delay`; every other header is left as it is. */
  lemma DelayTableSpelled(headers: map<string, string>, duration: nat, k: string)
    ensures
      var t := DelayTable(Standard, headers, Millis(duration));
      && "x-delay" in t && t["x-delay"] == Number(duration / 1_000_000)
      && (k != "x-delay" ==> (k in t <==> k in headers) && (k in headers ==> t[k] == Text(headers[k])))
    ensures
      var t := DelayTable(Aliyun, headers, Millis(duration));
      && "delay" in t && t["delay"] == Text(Digits(duration / 1_000_000))
      && (k != "delay" ==> (k in t <==> k in headers) && (k in headers ==> t[k] == Text(headers[k])))
  {
  }

  // ---------------------------------------------------------------- one delivery

  datatype Delivery = Delivery(routingKey: string, messageId: string, body: seq<Base64.Byte>, table: Table)

  datatype Verdict = Acked | Requeued

  function Decoded(d: Delivery): Message {
    Message(d.routingKey, d.messageId, d.body, FromTable(d.table))
  }

  function RetryDelivery(mode: DelayMode, retry: Retry, m: Message): Delivery
    requires retry.base > 0 && retry.factor > 0.0
  {
    var wait := Delay(retry, NextAttempt(Attempt(m.headers)) - 1);
    Delivery(m.topic, m.key, m.body, DelayTable(mode, RetryCopy(m).headers, Millis(wait)))
  }

  /** What one delivery comes to: the copy offered to the delay exchange, and the verdict. */
  function Outcome(mode: DelayMode, retry: Retry, d: Delivery, handlerOk: bool, published: bool): (Option<Delivery>, Verdict)
    requires retry.base > 0 && retry.factor > 0.0
  {
    var m := Decoded(d);
    if handlerOk || NextAttempt(Attempt(m.headers)) > retry.maxRetries then (None, Acked)
    else (Some(RetryDelivery(mode, retry, m)), if published then Acked else Requeued)
  }

  method HandleDelivery(mode: DelayMode, retry: Retry, d: Delivery, handlerOk: bool, published: bool)
    returns (offered: Option<Delivery>, verdict: Verdict)
    requires retry.base > 0 && retry.factor > 0.0
    ensures (offered, verdict) == Outcome(mode, retry, d, handlerOk, published)
  {
    var headers := TableToStringMap(d.table);
    offered := None;
    if !handlerOk {
      var attempt := ReadAttempt(headers);
      var nextAttempt := NextAttempt(attempt);
      if nextAttempt <= retry.maxRetries {
        var h := CopyHeaders(headers);
        h := h[RETRY_COUNT := Itoa(nextAttempt)];
        var wait := Delay(retry, nextAttempt - 1);
        var table := StringMapToTable(h);
        var ms := Millis(wait);
        table := table[DelayHeader(mode) := if mode == Standard then Number(ms) else Text(Itoa(ms))];
        offered := Some(Delivery(d.routingKey, d.messageId, d.body, table));
        if published {
          return offered, Acked;
        }
      }
      if nextAttempt > retry.maxRetries {
        verdict := Acked;
      } else {
        verdict := Requeued;
      }
    } else {
      verdict := Acked;
    }
  }

  /** A delivery leaves its queue only if it was handled, or is exhausted, or its copy with the
      count raised by one was published; otherwise the broker is asked to deliver it again. */
  lemma AckedForAReason(mode: DelayMode, retry: Retry, d: Delivery, handlerOk: bool, published: bool)
    requires retry.base > 0 && retry.factor > 0.0
    ensures
      var (offered, verdict) := Outcome(mode, retry, d, handlerOk, published);
      && (verdict.Acked? <==>
            handlerOk || NextAttempt(Attempt(Decoded(d).headers)) > retry.maxRetries || (offered.Some? && published))
      && (offered.Some? <==> !handlerOk && NextAttempt(Attempt(Decoded(d).headers)) <= retry.maxRetries)
      && (offered.Some? ==>
            && Attempt(Decoded(offered.value).headers) == NextAttempt(Attempt(Decoded(d).headers))
            && Decoded(offered.value).topic == Decoded(d).topic
            && Decoded(offered.value).key == Decoded(d).key && Decoded(offered.value).body == Decoded(d).body)
  {
    var m := Decoded(d);
    var next := NextAttempt(Attempt(m.headers));
    RetryHeaders(mode, retry, m);
    NamesDiffer(mode);
    AtoiItoa(next);
  }

  lemma NamesDiffer(mode: DelayMode)
    ensures DelayHeader(mode) != RETRY_COUNT
  {
    assert |"x-delay"| == 7 && |"delay"| == 5 && |RETRY_COUNT| == 13;
  }

  lemma RetryHeaders(mode: DelayMode, retry: Retry, m: Message)
    requires retry.base > 0 && retry.factor > 0.0
    ensures
      var next := NextAttempt(Attempt(m.headers));
      Decoded(RetryDelivery(mode, retry, m)) ==
        m.(headers := m.headers[RETRY_COUNT := Itoa(next)][DelayHeader(mode) := Itoa(Millis(Delay(retry, next - 1)))])
  {
    TableRoundTrip(mode, RetryCopy(m).headers, Millis(Delay(retry, NextAttempt(Attempt(m.headers)) - 1)));
  }

  // ---------------------------------------------------------------- any number of retries

  /** The message seen at the delivery after `n` failed ones. */
  function AfterRejections(mode: DelayMode, retry: Retry, m: Message, n: nat): Message
    requires retry.base > 0 && retry.factor > 0.0
    decreases n
  {
    if n == 0 then m else Decoded(RetryDelivery(mode, retry, AfterRejections(mode, retry, m, n - 1)))
  }

  function Rejected(mode: DelayMode, retry: Retry, m: Message, n: nat): Message
    requires retry.base > 0 && retry.factor > 0.0
  {
    var a := Attempt(m.headers);
    if n == 0 then m
    else m.(headers := m.headers[RETRY_COUNT := Itoa(a + n)][DelayHeader(mode) := Itoa(Millis(Delay(retry, a + n - 1)))])
  }

  lemma RejectedCount(mode: DelayMode, retry: Retry, m: Message, n: nat)
    requires retry.base > 0 && retry.factor > 0.0 && Attempt(m.headers) + n <= MAX_INT
    ensures Attempt(Rejected(mode, retry, m, n).headers) == Attempt(m.headers) + n
  {
    NamesDiffer(mode);
    AtoiItoa(Attempt(m.headers) + n);
  }

  lemma Overwrite(h: map<string, string>, k: string, l: string, v: string, w: string, x: string, y: string)
    requires k != l
    ensures h[k := v][l := w][k := x][l := y] == h[k := x][l := y]
  {
  }

  lemma RejectedOnce(mode: DelayMode, retry: Retry, m: Message)
    requires retry.base > 0 && retry.factor > 0.0 && Attempt(m.headers) + 1 <= MAX_INT
    ensures Decoded(RetryDelivery(mode, retry, m)) == Rejected(mode, retry, m, 1)
  {
    RetryHeaders(mode, retry, m);
  }

  lemma RejectedAgain(mode: DelayMode, retry: Retry, m: Message, n: nat)
    requires retry.base > 0 && retry.factor > 0.0
    requires n > 1 && Attempt(m.headers) + n <= MAX_INT
    ensures Decoded(RetryDelivery(mode, retry, Rejected(mode, retry, m, n - 1))) == Rejected(mode, retry, m, n)
  {
    var a := Attempt(m.headers);
    NamesDiffer(mode);
    RejectedCount(mode, retry, m, n - 1);
    RetryHeaders(mode, retry, Rejected(mode, retry, m, n - 1));
    Overwrite(m.headers, RETRY_COUNT, DelayHeader(mode), Itoa(a + n - 1), Itoa(Millis(Delay(retry, a + n - 2))),
              Itoa(a + n), Itoa(Millis(Delay(retry, a + n - 1))));
  }

  /** Topic, key, body and headers survive any number of retries, except for the count and the
      delay of the last one. */
  lemma {:induction false} RejectionRoundTrip(mode: DelayMode, retry: Retry, m: Message, n: nat)
    requires retry.base > 0 && retry.factor > 0.0 && Attempt(m.headers) + n <= MAX_INT
    ensures AfterRejections(mode, retry, m, n) == Rejected(mode, retry, m, n)
    decreases n
  {
    if n == 1 {
      RejectionRoundTrip(mode, retry, m, 0);
      RejectedOnce(mode, retry, m);
    } else if n > 1 {
      RejectionRoundTrip(mode, retry, m, n - 1);
      RejectedAgain(mode, retry, m, n);
    }
  }

  // ---------------------------------------------------------------- messages without a count

  /** A message without a count is offered again after exactly its first `maxRetries` failures,
      each time after the delay of the policy, and then acknowledged. */
  lemma OfferedExactly(mode: DelayMode, retry: Retry, m: Message, n: nat, d: Delivery, published: bool)
    requires retry.base > 0 && retry.factor > 0.0 && Countless(m.headers) && n < MAX_INT
    requires Decoded(d) == AfterRejections(mode, retry, m, n)
    ensures
      var (offered, verdict) := Outcome(mode, retry, d, false, published);
      && (offered.Some? <==> n < retry.maxRetries)
      && (n >= retry.maxRetries ==> verdict == Acked)
      && (n < retry.maxRetries ==> verdict == if published then Acked else Requeued)
      && (offered.Some? ==> && offered.value.table[DelayHeader(mode)] ==
                                 (if mode.Standard? then Number(Delay(retry, n) / 1_000_000)
                                  else Text(Itoa(Delay(retry, n) / 1_000_000)))
                            && Decoded(offered.value).headers["x-retry-count"] == Itoa(n + 1))
  {
    FirstCopy(m);
    RejectionRoundTrip(mode, retry, m, n);
    RejectedCount(mode, retry, m, n);
    RetryHeaders(mode, retry, Decoded(d));
    NamesDiffer(mode);
  }
}
