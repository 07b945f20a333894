/** The idempotency middleware (middleware_idempotency.go): a key is marked before the handler
    runs, with an atomic set-if-absent that expires, and deliveries of a marked key are skipped. */
module Idempotency {
  import opened Options
  import opened Words
  import opened Messages
  import Base64

  /** The key-value store: when each key expires. */
  type Marks = map<string, int>

  predicate Marked(marks: Marks, key: string, now: int) {
    key in marks && now < marks[key]
  }

  const DAY := 86_400_000_000_000

  /** `digest` stands for the hash of the raw key, printed in hex. */
  datatype Config = Config(prefix: string, ttl: int, digest: string -> string, keyFunc: Option<Message -> Option<string>>)

  function Prefix(cfg: Config): string {
    if cfg.prefix == "" then "tq:idem" else cfg.prefix
  }

  function Ttl(cfg: Config): (t: int)
    ensures t > 0
  {
    if cfg.ttl <= 0 then DAY else cfg.ttl
  }

  /** The business key: the message's own, or else what the key function finds. */
  function RawKey(cfg: Config, m: Message): string {
    if m.key != "" || cfg.keyFunc.None? then m.key
    else cfg.keyFunc.value(m).GetOr("")
  }

  function StoreKey(cfg: Config, raw: string): string {
    Prefix(cfg) + ":" + cfg.digest(raw)
  }

  /** How the store answers; a call without an answer may still have set the key. */
  datatype Answer = Answered | Failed(applied: bool)

  datatype Verdict = Run | Skip | Error

  /** One delivery through the middleware: the marks afterwards, and what becomes of it. */
  function Deliver(cfg: Config, marks: Marks, m: Message, now: int, answer: Answer): (Marks, Verdict) {
    var raw := RawKey(cfg, m);
    var key := StoreKey(cfg, raw);
    if raw == "" then (marks, Run)
    else if Marked(marks, key, now) then (marks, if answer.Answered? then Skip else Error)
    else if answer.Answered? then (marks[key := now + Ttl(cfg)], Run)
    else (if answer.applied then marks[key := now + Ttl(cfg)] else marks, Error)
  }

  class Store {
    var marks: Marks

    constructor ()
      ensures marks == map[]
    {
      marks := map[];
    }

    method SetNX(key: string, now: int, ttl: int, answer: Answer) returns (ok: Option<bool>)
      modifies this
      ensures marks == if !Marked(old(marks), key, now) && answer != Failed(false)
                       then old(marks)[key := now + ttl] else old(marks)
      ensures ok == if answer.Answered? then Some(!Marked(old(marks), key, now)) else None
    {
      var free := !Marked(marks, key, now);
      if free && answer != Failed(false) {
        marks := marks[key := now + ttl];
      }
      ok := if answer.Answered? then Some(free) else None;
    }
  }

  method Handle(cfg: Config, store: Store, m: Message, now: int, answer: Answer) returns (v: Verdict)
    modifies store
    ensures (store.marks, v) == Deliver(cfg, old(store.marks), m, now, answer)
  {
    var keyRaw := m.key;
    if keyRaw == "" && cfg.keyFunc.Some? {
      var s := cfg.keyFunc.value(m);
      if s.Some? {
        keyRaw := s.value;
      }
    }
    if keyRaw == "" {
      return Run;
    }
    var ok := store.SetNX(StoreKey(cfg, keyRaw), now, Ttl(cfg), answer);
    if ok.None? {
      return Error;
    }
    if !ok.value {
      return Skip;
    }
    return Run;
  }

  // ---------------------------------------------------------------- whole histories

  /** A delivery that reaches the middleware's SETNX at `time`. SETNX is atomic, so a history of
      any number of concurrent deliveries is the sequence of their SETNX calls. */
  datatype Arrival = Arrival(m: Message, time: int, answer: Answer)

  /** The times at which handlers start under a store key. */
  function Starts(cfg: Config, marks: Marks, arrivals: seq<Arrival>, key: string): seq<int>
    decreases |arrivals|
  {
    if |arrivals| == 0 then []
    else
      var a := arrivals[0];
      var (marks', v) := Deliver(cfg, marks, a.m, a.time, a.answer);
      var mine := v.Run? && RawKey(cfg, a.m) != "" && StoreKey(cfg, RawKey(cfg, a.m)) == key;
      (if mine then [a.time] else []) + Starts(cfg, marks', arrivals[1..], key)
  }

  ghost predicate Spaced(ts: seq<int>, gap: int) {
    forall i | 0 <= i < |ts| - 1 :: ts[i + 1] >= ts[i] + gap
  }

  lemma SpacedCons(t: int, ts: seq<int>, gap: int)
    requires Spaced(ts, gap) && (|ts| > 0 ==> ts[0] >= t + gap)
    ensures Spaced([t] + ts, gap)
  {
    var all := [t] + ts;
    forall i | 0 <= i < |all| - 1 ensures all[i + 1] >= all[i] + gap {
      if i > 0 {
        assert ts[i] >= ts[i - 1] + gap;
      }
    }
  }

  /** Handlers of one key start at least a time-to-live apart, across all groups, retries and
      redeliveries, and not before an existing mark has expired. */
  lemma {:induction false} StartsSpaced(cfg: Config, marks: Marks, arrivals: seq<Arrival>, key: string)
    ensures
      var ts := Starts(cfg, marks, arrivals, key);
      && Spaced(ts, Ttl(cfg))
      && (|ts| > 0 && key in marks ==> ts[0] >= marks[key])
    decreases |arrivals|
  {
    if |arrivals| > 0 {
      var a := arrivals[0];
      var (marks', v) := Deliver(cfg, marks, a.m, a.time, a.answer);
      var rest := Starts(cfg, marks', arrivals[1..], key);
      StartsSpaced(cfg, marks', arrivals[1..], key);
      if v.Run? && RawKey(cfg, a.m) != "" && StoreKey(cfg, RawKey(cfg, a.m)) == key {
        SpacedCons(a.time, rest, Ttl(cfg));
      }
    }
  }

  function CountWithin(ts: seq<int>, from: int, to: int): nat {
    if |ts| == 0 then 0
    else (if from <= ts[0] <= to then 1 else 0) + CountWithin(ts[1..], from, to)
  }

  lemma SpacedTail(ts: seq<int>, gap: int)
    requires gap > 0 && Spaced(ts, gap) && |ts| > 0
    ensures Spaced(ts[1..], gap) && (|ts| > 1 ==> ts[1..][0] >= ts[0] + gap)
  {
    var rest := ts[1..];
    forall i | 0 <= i < |rest| - 1 ensures rest[i + 1] >= rest[i] + gap {
      assert ts[i + 2] >= ts[i + 1] + gap;
    }
  }

  lemma {:induction false} CountLater(ts: seq<int>, from: int, later: int, to: int, gap: int)
    requires gap > 0 && Spaced(ts, gap) && from <= later && (|ts| > 0 ==> ts[0] >= later)
    ensures CountWithin(ts, from, to) == CountWithin(ts, later, to)
    decreases |ts|
  {
    if |ts| > 0 {
      SpacedTail(ts, gap);
      CountLater(ts[1..], from, later, to, gap);
    }
  }

  lemma {:induction false} CountBound(ts: seq<int>, from: int, length: nat, gap: int)
    requires gap > 0 && Spaced(ts, gap)
    ensures CountWithin(ts, from, from + length) * gap <= length + gap
    decreases |ts|
  {
    if |ts| > 0 {
      var to, rest := from + length, ts[1..];
      SpacedTail(ts, gap);
      if from <= ts[0] <= to {
        var next := ts[0] + gap;
        CountLater(rest, from, next, to, gap);
        if next <= to {
          CountBound(rest, next, to - next, gap);
        } else {
          NoneWithin(rest, next, to);
        }
        OneMore(CountWithin(rest, next, to), gap);
      } else {
        CountBound(rest, from, length, gap);
      }
    }
  }

  lemma OneMore(n: nat, gap: int)
    ensures (1 + n) * gap == gap + n * gap
  {
  }

  lemma AsQuotient(n: nat, length: nat, gap: int)
    requires gap > 0 && n * gap <= length + gap
    ensures n <= length / gap + 1
  {
    var spare := length / gap + 2 - n;
    assert length < length / gap * gap + gap;
    assert spare * gap == length / gap * gap + 2 * gap - n * gap;
    PositiveFactor(spare, gap);
  }

  lemma PositiveFactor(x: int, gap: int)
    requires gap > 0 && x * gap > 0
    ensures x > 0
  {
  }

  lemma {:induction false} NoneWithin(ts: seq<int>, from: int, to: int)
    requires to < from
    ensures CountWithin(ts, from, to) == 0
  {
    if |ts| > 0 {
      NoneWithin(ts[1..], from, to);
    }
  }

  /** At most once per window: in any stretch of time of the given length a key's handler starts
      at most length/ttl + 1 times. */
  lemma AtMostOncePerWindow(cfg: Config, marks: Marks, arrivals: seq<Arrival>, key: string, from: int, length: nat)
    ensures CountWithin(Starts(cfg, marks, arrivals, key), from, from + length) <= length / Ttl(cfg) + 1
  {
    StartsSpaced(cfg, marks, arrivals, key);
    CountBound(Starts(cfg, marks, arrivals, key), from, length, Ttl(cfg));
    AsQuotient(CountWithin(Starts(cfg, marks, arrivals, key), from, from + length), length, Ttl(cfg));
  }

  /** The price: once a handler has started, every delivery with the same key inside the window
      is skipped and counts as done, even if that handler failed and this is its retry. */
  lemma RetryIsSwallowed(cfg: Config, marks: Marks, m: Message, retry: Message, now: int, later: int)
    requires RawKey(cfg, m) != "" && StoreKey(cfg, RawKey(cfg, retry)) == StoreKey(cfg, RawKey(cfg, m))
    requires RawKey(cfg, retry) != ""
    requires Deliver(cfg, marks, m, now, Answered).1.Run?
    ensures
      Deliver(cfg, Deliver(cfg, marks, m, now, Answered).0, retry, later, Answered).1 ==
        if later < now + Ttl(cfg) then Skip else Run
  {
  }

  // ---------------------------------------------------------------- who runs

  /** A message without a key of its own, and none from the key function, always runs, and the
      store does not notice. */
  lemma KeylessAlwaysRuns(cfg: Config, marks: Marks, m: Message, now: int, answer: Answer)
    requires m.key == ""
    requires cfg.keyFunc.None? || cfg.keyFunc.value(m).None? || cfg.keyFunc.value(m) == Some("")
    ensures Deliver(cfg, marks, m, now, answer) == (marks, Run)
  {
  }

  /** Where the key comes from: the message itself, or else the key function, or from nowhere. */
  lemma KeyOrigin(cfg: Config, m: Message)
    ensures m.key != "" ==> RawKey(cfg, m) == m.key
    ensures m.key == "" && cfg.keyFunc.Some? && cfg.keyFunc.value(m).Some? ==> RawKey(cfg, m) == cfg.keyFunc.value(m).value
    ensures m.key == "" && (cfg.keyFunc.None? || cfg.keyFunc.value(m).None?) ==> RawKey(cfg, m) == ""
  {
  }

  /** The marks that a history of deliveries leaves in an empty store. */
  function MarksAfter(cfg: Config, history: seq<Arrival>): Marks {
    if |history| == 0 then map[]
    else
      var a := history[|history| - 1];
      Deliver(cfg, MarksAfter(cfg, history[..|history| - 1]), a.m, a.time, a.answer).0
  }

  /** How long a mark lasts: as configured, or else a day. */
  function Window(cfg: Config): int {
    if cfg.ttl > 0 then cfg.ttl else 24 * 60 * 60 * 1_000_000_000
  }

  /** The last delivery of a digest that left a mark: it found none in force, and its command was
      carried out. */
  function LastMark(cfg: Config, history: seq<Arrival>, digest: string): Option<int> {
    if |history| == 0 then None
    else
      var earlier, a := LastMark(cfg, history[..|history| - 1], digest), history[|history| - 1];
      var raw := RawKey(cfg, a.m);
      if raw != "" && cfg.digest(raw) == digest && a.answer != Failed(false) && !InForce(cfg, earlier, a.time)
      then Some(a.time)
      else earlier
  }

  predicate InForce(cfg: Config, mark: Option<int>, now: int) {
    mark.Some? && now < mark.value + Window(cfg)
  }

  lemma {:induction false} MarksAreLast(cfg: Config, history: seq<Arrival>, raw: string)
    ensures
      var key, last := StoreKey(cfg, raw), LastMark(cfg, history, cfg.digest(raw));
      && (key in MarksAfter(cfg, history) <==> last.Some?)
      && (last.Some? ==> MarksAfter(cfg, history)[key] == last.value + Window(cfg))
    decreases |history|
  {
    if |history| > 0 {
      var front, a := history[..|history| - 1], history[|history| - 1];
      MarksAreLast(cfg, front, raw);
      StoreKeysAgree(cfg, RawKey(cfg, a.m), raw);
    }
  }

  /** With a key: the handler runs if and only if the store answers and no mark of the same digest
      is in force; a mark in force means the delivery counts as done; and without an answer the
      delivery fails. The first delivery into an empty store runs. */
  lemma RunsIffUnmarked(cfg: Config, history: seq<Arrival>, m: Message, now: int, answer: Answer)
    requires RawKey(cfg, m) != ""
    ensures
      Deliver(cfg, MarksAfter(cfg, history), m, now, answer).1 ==
        if answer.Failed? then Error
        else if InForce(cfg, LastMark(cfg, history, cfg.digest(RawKey(cfg, m))), now) then Skip
        else Run
    ensures history == [] && answer.Answered? ==> Deliver(cfg, MarksAfter(cfg, history), m, now, answer).1 == Run
  {
    MarksAreLast(cfg, history, RawKey(cfg, m));
  }

  lemma StoreKeysAgree(cfg: Config, a: string, b: string)
    ensures StoreKey(cfg, a) == StoreKey(cfg, b) <==> cfg.digest(a) == cfg.digest(b)
  {
    if StoreKey(cfg, a) == StoreKey(cfg, b) {
      PrefixDecides(Prefix(cfg) + ":", cfg.digest(a), cfg.digest(b));
    }
  }

  /** The key in the store: the configured prefix or `tq:idem`, a colon, and the digest. */
  lemma StoreKeySpelled(cfg: Config, raw: string)
    ensures cfg.prefix != "" ==> StoreKey(cfg, raw) == cfg.prefix + ":" + cfg.digest(raw)
    ensures cfg.prefix == "" ==> StoreKey(cfg, raw) == "tq:idem" + ":" + cfg.digest(raw)
  {
  }

  // ---------------------------------------------------------------- jobs

  /** The message made up for a job: its name goes into the topic, which no key is made from. */
  function JobMessage(name: string, key: string, payload: seq<Base64.Byte>): Message {
    Message("job." + name, key, payload, map[])
  }

  /** The key function a client installs for jobs, and what it comes to: the job's key, or else
      the text of its payload. */
  ghost predicate ClientKeys(cfg: Config, text: seq<Base64.Byte> -> string) {
    && cfg.keyFunc.Some?
    && forall m: Message :: cfg.keyFunc.value(m) == Some(if m.key != "" then m.key else text(m.body))
  }

  function JobKey(text: seq<Base64.Byte> -> string, key: string, payload: seq<Base64.Byte>): string {
    if key != "" then key else text(payload)
  }

  lemma JobRawKey(cfg: Config, text: seq<Base64.Byte> -> string, name: string, key: string, payload: seq<Base64.Byte>)
    requires ClientKeys(cfg, text)
    ensures RawKey(cfg, JobMessage(name, key, payload)) == JobKey(text, key, payload)
  {
    assert cfg.keyFunc.value(JobMessage(name, key, payload)) == Some(JobKey(text, key, payload));
  }

  /** The job middleware: the message is made up of name, key and payload. */
  method HandleJob(cfg: Config, store: Store, name: string, key: string, payload: seq<Base64.Byte>, now: int, answer: Answer)
    returns (v: Verdict)
    modifies store
    ensures (store.marks, v) == Deliver(cfg, old(store.marks), JobMessage(name, key, payload), now, answer)
  {
    v := Handle(cfg, store, JobMessage(name, key, payload), now, answer);
  }

  /** When one job makes another be skipped, under any two names: their keys, or the payload text
      in place of a missing key, have the same digest, and the second comes within the time to
      live of the first. Otherwise the first has no influence on the second. */
  lemma JobBlocksJobIff(cfg: Config, text: seq<Base64.Byte> -> string, marks: Marks,
                        a: string, k1: string, p1: seq<Base64.Byte>, now: int,
                        b: string, k2: string, p2: seq<Base64.Byte>, later: int)
    requires ClientKeys(cfg, text)
    requires Deliver(cfg, marks, JobMessage(a, k1, p1), now, Answered).1.Run?
    ensures
      var r1, r2 := JobKey(text, k1, p1), JobKey(text, k2, p2);
      var marks' := Deliver(cfg, marks, JobMessage(a, k1, p1), now, Answered).0;
      var second := JobMessage(b, k2, p2);
      if r1 != "" && r2 != "" && cfg.digest(r1) == cfg.digest(r2)
      then Deliver(cfg, marks', second, later, Answered).1 == (if later < now + Ttl(cfg) then Skip else Run)
      else Deliver(cfg, marks', second, later, Answered).1 == Deliver(cfg, marks, second, later, Answered).1
  {
    JobRawKey(cfg, text, a, k1, p1);
    JobRawKey(cfg, text, b, k2, p2);
    StoreKeysAgree(cfg, JobKey(text, k1, p1), JobKey(text, k2, p2));
  }
}
