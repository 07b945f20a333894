/** The goroutines of one consumer, the same in both adapters (redis_adapter.go,
    rabbitmq_adapter.go): a loop that takes a semaphore token, counts the goroutine in a wait
    group and starts it; goroutines that give the token back before they report done; and a
    shutdown that waits for the wait group before it closes `done`. */
module ConsumerPool {
  datatype Loop = Looping | HasToken | HasCounted | Draining | Closed

  /** A handler goroutine: in its handler; past it, with the token given back; finished. */
  datatype Worker = Handling | Released | Finished

  datatype Pool = Pool(loop: Loop, tokens: int, waiting: int, workers: seq<Worker>)

  datatype Step =
    | TakeToken | CountIn | Spawn
    | ReleaseToken(w: nat) | Done(w: nat)
    | StopLoop | CloseDone

  /** An unset or negative concurrency counts as one. */
  function Capacity(concurrency: int): (c: int)
    ensures c >= 1
  {
    if concurrency <= 0 then 1 else concurrency
  }

  function Init(): Pool {
    Pool(Looping, 0, 0, [])
  }

  predicate Enabled(cap: int, p: Pool, step: Step) {
    match step
    case TakeToken => p.loop.Looping? && p.tokens < cap
    case CountIn => p.loop.HasToken?
    case Spawn => p.loop.HasCounted?
    case ReleaseToken(w) => w < |p.workers| && p.workers[w].Handling?
    case Done(w) => w < |p.workers| && p.workers[w].Released?
    case StopLoop => p.loop.Looping?
    case CloseDone => p.loop.Draining? && p.waiting == 0
  }

  function Apply(cap: int, p: Pool, step: Step): Pool
    requires Enabled(cap, p, step)
  {
    match step
    case TakeToken => p.(loop := HasToken, tokens := p.tokens + 1)
    case CountIn => p.(loop := HasCounted, waiting := p.waiting + 1)
    case Spawn => p.(loop := Looping, workers := p.workers + [Handling])
    case ReleaseToken(w) => p.(tokens := p.tokens - 1, workers := p.workers[w := Released])
    case Done(w) => p.(waiting := p.waiting - 1, workers := p.workers[w := Finished])
    case StopLoop => p.(loop := Draining)
    case CloseDone => p.(loop := Closed)
  }

  function Count(ws: seq<Worker>, x: Worker): nat {
    if |ws| == 0 then 0 else Count(ws[..|ws| - 1], x) + if ws[|ws| - 1] == x then 1 else 0
  }

  lemma {:induction false} CountChange(ws: seq<Worker>, w: nat, y: Worker, x: Worker)
    requires w < |ws|
    ensures Count(ws[w := y], x) + (if ws[w] == x then 1 else 0) == Count(ws, x) + if y == x then 1 else 0
    decreases |ws|
  {
    var front := ws[..|ws| - 1];
    if w < |front| {
      CountChange(front, w, y, x);
      assert ws[w := y][..|ws| - 1] == front[w := y];
    } else {
      assert ws[w := y][..|ws| - 1] == front;
    }
  }

  lemma CountSpawn(ws: seq<Worker>, y: Worker, x: Worker)
    ensures Count(ws + [y], x) == Count(ws, x) + if y == x then 1 else 0
  {
    assert (ws + [y])[..|ws|] == ws;
  }

  /** Every token is held by a goroutine in its handler or by the loop on its way to start one;
      the wait group counts every goroutine that has not reported done. */
  predicate Inv(cap: int, p: Pool) {
    && p.tokens == Count(p.workers, Handling) + (if p.loop.HasToken? || p.loop.HasCounted? then 1 else 0)
    && p.waiting == Count(p.workers, Handling) + Count(p.workers, Released) + (if p.loop.HasCounted? then 1 else 0)
    && p.tokens <= cap
    && (p.loop.Closed? ==> p.waiting == 0)
  }

  lemma StepInv(cap: int, p: Pool, step: Step)
    requires Inv(cap, p) && Enabled(cap, p, step)
    ensures Inv(cap, Apply(cap, p, step))
  {
    match step {
      case Spawn =>
        CountSpawn(p.workers, Handling, Handling);
        CountSpawn(p.workers, Handling, Released);
      case ReleaseToken(w) =>
        CountChange(p.workers, w, Released, Handling);
        CountChange(p.workers, w, Released, Released);
      case Done(w) =>
        CountChange(p.workers, w, Finished, Handling);
        CountChange(p.workers, w, Finished, Released);
      case _ =>
    }
  }

  predicate Legal(cap: int, p: Pool, steps: seq<Step>)
    decreases |steps|
  {
    |steps| > 0 ==> Enabled(cap, p, steps[0]) && Legal(cap, Apply(cap, p, steps[0]), steps[1..])
  }

  function Exec(cap: int, p: Pool, steps: seq<Step>): Pool
    requires Legal(cap, p, steps)
    decreases |steps|
  {
    if |steps| == 0 then p else Exec(cap, Apply(cap, p, steps[0]), steps[1..])
  }

  lemma {:induction false} RunInv(cap: int, p: Pool, steps: seq<Step>)
    requires Inv(cap, p) && Legal(cap, p, steps)
    ensures Inv(cap, Exec(cap, p, steps))
    decreases |steps|
  {
    if |steps| > 0 {
      StepInv(cap, p, steps[0]);
      RunInv(cap, Apply(cap, p, steps[0]), steps[1..]);
    }
  }

  /** In every interleaving, running handlers never exceed the tokens taken, and these never the
      concurrency, or one if none is configured; the wait group covers every running handler and never goes below zero; and
      once `done` is closed no handler runs. */
  lemma BoundedAndDrained(concurrency: int, steps: seq<Step>)
    requires Legal(Capacity(concurrency), Init(), steps)
    ensures
      var p := Exec(Capacity(concurrency), Init(), steps);
      && Count(p.workers, Handling) <= p.tokens <= (if concurrency > 0 then concurrency else 1)
      && Count(p.workers, Handling) + Count(p.workers, Released) <= p.waiting
      && (p.loop.Closed? ==> Count(p.workers, Handling) == 0 && Count(p.workers, Released) == 0)
  {
    RunInv(Capacity(concurrency), Init(), steps);
  }

  lemma {:induction false} NoneCounted(ws: seq<Worker>, x: Worker, w: nat)
    requires Count(ws, x) == 0 && w < |ws|
    ensures ws[w] != x
    decreases |ws|
  {
    if w < |ws| - 1 {
      NoneCounted(ws[..|ws| - 1], x, w);
    }
  }

  /** Closing `done` is final: no step of this consumer is possible any more. */
  lemma NothingAfterClose(cap: int, p: Pool, step: Step)
    requires Inv(cap, p) && p.loop.Closed?
    ensures !Enabled(cap, p, step)
  {
    if (step.ReleaseToken? || step.Done?) && step.w < |p.workers| {
      NoneCounted(p.workers, Handling, step.w);
      NoneCounted(p.workers, Released, step.w);
    }
  }

  /** A shutdown is never stuck: while the wait group is not empty, some goroutine can move. */
  lemma DrainNeverStuck(cap: int, p: Pool) returns (step: Step)
    requires Inv(cap, p) && p.loop.Draining?
    ensures Enabled(cap, p, step)
  {
    if p.waiting == 0 {
      step := CloseDone;
    } else if Count(p.workers, Handling) > 0 {
      var w := FindWorker(p.workers, Handling);
      step := ReleaseToken(w);
    } else {
      var w := FindWorker(p.workers, Released);
      step := Done(w);
    }
  }

  lemma {:induction false} FindWorker(ws: seq<Worker>, x: Worker) returns (w: nat)
    requires Count(ws, x) > 0
    ensures w < |ws| && ws[w] == x
    decreases |ws|
  {
    if ws[|ws| - 1] == x {
      w := |ws| - 1;
    } else {
      w := FindWorker(ws[..|ws| - 1], x);
    }
  }

  /** A new handler starts only with a token, and while the loop runs it gets one unless as many
      as the concurrency are taken. */
  lemma TokenUnlessFull(concurrency: int, p: Pool)
    requires Inv(Capacity(concurrency), p) && p.loop.Looping?
    ensures !Enabled(Capacity(concurrency), p, TakeToken) <==>
            Count(p.workers, Handling) == if concurrency > 0 then concurrency else 1
  {
  }
}
