/**
 The publish flusher as a step system.  Three kinds of goroutine share the state: the one producer (Run,
 which calls enqueue, triggerFlush, shutdown and drainHibernateBatch), the goroutine of each flush the
 flusher starts, and the hibernate wake loops.  One step is one critical section, one channel operation or
 one call into the sink, the dead-letter directory or the watermark store; `Next` is the transition function.
 */
module FlushProtocol {
  import opened Common

  datatype Mode = Hibernate | DeadLetter

  /** `maxBytes == 0` means that there is no size trigger. */
  datatype Config = Config(maxBytes: nat, mode: Mode, wakeEnabled: bool, dlqLimit: nat)

  /** How a call into the environment turns out: sink, dead-letter file, watermark persist. */
  datatype Choice = Ok | Fail

  /** Where one execution of flushItems stands. */
  datatype FlushPc =
    | Publishing
    | Failed
    | Advancing(i: nat, dead: bool)
    | Counting
    | Limit(consecutive: nat)
    | Resetting
    | Exiting
    | Returned(err: Err)

  datatype Flight = Flight(batch: seq<Pending>, pc: FlushPc)

  /** Where one wake loop stands. */
  datatype Wake = Sleep | Woke | RetryCheck | Snap | Flushing(flight: Flight) | Recheck | Dying

  /** How a finished flushItems call counts for the dead-letter limit. */
  datatype Outcome = Succeeded | DeadLettered | Hibernated | Errored

  /**
   The Pipeline fields that flushes and wake loops share, with the sink, the dead-letter directory and the
   in-memory watermarks.  `acked`, `dead` and `lost` log the records of batches that the sink acknowledged,
   that a dead-letter file holds, and whose dead-letter write failed.
   */
  datatype Pipe = Pipe(
    hibernating: bool,
    retained: seq<Pending>,
    wakeRunning: bool,
    wakes: map<nat, Wake>,
    spawned: nat,
    dlq: nat,
    watermarks: map<string, int>,
    acked: seq<Pending>,
    dead: seq<Pending>,
    lost: seq<Pending>,
    outcomes: seq<Outcome>)

  /** What the producer does once waitForFlushLocked lets it go on. */
  datatype Cont = Retry(item: Pending) | Oversized(item: Pending) | Trigger | Finish | Sync

  /** Where the producer goroutine stands; `Idle` carries what its last call returned. */
  datatype Producer =
    | Idle(returned: Err)
    | EnqTop(item: Pending)
    | HibWait(item: Pending)
    | EnqBody(item: Pending)
    | OversizedAppend(item: Pending)
    | TrigBody
    | Waiting(done: nat, cont: Cont)
    | SyncTop
    | SyncFlush(done: nat)
    | Shut(err: Err)
    | DrainSnap
    | Drain(flight: Flight)
    | Stopped(err: Err)

  /** publishBuffer as a value. */
  datatype Buffer = Buffer(items: seq<Pending>, bytes: nat)

  /**
   `flights` holds the running flushes of the flusher by the channel each will close, `closes` counts the
   closes of every channel made so far and `results` what each flush returned.  `accepted` logs the records
   appended to the buffer, `handed` the batches passed to flushItems by the flusher, in start order;
   `startedHib` and `skipped` record that a flusher-owned flush started while hibernating and that a
   filtered or skipped line set a watermark.
   */
  datatype State = State(
    active: Buffer,
    flushRunning: bool,
    flushDone: nat,
    flushErr: Err,
    shuttingDown: bool,
    cancelled: bool,
    producer: Producer,
    flights: map<nat, Flight>,
    closes: seq<nat>,
    results: seq<Option<Err>>,
    pipe: Pipe,
    accepted: seq<Pending>,
    handed: seq<seq<Pending>>,
    startedHib: bool,
    skipped: bool)

  datatype Step =
    | CallEnqueue(item: Pending)
    | CallTrigger
    | CallShutdown
    | SkipLine(path: string, offset: int)
    | ProducerNext
    | ProducerCancel
    | FlushNext(id: nat, choice: Choice)
    | Complete(id: nat)
    | WakeNext(id: nat, choice: Choice)
    | WakeCancel(id: nat)
    | DrainNext(choice: Choice)
    | Cancel

  function Init(watermarks: map<string, int>): State {
    State(Buffer([], 0), false, 0, Nil, false, false, Idle(Nil), map[], [], [],
          Pipe(false, [], false, map[], 0, 0, watermarks, [], [], [], []), [], [], false, false)
  }

  // ---- hibernate.go -------------------------------------------------------------------------------------

  function EnterHibernate(cfg: Config, p: Pipe, batch: seq<Pending>): Pipe {
    var q := if batch != [] then p.(retained := batch) else p;
    if q.hibernating then q
    else if cfg.wakeEnabled && !q.wakeRunning then
      q.(hibernating := true, wakeRunning := true, wakes := q.wakes[q.spawned := Sleep], spawned := q.spawned + 1)
    else q.(hibernating := true)
  }

  function ExitHibernate(p: Pipe): Pipe {
    if p.hibernating then p.(hibernating := false, retained := []) else p
  }

  // ---- publish.go, deadletter.go ------------------------------------------------------------------------

  function Return(p: Pipe, f: Flight, err: Err, outcome: Outcome): (Pipe, Flight) {
    (p.(outcomes := p.outcomes + [outcome]), f.(pc := Returned(err)))
  }

  /** One atomic step of flushItems. */
  function FlushItemsStep(cfg: Config, p: Pipe, f: Flight, c: Choice): (Pipe, Flight)
    requires !f.pc.Returned?
  {
    match f.pc
    case Publishing =>
      if c == Ok then (p.(acked := p.acked + f.batch), f.(pc := Advancing(0, false))) else (p, f.(pc := Failed))
    case Failed =>
      if cfg.mode == Hibernate then Return(EnterHibernate(cfg, p, f.batch), f, Nil, Hibernated)
      else if c == Ok then (p.(dead := p.dead + f.batch), f.(pc := Advancing(0, true)))
      else Return(p.(lost := p.lost + f.batch), f, DeadLetterErr, Errored)
    case Advancing(i, dead) =>
      if i < |f.batch| then
        var q := p.(watermarks := p.watermarks[f.batch[i].path := f.batch[i].offset]);
        if c == Ok then (q, f.(pc := Advancing(i + 1, dead))) else Return(q, f, WatermarkErr, Errored)
      else (p, f.(pc := if dead then Counting else Resetting))
    case Counting => (p.(dlq := p.dlq + 1), f.(pc := Limit(p.dlq + 1)))
    case Limit(n) => Return(if n >= cfg.dlqLimit then EnterHibernate(cfg, p, []) else p, f, Nil, DeadLettered)
    case Resetting => (p.(dlq := 0), f.(pc := Exiting))
    case Exiting => Return(ExitHibernate(p), f, Nil, Succeeded)
  }

  // ---- the wake loop ------------------------------------------------------------------------------------

  function WakeStep(cfg: Config, p: Pipe, id: nat, c: Choice): Pipe
    requires id in p.wakes
  {
    match p.wakes[id]
    case Sleep => p.(wakes := p.wakes[id := Woke])
    case Woke => p.(wakes := p.wakes[id := if p.hibernating then RetryCheck else Dying])
    case RetryCheck => p.(wakes := p.wakes[id := if p.hibernating then Snap else Recheck])
    case Snap =>
      p.(wakes := p.wakes[id := if p.retained == [] then Recheck else Flushing(Flight(p.retained, Publishing))])
    case Flushing(f) =>
      if f.pc.Returned? then p.(wakes := p.wakes[id := Recheck])
      else
        var (q, g) := FlushItemsStep(cfg, p, f, c);
        q.(wakes := q.wakes[id := Flushing(g)])
    case Recheck => p.(wakes := p.wakes[id := if p.hibernating then Sleep else Dying])
    case Dying => p.(wakeRunning := false, wakes := p.wakes - {id})
  }

  // ---- publish_flusher.go -------------------------------------------------------------------------------

  /** The producer holds f.mu across these points, so no flush can complete there. */
  predicate HoldsLock(producer: Producer) {
    producer.HibWait? || producer.EnqBody? || producer.TrigBody?
  }

  /** Drain the buffer and start a flush of it: lines 117-122 and 147-154. */
  function StartFlush(s: State): State {
    var id := |s.closes|;
    s.(flushErr := Nil, active := Buffer([], 0), flushRunning := true, flushDone := id,
    flights := s.flights[id := Flight(s.active.items, Publishing)],
    closes := s.closes + [0], results := s.results + [None],
    handed := s.handed + [s.active.items], startedHib := s.startedHib || s.pipe.hibernating)
  }

  function StartIfAny(s: State): State {
    if s.active.items == [] then s else StartFlush(s)
  }

  function Append(s: State, item: Pending): State {
    s.(active := Buffer(s.active.items + [item], s.active.bytes + |item.payload|), accepted := s.accepted + [item])
  }

  /** The rest of the producer's critical section once waitForFlushLocked has returned nil. */
  function AfterWait(s: State, cont: Cont): State {
    match cont
    case Retry(item) => StartIfAny(s).(producer := EnqTop(item))
    case Oversized(item) => StartIfAny(s).(producer := OversizedAppend(item))
    case Trigger => StartIfAny(s).(producer := Idle(Nil))
    case Finish => s.(producer := Idle(Nil))
    case Sync =>
      if s.active.items == [] then s.(producer := Shut(s.flushErr))
      else StartFlush(s).(producer := SyncFlush(|s.closes|))
  }

  /** waitForFlushLocked returned an error. */
  function WaitError(s: State, cont: Cont, err: Err): State {
    s.(producer := if cont.Sync? then Shut(err) else Idle(err))
  }

  /** The head of waitForFlushLocked's loop, f.mu held. */
  function WaitForFlush(s: State, cont: Cont): State {
    if s.flushRunning then s.(producer := Waiting(s.flushDone, cont)) else AfterWait(s, cont)
  }

  function EnqueueBody(cfg: Config, s: State, item: Pending): State {
    if cfg.maxBytes > 0 && |item.payload| > cfg.maxBytes then WaitForFlush(s, Oversized(item))
    else if cfg.maxBytes > 0 && s.active.bytes > 0 && s.active.bytes + |item.payload| > cfg.maxBytes then
      WaitForFlush(s, Retry(item))
    else Append(s, item).(producer := Idle(Nil))
  }

  function CtxError(s: State): Err {
    if s.cancelled then CtxErr else Nil
  }

  /** The producer's next step, when it has one that does not depend on Run's choice or on cancellation. */
  function ProducerStep(cfg: Config, s: State): Option<State> {
    match s.producer
    case EnqTop(item) =>
      Some(if s.shuttingDown then s.(producer := Idle(CtxError(s)))
           else s.(producer := if s.pipe.hibernating then HibWait(item) else EnqBody(item)))
    case HibWait(item) => if s.pipe.hibernating then None else Some(s.(producer := EnqBody(item)))
    case EnqBody(item) => Some(EnqueueBody(cfg, s, item))
    case OversizedAppend(item) => Some(WaitForFlush(Append(s, item), Finish))
    case TrigBody => Some(WaitForFlush(s, Trigger))
    case Waiting(done, cont) =>
      if done < |s.closes| && s.closes[done] > 0 then
        Some(if s.flushErr != Nil then WaitError(s, cont, s.flushErr) else WaitForFlush(s, cont))
      else None
    case SyncTop => Some(WaitForFlush(s, Sync))
    case SyncFlush(done) =>
      if done < |s.results| && s.results[done].Some? then
        var err := s.results[done].value;
        Some(s.(producer := if err != Nil then Shut(err) else SyncTop))
      else None
    case Shut(err) =>
      Some(s.(producer := if err == Nil && s.pipe.hibernating then DrainSnap else Stopped(err)))
    case DrainSnap =>
      Some(s.(producer := if s.pipe.retained == [] then Stopped(Nil) else Drain(Flight(s.pipe.retained, Publishing))))
    case Drain(f) => if f.pc.Returned? then Some(s.(producer := Stopped(f.pc.err))) else None
    case Idle(_) => None
    case Stopped(_) => None
  }

  /** The context branch of the selects in waitWhileHibernating and waitForFlushLocked. */
  function CancelStep(s: State): Option<State> {
    if !s.cancelled then None
    else match s.producer
      case HibWait(item) => Some(s.(producer := Idle(CtxErr)))
      case Waiting(done, cont) => Some(WaitError(s, cont, CtxErr))
      case _ => None
  }

  /** The critical section that ends a flush: lines 126-131 and 167-172. */
  function CompleteFlush(s: State, id: nat): State
    requires id in s.flights && s.flights[id].pc.Returned?
    requires id < |s.closes| && id < |s.results|
  {
    var err := s.flights[id].pc.err;
    s.(flushRunning := false, flushErr := err, flights := s.flights - {id},
    closes := s.closes[id := s.closes[id] + 1], results := s.results[id := Some(err)])
  }

  function Next(cfg: Config, s: State, step: Step): Option<State> {
    match step
    case CallEnqueue(item) => if s.producer.Idle? then Some(s.(producer := EnqTop(item))) else None
    case CallTrigger =>
      if !s.producer.Idle? then None
      else Some(s.(producer := if s.pipe.hibernating || s.active.items == [] then Idle(Nil) else TrigBody))
    case CallShutdown =>
      if s.producer.Idle? then Some(s.(shuttingDown := true, producer := SyncTop)) else None
    case SkipLine(path, offset) =>
      if s.producer.Idle? then
        Some(s.(pipe := s.pipe.(watermarks := s.pipe.watermarks[path := offset]), skipped := true))
      else None
    case ProducerNext => ProducerStep(cfg, s)
    case ProducerCancel => CancelStep(s)
    case FlushNext(id, c) =>
      if id in s.flights && !s.flights[id].pc.Returned? then
        var (p, f) := FlushItemsStep(cfg, s.pipe, s.flights[id], c);
        Some(s.(pipe := p, flights := s.flights[id := f]))
      else None
    case Complete(id) =>
      if id in s.flights && s.flights[id].pc.Returned? && !HoldsLock(s.producer) && id < |s.closes| && id < |s.results|
      then Some(CompleteFlush(s, id)) else None
    case WakeNext(id, c) =>
      if id in s.pipe.wakes then Some(s.(pipe := WakeStep(cfg, s.pipe, id, c))) else None
    case WakeCancel(id) =>
      if id in s.pipe.wakes && s.pipe.wakes[id] == Sleep && s.cancelled then
        Some(s.(pipe := s.pipe.(wakes := s.pipe.wakes[id := Dying])))
      else None
    case DrainNext(c) =>
      if s.producer.Drain? && !s.producer.flight.pc.Returned? then
        var (p, f) := FlushItemsStep(cfg, s.pipe, s.producer.flight, c);
        Some(s.(pipe := p, producer := Drain(f)))
      else None
    case Cancel => Some(s.(cancelled := true))
  }

  /** The state after a whole interleaving, `None` when some step of it was not possible. */
  function Exec(cfg: Config, s: State, trace: seq<Step>): Option<State> {
    if trace == [] then Some(s)
    else
      match Exec(cfg, s, trace[..|trace| - 1])
      case None => None
      case Some(t) => Next(cfg, t, trace[|trace| - 1])
  }

  /** The result of an interleaving from the initial state. */
  function Run(cfg: Config, watermarks: map<string, int>, trace: seq<Step>): Option<State> {
    Exec(cfg, Init(watermarks), trace)
  }

  lemma {:induction false} ExecConcat(cfg: Config, s: State, a: seq<Step>, b: seq<Step>)
    requires Exec(cfg, s, a).Some?
    ensures Exec(cfg, s, a + b) == Exec(cfg, Exec(cfg, s, a).value, b)
  {
    if b == [] {
      assert a + b == a;
    } else {
      ExecConcat(cfg, s, a, b[..|b| - 1]);
      assert (a + b)[..|a + b| - 1] == a + b[..|b| - 1];
    }
  }
}
