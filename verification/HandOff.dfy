/**
 What every interleaving of the flush protocol keeps, in both failure modes: the hand-off refines a plain
 queue, flushes exclude each other, batches respect the byte budget, and at most one wake loop lives.
 */
module HandOff {
  import opened Common
  import opened FlushProtocol

  /** A batch within the byte budget, or one record that is alone too large. */
  predicate Fits(cfg: Config, batch: seq<Pending>) {
    cfg.maxBytes == 0 || Bytes(batch) <= cfg.maxBytes || |batch| == 1
  }

  /** The refined queue: batches handed over, in start order, then the buffer, are the accepted records. */
  ghost predicate Queue(s: State) {
    Flatten(s.handed) + s.active.items == s.accepted
  }

  /** One channel per batch; only the newest can be open, and it is open exactly while its flush runs. */
  ghost predicate Channels(s: State) {
    && |s.closes| == |s.results| == |s.handed|
    && s.flights.Keys == (if s.flushRunning then {s.flushDone} else {})
    && (|s.closes| > 0 ==> s.flushDone == |s.closes| - 1)
    && (s.flushRunning ==> |s.closes| > 0)
    && (forall c :: 0 <= c < |s.closes| ==> s.closes[c] == if c in s.flights then 0 else 1)
    && (forall c :: 0 <= c < |s.results| ==> (s.results[c].Some? <==> c !in s.flights))
    && s.flushErr == (if s.flushRunning || |s.closes| == 0 then Nil else s.results[|s.closes| - 1].value)
    && (forall c :: 0 <= c < |s.handed| ==> s.handed[c] != [])
    && (forall c :: c in s.flights ==> s.flights[c].batch == s.handed[c])
  }

  ghost predicate Sizes(cfg: Config, s: State) {
    && s.active.bytes == Bytes(s.active.items)
    && Fits(cfg, s.active.items)
    && (forall c :: 0 <= c < |s.handed| ==> Fits(cfg, s.handed[c]))
  }

  /** The producer has left flusher.shutdown with a nil error. */
  predicate ShutDownCleanly(producer: Producer) {
    producer == Shut(Nil) || producer.DrainSnap? || producer.Drain? || producer == Stopped(Nil)
  }

  ghost predicate ProducerOk(s: State) {
    && (s.producer.Waiting? ==> |s.closes| > 0 && s.producer.done == |s.closes| - 1)
    && (s.producer.SyncFlush? ==> |s.closes| > 0 && s.producer.done == |s.closes| - 1)
    && (s.producer.OversizedAppend? ==> s.active.items == [])
    && (ShutDownCleanly(s.producer) ==> s.active.items == [] && !s.flushRunning)
    && (s.shuttingDown <==> OnShutdownPath(s.producer))
  }

  predicate OnShutdownPath(producer: Producer) {
    || producer.SyncTop? || producer.SyncFlush? || producer.Shut? || producer.DrainSnap? || producer.Drain?
    || producer.Stopped? || (producer.Waiting? && producer.cont.Sync?)
  }

  /** The flag hibernateWakeRunning tells exactly whether a wake loop lives, and it is the newest one. */
  ghost predicate OneWake(p: Pipe) {
    && (p.wakeRunning ==> p.spawned > 0)
    && p.wakes.Keys == if p.wakeRunning then {p.spawned - 1} else {}
  }

  ghost predicate Core(cfg: Config, s: State) {
    Queue(s) && Channels(s) && Sizes(cfg, s) && OneWake(s.pipe)
  }

  ghost predicate Inv(cfg: Config, s: State) {
    Core(cfg, s) && ProducerOk(s)
  }

  lemma StartFlushChannels(s: State)
    requires Channels(s) && !s.flushRunning && s.active.items != []
    ensures Channels(StartFlush(s))
  {
    var t := StartFlush(s);
    assert t.flights.Keys == {|s.closes|};
  }

  lemma StartFlushKeeps(cfg: Config, s: State)
    requires Core(cfg, s) && !s.flushRunning && s.active.items != []
    ensures Core(cfg, StartFlush(s))
  {
    FlattenAppend(s.handed, s.active.items);
    StartFlushChannels(s);
  }

  lemma AppendKeeps(cfg: Config, s: State, item: Pending)
    requires Core(cfg, s) && Fits(cfg, s.active.items + [item])
    ensures Core(cfg, Append(s, item))
  {
    BytesAppend(s.active.items, item);
    assert Flatten(s.handed) + (s.active.items + [item]) == s.accepted + [item];
  }

  lemma CoreIgnoresProducer(cfg: Config, s: State, producer: Producer)
    requires Core(cfg, s)
    ensures Core(cfg, s.(producer := producer))
  {
  }

  lemma AfterWaitCore(cfg: Config, s: State, cont: Cont)
    requires Core(cfg, s) && !s.flushRunning
    ensures Core(cfg, AfterWait(s, cont))
  {
    if s.active.items != [] {
      StartFlushKeeps(cfg, s);
      CoreIgnoresProducer(cfg, StartFlush(s), AfterWait(s, cont).producer);
    }
    CoreIgnoresProducer(cfg, s, AfterWait(s, cont).producer);
  }

  lemma WaitForFlushKeeps(cfg: Config, s: State, cont: Cont)
    requires Core(cfg, s) && (s.shuttingDown <==> cont.Sync?)
    ensures Inv(cfg, WaitForFlush(s, cont))
  {
    if !s.flushRunning {
      AfterWaitCore(cfg, s, cont);
      AfterWaitProducer(s, cont);
    }
  }

  lemma AfterWaitProducer(s: State, cont: Cont)
    requires !s.flushRunning && (s.shuttingDown <==> cont.Sync?)
    ensures ProducerOk(AfterWait(s, cont))
  {
  }

  lemma EnqueueBodyKeeps(cfg: Config, s: State, item: Pending)
    requires Core(cfg, s) && !s.shuttingDown
    ensures Inv(cfg, EnqueueBody(cfg, s, item))
  {
    hide Core, Inv, WaitForFlush, Append;
    if cfg.maxBytes > 0 && |item.payload| > cfg.maxBytes {
      WaitForFlushKeeps(cfg, s, Oversized(item));
    } else if cfg.maxBytes > 0 && s.active.bytes > 0 && s.active.bytes + |item.payload| > cfg.maxBytes {
      WaitForFlushKeeps(cfg, s, Retry(item));
    } else {
      FittingKeeps(cfg, s, item);
    }
  }

  lemma FittingFits(cfg: Config, s: State, item: Pending)
    requires Core(cfg, s)
    requires cfg.maxBytes == 0 || |item.payload| <= cfg.maxBytes
    requires cfg.maxBytes == 0 || s.active.bytes == 0 || s.active.bytes + |item.payload| <= cfg.maxBytes
    ensures Fits(cfg, s.active.items + [item])
  {
    hide Flatten;
    BytesAppend(s.active.items, item);
    hide Bytes;
  }

  lemma FittingKeeps(cfg: Config, s: State, item: Pending)
    requires Core(cfg, s) && !s.shuttingDown
    requires cfg.maxBytes == 0 || |item.payload| <= cfg.maxBytes
    requires cfg.maxBytes == 0 || s.active.bytes == 0 || s.active.bytes + |item.payload| <= cfg.maxBytes
    ensures Inv(cfg, Append(s, item).(producer := Idle(Nil)))
  {
    hide Core, Fits, Bytes;
    FittingFits(cfg, s, item);
    AppendKeeps(cfg, s, item);
    CoreIgnoresProducer(cfg, Append(s, item), Idle(Nil));
  }

  lemma SetProducerKeeps(cfg: Config, s: State, producer: Producer)
    requires Inv(cfg, s) && ProducerOk(s.(producer := producer))
    ensures Inv(cfg, s.(producer := producer))
  {
    CoreIgnoresProducer(cfg, s, producer);
  }

  lemma OversizedAppendKeeps(cfg: Config, s: State, item: Pending)
    requires Inv(cfg, s) && s.producer == OversizedAppend(item)
    ensures Inv(cfg, WaitForFlush(Append(s, item), Finish))
  {
    hide WaitForFlush, Flatten, Bytes;
    assert s.active.items + [item] == [item];
    AppendKeeps(cfg, s, item);
    WaitForFlushKeeps(cfg, Append(s, item), Finish);
  }

  /** Steps after which only the producer stands elsewhere. */
  lemma MoveKeeps(cfg: Config, s: State)
    requires Inv(cfg, s) && ProducerStep(cfg, s).Some?
    requires !s.producer.EnqBody? && !s.producer.OversizedAppend? && !s.producer.TrigBody? && !s.producer.SyncTop?
    requires s.producer.Waiting? ==> s.flushErr != Nil
    ensures Inv(cfg, ProducerStep(cfg, s).value)
  {
    hide Core, WaitForFlush, EnqueueBody;
    var t := ProducerStep(cfg, s).value;
    assert t == s.(producer := t.producer);
    assert ProducerOk(t);
    SetProducerKeeps(cfg, s, t.producer);
  }

  lemma ProducerStepKeeps(cfg: Config, s: State)
    requires Inv(cfg, s) && ProducerStep(cfg, s).Some?
    ensures Inv(cfg, ProducerStep(cfg, s).value)
  {
    hide Core, WaitForFlush, EnqueueBody;
    match s.producer
    case EnqBody(item) => EnqueueBodyKeeps(cfg, s, item);
    case OversizedAppend(item) => OversizedAppendKeeps(cfg, s, item);
    case TrigBody => WaitForFlushKeeps(cfg, s, Trigger);
    case SyncTop => WaitForFlushKeeps(cfg, s, Sync);
    case Waiting(done, cont) =>
      if s.flushErr == Nil { WaitForFlushKeeps(cfg, s, cont); } else { MoveKeeps(cfg, s); }
    case _ => MoveKeeps(cfg, s);
  }

  lemma FlushItemsStepWakes(cfg: Config, p: Pipe, f: Flight, c: Choice)
    requires OneWake(p) && !f.pc.Returned?
    ensures OneWake(FlushItemsStep(cfg, p, f, c).0)
    ensures FlushItemsStep(cfg, p, f, c).1.batch == f.batch
    ensures p.wakes.Keys <= FlushItemsStep(cfg, p, f, c).0.wakes.Keys
  {
  }

  lemma WakeStepKeeps(cfg: Config, p: Pipe, id: nat, c: Choice)
    requires OneWake(p) && id in p.wakes
    ensures OneWake(WakeStep(cfg, p, id, c))
  {
    if p.wakes[id].Flushing? && !p.wakes[id].flight.pc.Returned? {
      FlushItemsStepWakes(cfg, p, p.wakes[id].flight, c);
    }
  }

  lemma FlushNextKeeps(cfg: Config, s: State, id: nat, c: Choice)
    requires Inv(cfg, s) && Next(cfg, s, FlushNext(id, c)).Some?
    ensures Inv(cfg, Next(cfg, s, FlushNext(id, c)).value)
  {
    FlushItemsStepWakes(cfg, s.pipe, s.flights[id], c);
    var t := Next(cfg, s, FlushNext(id, c)).value;
    assert t.flights.Keys == s.flights.Keys;
  }

  lemma CompleteKeeps(cfg: Config, s: State, id: nat)
    requires Inv(cfg, s) && Next(cfg, s, Complete(id)).Some?
    ensures Inv(cfg, Next(cfg, s, Complete(id)).value)
  {
    var t := Next(cfg, s, Complete(id)).value;
    assert t.flights.Keys == {};
  }

  lemma DrainNextKeeps(cfg: Config, s: State, c: Choice)
    requires Inv(cfg, s) && Next(cfg, s, DrainNext(c)).Some?
    ensures Inv(cfg, Next(cfg, s, DrainNext(c)).value)
  {
    FlushItemsStepWakes(cfg, s.pipe, s.producer.flight, c);
  }

  /** Steps of a wake loop and a direct watermark update touch the pipe only. */
  lemma PipeStepKeeps(cfg: Config, s: State, pipe: Pipe)
    requires Inv(cfg, s) && OneWake(pipe)
    ensures Inv(cfg, s.(pipe := pipe))
    ensures Inv(cfg, s.(pipe := pipe, skipped := true))
  {
  }

  lemma WakeNextKeeps(cfg: Config, s: State, id: nat, c: Choice)
    requires Inv(cfg, s) && id in s.pipe.wakes
    ensures Inv(cfg, s.(pipe := WakeStep(cfg, s.pipe, id, c)))
  {
    WakeStepKeeps(cfg, s.pipe, id, c);
    PipeStepKeeps(cfg, s, WakeStep(cfg, s.pipe, id, c));
  }

  lemma CallKeeps(cfg: Config, s: State, step: Step)
    requires Inv(cfg, s) && Next(cfg, s, step).Some?
    requires step.CallEnqueue? || step.CallTrigger? || step.ProducerCancel?
    ensures Inv(cfg, Next(cfg, s, step).value)
  {
    hide Core;
    var t := Next(cfg, s, step).value;
    assert t == s.(producer := t.producer);
    SetProducerKeeps(cfg, s, t.producer);
  }

  lemma FlagKeeps(cfg: Config, s: State)
    requires Inv(cfg, s)
    ensures Inv(cfg, s.(cancelled := true))
    ensures s.producer.Idle? ==> Inv(cfg, s.(shuttingDown := true, producer := SyncTop))
  {
  }

  lemma NextKeeps(cfg: Config, s: State, step: Step)
    requires Inv(cfg, s) && Next(cfg, s, step).Some?
    ensures Inv(cfg, Next(cfg, s, step).value)
  {
    hide Core, ProducerOk, ProducerStep, WakeStep, FlushItemsStep, CompleteFlush;
    match step
    case ProducerNext => ProducerStepKeeps(cfg, s);
    case FlushNext(id, c) => FlushNextKeeps(cfg, s, id, c);
    case Complete(id) => CompleteKeeps(cfg, s, id);
    case DrainNext(c) => DrainNextKeeps(cfg, s, c);
    case WakeNext(id, c) => WakeNextKeeps(cfg, s, id, c);
    case WakeCancel(id) => WakeCancelKeeps(cfg, s, id);
    case SkipLine(path, offset) => SkipKeeps(cfg, s, path, offset);
    case CallShutdown => FlagKeeps(cfg, s);
    case Cancel => FlagKeeps(cfg, s);
    case _ => CallKeeps(cfg, s, step);
  }

  lemma WakeCancelKeeps(cfg: Config, s: State, id: nat)
    requires Inv(cfg, s) && Next(cfg, s, WakeCancel(id)).Some?
    ensures Inv(cfg, Next(cfg, s, WakeCancel(id)).value)
  {
    PipeStepKeeps(cfg, s, s.pipe.(wakes := s.pipe.wakes[id := Dying]));
  }

  lemma SkipKeeps(cfg: Config, s: State, path: string, offset: int)
    requires Inv(cfg, s) && Next(cfg, s, SkipLine(path, offset)).Some?
    ensures Inv(cfg, Next(cfg, s, SkipLine(path, offset)).value)
  {
    PipeStepKeeps(cfg, s, s.pipe.(watermarks := s.pipe.watermarks[path := offset]));
  }

  lemma {:induction false} Reachable(cfg: Config, wm: map<string, int>, trace: seq<Step>)
    requires Run(cfg, wm, trace).Some?
    ensures Inv(cfg, Run(cfg, wm, trace).value)
  {
    if trace != [] {
      Reachable(cfg, wm, trace[..|trace| - 1]);
      NextKeeps(cfg, Run(cfg, wm, trace[..|trace| - 1]).value, trace[|trace| - 1]);
    }
  }

  // ---- The shapes of a producer step ----------------------------------------------------------------------

  predicate Moved(s: State, t: State) {
    t == s.(producer := t.producer)
  }

  predicate Appended(s: State, t: State) {
    |t.accepted| > |s.accepted| && t == Append(s, t.accepted[|s.accepted|]).(producer := t.producer)
  }

  predicate Started(s: State, t: State) {
    !s.flushRunning && s.active.items != [] && t == StartFlush(s).(producer := t.producer)
  }

  lemma WaitForFlushShape(s: State, cont: Cont)
    ensures var t := WaitForFlush(s, cont);
            && (Moved(s, t) || (Started(s, t) && !cont.Finish?)) && !t.producer.Drain?
            && (s.flushRunning || s.active.items == [] || cont.Finish? ==> Moved(s, t))
  {
    hide StartFlush;
  }

  lemma AppendShape(s: State, item: Pending, producer: Producer)
    ensures Appended(s, Append(s, item).(producer := producer))
  {
    assert (s.accepted + [item])[|s.accepted|] == item;
  }

  lemma EnqueueBodyShape(cfg: Config, s: State, item: Pending)
    ensures var t := EnqueueBody(cfg, s, item);
            (Moved(s, t) || Appended(s, t) || Started(s, t)) && !t.producer.Drain?
  {
    hide WaitForFlush, Append, Moved, Appended, Started;
    WaitForFlushShape(s, Oversized(item));
    WaitForFlushShape(s, Retry(item));
    AppendShape(s, item, Idle(Nil));
  }

  /** Whatever the producer does next, it moves on, appends one record or starts one flush. */
  lemma ProducerStepShape(cfg: Config, s: State)
    requires ProducerStep(cfg, s).Some?
    ensures var t := ProducerStep(cfg, s).value; Moved(s, t) || Appended(s, t) || Started(s, t)
    ensures var t := ProducerStep(cfg, s).value;
            t.producer.Drain? ==> s.producer.DrainSnap? && Moved(s, t) && s.pipe.retained != []
  {
    hide WaitForFlush, EnqueueBody, Appended, Started, Append;
    match s.producer
    case EnqBody(item) => EnqueueBodyShape(cfg, s, item);
    case OversizedAppend(item) =>
      WaitForFlushShape(Append(s, item), Finish);
      AppendShape(s, item, ProducerStep(cfg, s).value.producer);
    case TrigBody => WaitForFlushShape(s, Trigger);
    case SyncTop => WaitForFlushShape(s, Sync);
    case Waiting(done, cont) => WaitForFlushShape(s, cont);
    case _ =>
  }

  /** The step hands a batch over while the pipeline hibernates. */
  predicate StartsHibernating(cfg: Config, wm: map<string, int>, before: seq<Step>, step: Step) {
    && Run(cfg, wm, before).Some? && Next(cfg, Run(cfg, wm, before).value, step).Some?
    && Run(cfg, wm, before).value.pipe.hibernating
    && |Next(cfg, Run(cfg, wm, before).value, step).value.handed| > |Run(cfg, wm, before).value.handed|
  }

  /** What has happened once stays recorded. */
  lemma FlagsStep(cfg: Config, s: State, step: Step)
    requires Next(cfg, s, step).Some?
    ensures var t := Next(cfg, s, step).value;
            && (t.skipped <==> s.skipped || step.SkipLine?)
            && (t.startedHib <==> s.startedHib || (s.pipe.hibernating && |t.handed| > |s.handed|))
  {
    hide ProducerStep, FlushItemsStep, WakeStep;
    if step.ProducerNext? {
      ProducerStepShape(cfg, s);
    }
  }

  ghost predicate SomeSkip(trace: seq<Step>) {
    exists j :: 0 <= j < |trace| && trace[j].SkipLine?
  }

  ghost predicate SomeStart(cfg: Config, wm: map<string, int>, trace: seq<Step>) {
    exists j :: 0 <= j < |trace| && StartsHibernating(cfg, wm, trace[..j], trace[j])
  }

  lemma SomeSkipSnoc(trace: seq<Step>, step: Step)
    ensures SomeSkip(trace + [step]) <==> SomeSkip(trace) || step.SkipLine?
  {
    var longer := trace + [step];
    assert longer[|trace|] == step;
    if SomeSkip(trace) {
      var j :| 0 <= j < |trace| && trace[j].SkipLine?;
      assert longer[j].SkipLine?;
    }
  }

  lemma SomeStartSnoc(cfg: Config, wm: map<string, int>, trace: seq<Step>, step: Step)
    ensures SomeStart(cfg, wm, trace + [step]) <==> SomeStart(cfg, wm, trace) || StartsHibernating(cfg, wm, trace, step)
  {
    hide StartsHibernating;
    var longer := trace + [step];
    assert longer[..|trace|] == trace && longer[|trace|] == step;
    if SomeStart(cfg, wm, trace) {
      var j :| 0 <= j < |trace| && StartsHibernating(cfg, wm, trace[..j], trace[j]);
      assert longer[..j] == trace[..j] && longer[j] == trace[j];
    }
    if SomeStart(cfg, wm, longer) {
      var j :| 0 <= j < |longer| && StartsHibernating(cfg, wm, longer[..j], longer[j]);
      if j < |trace| {
        assert longer[..j] == trace[..j] && longer[j] == trace[j];
      }
    }
  }

  /** The two flags that premises of theorems speak of say exactly what happened in the run. */
  lemma {:induction false} FlagsExactly(cfg: Config, wm: map<string, int>, trace: seq<Step>)
    requires Run(cfg, wm, trace).Some?
    ensures Run(cfg, wm, trace).value.skipped <==> SomeSkip(trace)
    ensures Run(cfg, wm, trace).value.startedHib <==> SomeStart(cfg, wm, trace)
  {
    if trace != [] {
      var before, step := trace[..|trace| - 1], trace[|trace| - 1];
      FlagsExactly(cfg, wm, before);
      hide SomeSkip, SomeStart;
      var s := Run(cfg, wm, before).value;
      FlagsStep(cfg, s, step);
      assert before + [step] == trace && Run(cfg, wm, trace) == Next(cfg, s, step);
      hide Next, Exec, Run;
      SomeSkipSnoc(before, step);
      SomeStartSnoc(cfg, wm, before, step);
    }
  }

  // ---- The record in hand --------------------------------------------------------------------------------

  /** The record that enqueue is at work on, as long as it has not appended it. */
  function Hand(producer: Producer): Option<Pending> {
    match producer
    case EnqTop(item) => Some(item)
    case HibWait(item) => Some(item)
    case EnqBody(item) => Some(item)
    case OversizedAppend(item) => Some(item)
    case Waiting(_, Retry(item)) => Some(item)
    case Waiting(_, Oversized(item)) => Some(item)
    case _ => None
  }

  /** enqueue returned an error, or the producer is shutting down. */
  predicate Failing(producer: Producer) {
    (producer.Idle? && producer.returned != Nil) || OnShutdownPath(producer)
  }

  /** Either the record in hand is appended, or it stays in hand, or it is given up with an error. */
  predicate HandKept(s: State, t: State) {
    || (Hand(s.producer).Some? && t.accepted == s.accepted + [Hand(s.producer).value] && Hand(t.producer).None?)
    || (t.accepted == s.accepted && Hand(t.producer) == Hand(s.producer))
    || (t.accepted == s.accepted && Hand(t.producer).None? && (Failing(t.producer) || s.shuttingDown))
  }

  /** Waiting for a flush and starting one appends nothing and keeps the record in hand. */
  lemma WaitForFlushHand(s: State, cont: Cont)
    ensures var t := WaitForFlush(s, cont); t.accepted == s.accepted && Hand(t.producer) == Hand(Waiting(0, cont))
  {
  }

  lemma EnqueueBodyHand(cfg: Config, s: State, item: Pending)
    ensures var t := EnqueueBody(cfg, s, item);
            || (t.accepted == s.accepted && Hand(t.producer) == Some(item))
            || (t.accepted == s.accepted + [item] && Hand(t.producer).None?)
  {
    hide WaitForFlush;
    WaitForFlushHand(s, Oversized(item));
    WaitForFlushHand(s, Retry(item));
  }

  lemma WaitingHand(cfg: Config, s: State)
    requires s.producer.Waiting? && ProducerStep(cfg, s).Some?
    ensures HandKept(s, ProducerStep(cfg, s).value)
  {
    hide WaitForFlush;
    WaitForFlushHand(s, s.producer.cont);
  }

  lemma BodyHand(cfg: Config, s: State)
    requires s.producer.EnqBody? || s.producer.OversizedAppend? || s.producer.TrigBody? || s.producer.SyncTop?
    ensures ProducerStep(cfg, s).Some? && HandKept(s, ProducerStep(cfg, s).value)
  {
    hide WaitForFlush, EnqueueBody;
    match s.producer
    case EnqBody(item) => EnqueueBodyHand(cfg, s, item);
    case OversizedAppend(item) => WaitForFlushHand(Append(s, item), Finish);
    case TrigBody => WaitForFlushHand(s, Trigger);
    case SyncTop => WaitForFlushHand(s, Sync);
  }

  lemma TopHand(cfg: Config, s: State)
    requires (s.producer.EnqTop? || s.producer.HibWait?) && ProducerStep(cfg, s).Some?
    ensures HandKept(s, ProducerStep(cfg, s).value)
  {
    hide WaitForFlush, EnqueueBody, Append;
  }

  lemma EndHand(cfg: Config, s: State)
    requires s.producer.SyncFlush? || s.producer.Shut? || s.producer.DrainSnap? || s.producer.Drain?
    requires ProducerStep(cfg, s).Some?
    ensures HandKept(s, ProducerStep(cfg, s).value)
  {
    hide WaitForFlush, EnqueueBody, Append;
    var t := ProducerStep(cfg, s).value;
    assert t.accepted == s.accepted && OnShutdownPath(t.producer);
    hide ProducerStep;
  }

  lemma OnlyThese(cfg: Config, s: State)
    requires ProducerStep(cfg, s).Some?
    ensures !s.producer.Idle? && !s.producer.Stopped?
  {
    hide WaitForFlush, EnqueueBody, Append;
  }

  /** The producer appends nothing but the record in hand, takes none in hand by itself, and drops none silently. */
  lemma HandStays(cfg: Config, s: State)
    requires ProducerStep(cfg, s).Some?
    ensures HandKept(s, ProducerStep(cfg, s).value)
  {
    OnlyThese(cfg, s);
    hide ProducerStep, HandKept;
    if s.producer.Waiting? {
      WaitingHand(cfg, s);
    } else if s.producer.EnqBody? || s.producer.OversizedAppend? || s.producer.TrigBody? || s.producer.SyncTop? {
      BodyHand(cfg, s);
    } else if s.producer.EnqTop? || s.producer.HibWait? {
      TopHand(cfg, s);
    } else {
      EndHand(cfg, s);
    }
  }

  // ---- What the invariant means --------------------------------------------------------------------------

  /** Batching never drops, duplicates or reorders: batches in start order, then the buffer. */
  lemma FifoHandOff(cfg: Config, wm: map<string, int>, trace: seq<Step>)
    requires Run(cfg, wm, trace).Some?
    ensures var s := Run(cfg, wm, trace).value; Flatten(s.handed) + s.active.items == s.accepted
    ensures var s := Run(cfg, wm, trace).value;
            forall id :: id in s.flights ==> id < |s.handed| && s.flights[id].batch == s.handed[id]
  {
    Reachable(cfg, wm, trace);
  }

  /** At most one flusher-owned flush runs, its channel is the only open one, the others were closed once. */
  lemma FlushExclusion(cfg: Config, wm: map<string, int>, trace: seq<Step>)
    requires Run(cfg, wm, trace).Some?
    ensures var s := Run(cfg, wm, trace).value;
            && (s.flushRunning <==> s.flights != map[])
            && (s.flushRunning ==> s.flights.Keys == {s.flushDone})
            && |s.closes| == |s.results| == |s.handed|
            && forall c :: 0 <= c < |s.closes| ==>
                 s.closes[c] == (if s.flushRunning && c == s.flushDone then 0 else 1)
                 && (s.results[c].Some? <==> s.closes[c] == 1)
  {
    Reachable(cfg, wm, trace);
  }

  /** Once flusher.shutdown has returned nil the buffer is empty and nothing is in flight. */
  lemma ShutdownLeavesNothing(cfg: Config, wm: map<string, int>, trace: seq<Step>)
    requires Run(cfg, wm, trace).Some?
    requires ShutDownCleanly(Run(cfg, wm, trace).value.producer)
    ensures var s := Run(cfg, wm, trace).value;
            s.active == Buffer([], 0) && s.flights == map[] && Flatten(s.handed) == s.accepted
  {
    Reachable(cfg, wm, trace);
    var s := Run(cfg, wm, trace).value;
    assert Flatten(s.handed) + [] == Flatten(s.handed);
  }

  lemma OneWakeLoop(cfg: Config, wm: map<string, int>, trace: seq<Step>)
    requires Run(cfg, wm, trace).Some?
    ensures var p := Run(cfg, wm, trace).value.pipe;
            |p.wakes| <= 1 && (p.wakeRunning <==> |p.wakes| == 1)
  {
    Reachable(cfg, wm, trace);
    var p := Run(cfg, wm, trace).value.pipe;
    assert |p.wakes| == |p.wakes.Keys|;
  }

  lemma NextWakes(cfg: Config, s: State, step: Step)
    requires Next(cfg, s, step).Some? && !cfg.wakeEnabled && s.pipe.wakes == map[]
    ensures Next(cfg, s, step).value.pipe.wakes == map[]
  {
    hide WakeStep, FlushItemsStep, ProducerStep;
    match step
    case ProducerNext => ProducerStepShape(cfg, s);
    case FlushNext(id, c) => FlushStartsNoWake(cfg, s.pipe, s.flights[id], c);
    case DrainNext(c) => FlushStartsNoWake(cfg, s.pipe, s.producer.flight, c);
    case _ =>
  }

  lemma FlushStartsNoWake(cfg: Config, p: Pipe, f: Flight, c: Choice)
    requires !cfg.wakeEnabled && !f.pc.Returned?
    ensures FlushItemsStep(cfg, p, f, c).0.wakes == p.wakes
  {
  }

  /** Without wake_enabled no wake loop ever starts. */
  lemma {:induction false} NoWakeLoop(cfg: Config, wm: map<string, int>, trace: seq<Step>)
    requires Run(cfg, wm, trace).Some? && !cfg.wakeEnabled
    ensures Run(cfg, wm, trace).value.pipe.wakes == map[] && !Run(cfg, wm, trace).value.pipe.wakeRunning
  {
    if trace != [] {
      NoWakeLoop(cfg, wm, trace[..|trace| - 1]);
      NextWakes(cfg, Run(cfg, wm, trace[..|trace| - 1]).value, trace[|trace| - 1]);
      hide Next;
    }
    OneWakeLoop(cfg, wm, trace);
  }

  /** The byte counter is exact and every batch handed over respects the budget or is one oversized record. */
  lemma BatchBudget(cfg: Config, wm: map<string, int>, trace: seq<Step>)
    requires Run(cfg, wm, trace).Some?
    ensures var s := Run(cfg, wm, trace).value;
            && s.active.bytes == Bytes(s.active.items)
            && (cfg.maxBytes > 0 ==> forall k :: 0 <= k < |s.handed| ==>
                 Bytes(s.handed[k]) <= cfg.maxBytes
                 || (|s.handed[k]| == 1 && |s.handed[k][0].payload| > cfg.maxBytes))
  {
    Reachable(cfg, wm, trace);
    var s := Run(cfg, wm, trace).value;
    forall k | 0 <= k < |s.handed| && |s.handed[k]| == 1
      ensures Bytes(s.handed[k]) == |s.handed[k][0].payload|
    {
      assert s.handed[k] == [] + [s.handed[k][0]];
      BytesAppend([], s.handed[k][0]);
    }
  }
}
