/**
 Where the delivery core keeps less than its documentation promises: an interleaving for each premise of the
 safety theorems, with the exact conditions under which a retained batch is left without a wake loop.  Module
 Forgetting has those under which a record is lost in hibernate mode, module Passing those under which a watermark
 passes a record.
 */
module Races {
  import opened Common
  import opened FlushProtocol
  import opened HandOff
  import opened Safety
  import opened Forgetting
  import B = Batches
  import St = Stretches
  import Pl = Pipeline

  lemma Go(cfg: Config, trace: seq<Step>, step: Step) returns (longer: seq<Step>)
    requires Run(cfg, map[], trace).Some? && Next(cfg, Run(cfg, map[], trace).value, step).Some?
    ensures longer == trace + [step]
    ensures Run(cfg, map[], longer) == Next(cfg, Run(cfg, map[], trace).value, step)
  {
    longer := trace + [step];
    assert longer[..|longer| - 1] == trace;
  }

  /** The producer is between calls and the flusher accepts records of any size. */
  predicate Ready(cfg: Config, s: State) {
    cfg.maxBytes == 0 && s.producer.Idle? && !s.shuttingDown && !s.pipe.hibernating
  }

  /** enqueue of one record. */
  lemma Accept(cfg: Config, trace: seq<Step>, item: Pending) returns (longer: seq<Step>)
    requires Run(cfg, map[], trace).Some? && Ready(cfg, Run(cfg, map[], trace).value)
    ensures Run(cfg, map[], longer) == Some(Append(Run(cfg, map[], trace).value, item).(producer := Idle(Nil)))
  {
    hide Run;
    longer := Go(cfg, trace, CallEnqueue(item));
    longer := Go(cfg, longer, ProducerNext);
    longer := Go(cfg, longer, ProducerNext);
  }

  /** triggerFlush with no flush running. */
  lemma Flush(cfg: Config, trace: seq<Step>) returns (longer: seq<Step>)
    requires Run(cfg, map[], trace).Some? && Ready(cfg, Run(cfg, map[], trace).value)
    requires !Run(cfg, map[], trace).value.flushRunning && Run(cfg, map[], trace).value.active.items != []
    ensures Run(cfg, map[], longer) == Some(StartFlush(Run(cfg, map[], trace).value).(producer := Idle(Nil)))
  {
    hide Run;
    longer := Go(cfg, trace, CallTrigger);
    longer := Go(cfg, longer, ProducerNext);
  }

  // ---- A flush that starts while hibernating --------------------------------------------------------------

  /**
   swapAndStartFlushLocked does not look at hibernation again after waiting: the flush it waited for retains its
   batch, the next one fails too and its batch replaces the retained one.
   */
  lemma HibernateCanForget(a: Pending, b: Pending) returns (trace: seq<Step>)
    requires a != b
    ensures Run(Config(0, Hibernate, false, 1), map[], trace).Some?
    ensures var s := Run(Config(0, Hibernate, false, 1), map[], trace).value;
            Forgotten(s, a) && s.startedHib && !s.skipped && s.accepted == [a, b]
  {
    var cfg := Config(0, Hibernate, false, 1);
    trace := Overlap(a, b);
    hide Run;
    trace := Go(cfg, trace, FlushNext(1, Fail));
    trace := Go(cfg, trace, FlushNext(1, Fail));
  }

  /** The first batch is in flight, the second record waits in the buffer. */
  lemma TwoBuffers(cfg: Config, a: Pending, b: Pending) returns (trace: seq<Step>)
    requires cfg.maxBytes == 0
    ensures Run(cfg, map[], trace) == Some(
              Init(map[]).(active := Buffer([b], |b.payload|), flushRunning := true, flushDone := 0,
              flights := map[0 := Flight([a], Publishing)], closes := [0], results := [None],
              accepted := [a, b], handed := [[a]]))
  {
    trace := [];
    trace := Accept(cfg, trace, a);
    trace := Flush(cfg, trace);
    trace := Accept(cfg, trace, b);
    var s := Run(cfg, map[], trace).value;
    assert [] + [a] == [a];
    assert s.accepted == [a, b] && s.active.items == [b] && s.handed == [[a]];
    assert s.closes == [0] && s.results == [None];
  }

  /** The first flush fails and its batch is retained while the second trigger waits for it. */
  lemma FirstRetained(a: Pending, b: Pending) returns (trace: seq<Step>)
    ensures Run(Config(0, Hibernate, false, 1), map[], trace) == Some(
              Init(map[]).(active := Buffer([b], |b.payload|), flushRunning := true, flushDone := 0,
              producer := Waiting(0, Trigger), flights := map[0 := Flight([a], Returned(Nil))], closes := [0],
              results := [None], accepted := [a, b], handed := [[a]],
              pipe := Pipe(true, [a], false, map[], 0, 0, map[], [], [], [], [Hibernated])))
  {
    var cfg := Config(0, Hibernate, false, 1);
    trace := TwoBuffers(cfg, a, b);
    hide Run;
    trace := Go(cfg, trace, CallTrigger);
    trace := Go(cfg, trace, ProducerNext);
    trace := Go(cfg, trace, FlushNext(0, Fail));
    trace := Go(cfg, trace, FlushNext(0, Fail));
    var s := Run(cfg, map[], trace).value;
    assert s.flights == map[0 := Flight([a], Returned(Nil))] && s.pipe.outcomes == [Hibernated];
  }

  /** Up to the point where the second flush has started while the first batch is retained. */
  lemma Overlap(a: Pending, b: Pending) returns (trace: seq<Step>)
    ensures var p := Pipe(true, [a], false, map[], 0, 0, map[], [], [], [], [Hibernated]);
            Run(Config(0, Hibernate, false, 1), map[], trace)
            == Some(State(Buffer([], 0), true, 1, Nil, false, false, Idle(Nil), map[1 := Flight([b], Publishing)],
                          [1, 0], [Some(Nil), None], p, [a, b], [[a], [b]], true, false))
  {
    var cfg := Config(0, Hibernate, false, 1);
    trace := FirstRetained(a, b);
    hide Run;
    trace := Go(cfg, trace, Complete(0));
    trace := Go(cfg, trace, ProducerNext);
    var s := Run(cfg, map[], trace).value;
    assert s.flights == map[1 := Flight([b], Publishing)];
    assert s.closes == [1, 0] && s.results == [Some(Nil), None] && s.handed == [[a], [b]];
  }

  // ---- A dead-letter write that fails ---------------------------------------------------------------------

  /** The batch of a failed dead-letter write is gone, and the next success moves the watermark past it. */
  lemma DeadLetterWriteCanLose(a: Pending, b: Pending) returns (trace: seq<Step>)
    requires a.path == b.path && a.offset < b.offset
    ensures Run(Config(0, DeadLetter, false, 1), map[], trace).Some?
    ensures var s := Run(Config(0, DeadLetter, false, 1), map[], trace).value;
            && s.accepted == [a, b] && !s.skipped
            && a !in s.pipe.acked && a !in s.pipe.dead
            && a.path in s.pipe.watermarks && a.offset < s.pipe.watermarks[a.path]
  {
    var cfg := Config(0, DeadLetter, false, 1);
    trace := FailedWrite(a);
    trace := Accept(cfg, trace, b);
    trace := Flush(cfg, trace);
    hide Run;
    trace := Go(cfg, trace, FlushNext(1, Ok));
    trace := Go(cfg, trace, FlushNext(1, Ok));
  }

  lemma FailedWrite(a: Pending) returns (trace: seq<Step>)
    ensures var p := Pipe(false, [], false, map[], 0, 0, map[], [], [], [a], [Errored]);
            Run(Config(0, DeadLetter, false, 1), map[], trace)
            == Some(State(Buffer([], 0), false, 0, DeadLetterErr, false, false, Idle(Nil), map[],
                          [1], [Some(DeadLetterErr)], p, [a], [[a]], false, false))
  {
    var cfg := Config(0, DeadLetter, false, 1);
    trace := [];
    trace := Accept(cfg, trace, a);
    trace := Flush(cfg, trace);
    hide Run;
    trace := Go(cfg, trace, FlushNext(0, Fail));
    trace := Go(cfg, trace, FlushNext(0, Fail));
    trace := Go(cfg, trace, Complete(0));
    var s := Run(cfg, map[], trace).value;
    assert s.flights == map[] && s.closes == [1] && s.results == [Some(DeadLetterErr)];
    assert s.accepted == [a] && s.handed == [[a]] && s.pipe.lost == [a] && s.pipe.outcomes == [Errored];
  }

  // ---- A filtered or skipped line -------------------------------------------------------------------------

  lemma SkipCanPassBuffered(a: Pending, offset: int) returns (trace: seq<Step>)
    requires a.offset < offset
    ensures Run(Config(0, DeadLetter, false, 1), map[], trace).Some?
    ensures var s := Run(Config(0, DeadLetter, false, 1), map[], trace).value;
            && s.active.items == [a] && a !in s.pipe.acked && a !in s.pipe.dead
            && a.path in s.pipe.watermarks && a.offset < s.pipe.watermarks[a.path]
  {
    var cfg := Config(0, DeadLetter, false, 1);
    trace := [];
    trace := Accept(cfg, trace, a);
    hide Run;
    trace := Go(cfg, trace, SkipLine(a.path, offset));
  }

  // ---- A wake loop that is lost ---------------------------------------------------------------------------

  /** Hibernating, and every wake loop is on its way out: nothing will retry the retained batch. */
  predicate Deserted(p: Pipe) {
    p.hibernating && forall id :: id in p.wakes ==> p.wakes[id] == Dying
  }

  predicate SomeDying(p: Pipe) {
    exists id :: id in p.wakes && p.wakes[id] == Dying
  }

  lemma FlushItemsStepDeserts(cfg: Config, p: Pipe, f: Flight, c: Choice)
    requires cfg.wakeEnabled && OneWake(p) && !f.pc.Returned?
    ensures var q := FlushItemsStep(cfg, p, f, c).0;
            && (p.hibernating || !q.hibernating || SomeDying(p) || p.wakes != map[] ==> q.wakes == p.wakes)
            && (!p.hibernating && q.hibernating && p.wakes == map[] ==> q.wakes == map[p.spawned := Sleep])
  {
  }

  /** Where a flush stands whose next step begins hibernation, if it is not on already. */
  predicate BeginsHibernation(cfg: Config, f: Flight) {
    (cfg.mode == Hibernate && f.pc == Failed) || (f.pc.Limit? && f.pc.consecutive >= cfg.dlqLimit)
  }

  /**
   The step cancels the sleep of the loop that hibernation relies on, or begins hibernation while the old loop is
   about to exit.
   */
  predicate Strands(cfg: Config, s: State, step: Step) {
    if step.WakeCancel? then s.pipe.hibernating
    else
      var f := FlightOf(s, step);
      f.Some? && BeginsHibernation(cfg, f.value) && !s.pipe.hibernating && SomeDying(s.pipe)
  }

  lemma FlushStepExact(cfg: Config, p: Pipe, f: Flight, c: Choice)
    requires cfg.wakeEnabled && OneWake(p) && !f.pc.Returned? && !Deserted(p)
    ensures var q := FlushItemsStep(cfg, p, f, c).0;
            Deserted(q) <==> BeginsHibernation(cfg, f) && !p.hibernating && SomeDying(p)
  {
    FlushItemsStepDeserts(cfg, p, f, c);
    HibernationBegins(cfg, p, f, c);
    hide FlushItemsStep;
    var q := FlushItemsStep(cfg, p, f, c).0;
    if !p.hibernating && q.hibernating && p.wakes == map[] {
      assert q.wakes[p.spawned] == Sleep;
    }
    assert forall i, j :: i in p.wakes && j in p.wakes ==> i == j;
    if Deserted(q) && !p.hibernating && p.wakes != map[] {
      assert p.wakeRunning && p.wakes[p.spawned - 1] == Dying;
    }
  }

  lemma HibernationBegins(cfg: Config, p: Pipe, f: Flight, c: Choice)
    requires !f.pc.Returned?
    ensures !p.hibernating ==> (FlushItemsStep(cfg, p, f, c).0.hibernating <==> BeginsHibernation(cfg, f))
  {
  }

  lemma WakeStepExact(cfg: Config, s: State, id: nat, c: Choice)
    requires cfg.wakeEnabled && OneWake(s.pipe) && id in s.pipe.wakes && !Deserted(s.pipe)
    ensures Deserted(WakeStep(cfg, s.pipe, id, c)) <==> Strands(cfg, s, WakeNext(id, c))
  {
    var p := s.pipe;
    var q := WakeStep(cfg, p, id, c);
    assert forall other :: other in p.wakes ==> other == id;
    if p.wakes[id].Flushing? && !p.wakes[id].flight.pc.Returned? {
      assert !SomeDying(p);
      assert id in q.wakes && q.wakes[id].Flushing?;
    } else {
      assert q.hibernating == p.hibernating;
      if p.wakes[id] != Dying && p.hibernating {
        assert id in q.wakes && q.wakes[id] != Dying;
      }
    }
  }

  lemma WakeCancelExact(cfg: Config, s: State, id: nat)
    requires OneWake(s.pipe) && Next(cfg, s, WakeCancel(id)).Some?
    ensures Deserted(Next(cfg, s, WakeCancel(id)).value.pipe) <==> s.pipe.hibernating
  {
    assert forall other :: other in s.pipe.wakes ==> other == id;
  }

  lemma NextDesertsExactly(cfg: Config, s: State, step: Step)
    requires cfg.wakeEnabled && OneWake(s.pipe) && Next(cfg, s, step).Some? && !Deserted(s.pipe)
    ensures Deserted(Next(cfg, s, step).value.pipe) <==> Strands(cfg, s, step)
  {
    hide FlushItemsStep, WakeStep, ProducerStep, Deserted, OneWake, SomeDying, BeginsHibernation;
    match step
    case FlushNext(id, c) => FlushStepExact(cfg, s.pipe, s.flights[id], c);
    case DrainNext(c) => FlushStepExact(cfg, s.pipe, s.producer.flight, c);
    case WakeNext(id, c) => WakeStepExact(cfg, s, id, c);
    case WakeCancel(id) => WakeCancelExact(cfg, s, id);
    case ProducerNext => ProducerStepShape(cfg, s);
    case SkipLine(path, offset) => SamePresence(s.pipe, Next(cfg, s, step).value.pipe);
    case _ =>
  }

  /**
   With wake_enabled, a step leaves hibernation without a wake loop exactly when it cancels the sleep of the loop
   while hibernating, or when a flush begins hibernation while the old loop stands between its last look at
   `hibernating` and its deferred exit.
   */
  lemma WakeLoopLostExactly(cfg: Config, wm: map<string, int>, trace: seq<Step>, step: Step)
    requires cfg.wakeEnabled && Run(cfg, wm, trace).Some?
    requires Next(cfg, Run(cfg, wm, trace).value, step).Some? && !Deserted(Run(cfg, wm, trace).value.pipe)
    ensures var s := Run(cfg, wm, trace).value;
            Deserted(Next(cfg, s, step).value.pipe) <==> Strands(cfg, s, step)
  {
    hide Run, Next, Deserted, Strands;
    Reachable(cfg, wm, trace);
    NextDesertsExactly(cfg, Run(cfg, wm, trace).value, step);
  }

  lemma SamePresence(p: Pipe, q: Pipe)
    requires q.hibernating == p.hibernating && q.wakes == p.wakes
    ensures Deserted(q) <==> Deserted(p)
  {
  }

  /** The state after a first batch was retained, retried and acknowledged: the wake loop is about to exit. */
  function LoopLeaving(a: Pending): State {
    Init(map[]).(flushDone := 0, closes := [1], results := [Some(Nil)], accepted := [a], handed := [[a]],
    pipe := Pipe(false, [], true, map[0 := Dying], 1, 0, map[a.path := a.offset], [a], [], [],
                 [Hibernated, Succeeded]))
  }

  lemma FirstHibernation(a: Pending) returns (trace: seq<Step>)
    ensures Run(Config(0, Hibernate, true, 1), map[], trace) == Some(
              Init(map[]).(flushDone := 0, closes := [1], results := [Some(Nil)], accepted := [a], handed := [[a]],
              pipe := Pipe(true, [a], true, map[0 := Sleep], 1, 0, map[], [], [], [], [Hibernated])))
  {
    var cfg := Config(0, Hibernate, true, 1);
    trace := [];
    trace := Accept(cfg, trace, a);
    trace := Flush(cfg, trace);
    hide Run;
    trace := Go(cfg, trace, FlushNext(0, Fail));
    trace := Go(cfg, trace, FlushNext(0, Fail));
    trace := Go(cfg, trace, Complete(0));
    var s := Run(cfg, map[], trace).value;
    assert s.flights == map[] && s.closes == [1] && s.results == [Some(Nil)];
    assert s.accepted == [a] && s.handed == [[a]] && s.pipe.outcomes == [Hibernated];
  }

  lemma WakeRetries(a: Pending) returns (trace: seq<Step>)
    ensures Run(Config(0, Hibernate, true, 1), map[], trace) == Some(
              Init(map[]).(flushDone := 0, closes := [1], results := [Some(Nil)], accepted := [a], handed := [[a]],
              pipe := Pipe(true, [a], true, map[0 := Flushing(Flight([a], Advancing(0, false)))], 1, 0, map[],
                           [a], [], [], [Hibernated])))
  {
    var cfg := Config(0, Hibernate, true, 1);
    trace := FirstHibernation(a);
    hide Run;
    trace := Go(cfg, trace, WakeNext(0, Ok));
    trace := Go(cfg, trace, WakeNext(0, Ok));
    trace := Go(cfg, trace, WakeNext(0, Ok));
    trace := Go(cfg, trace, WakeNext(0, Ok));
    trace := Go(cfg, trace, WakeNext(0, Ok));
    var s := Run(cfg, map[], trace).value;
    assert s.pipe.wakes == map[0 := Flushing(Flight([a], Advancing(0, false)))] && s.pipe.acked == [a];
  }

  /** The wake loop at this point of its flush, the watermark of the record being set. */
  function Retrying(a: Pending, pc: FlushPc): State {
    Init(map[]).(flushDone := 0, closes := [1], results := [Some(Nil)], accepted := [a], handed := [[a]],
    pipe := Pipe(true, [a], true, map[0 := Flushing(Flight([a], pc))], 1, 0, map[a.path := a.offset], [a], [], [],
                 [Hibernated]))
  }

  lemma WakeMarks(a: Pending) returns (trace: seq<Step>)
    ensures Run(Config(0, Hibernate, true, 1), map[], trace) == Some(Retrying(a, Advancing(1, false)))
  {
    var cfg := Config(0, Hibernate, true, 1);
    trace := WakeRetries(a);
    hide Run;
    trace := Go(cfg, trace, WakeNext(0, Ok));
    var s := Run(cfg, map[], trace).value;
    assert s.pipe.wakes == map[0 := Flushing(Flight([a], Advancing(1, false)))];
  }

  lemma WakeAdvances(a: Pending) returns (trace: seq<Step>)
    ensures Run(Config(0, Hibernate, true, 1), map[], trace) == Some(Retrying(a, Exiting))
  {
    var cfg := Config(0, Hibernate, true, 1);
    trace := WakeMarks(a);
    hide Run;
    trace := Go(cfg, trace, WakeNext(0, Ok));
    trace := Go(cfg, trace, WakeNext(0, Ok));
    var s := Run(cfg, map[], trace).value;
    assert s.pipe.wakes == map[0 := Flushing(Flight([a], Exiting))];
  }

  lemma WakeSucceeds(a: Pending) returns (trace: seq<Step>)
    ensures Run(Config(0, Hibernate, true, 1), map[], trace) == Some(LoopLeaving(a))
  {
    var cfg := Config(0, Hibernate, true, 1);
    trace := WakeAdvances(a);
    hide Run;
    trace := Go(cfg, trace, WakeNext(0, Ok));
    trace := Go(cfg, trace, WakeNext(0, Ok));
    trace := Go(cfg, trace, WakeNext(0, Ok));
    var s := Run(cfg, map[], trace).value;
    assert s.pipe.wakes == map[0 := Dying] && s.pipe.outcomes == [Hibernated, Succeeded];
  }

  /** A second batch in flight while the wake loop is about to exit. */
  lemma SecondBatch(a: Pending, b: Pending) returns (trace: seq<Step>)
    ensures Run(Config(0, Hibernate, true, 1), map[], trace) == Some(
              LoopLeaving(a).(flushRunning := true, flushDone := 1, closes := [1, 0], results := [Some(Nil), None],
              flights := map[1 := Flight([b], Publishing)], accepted := [a, b], handed := [[a], [b]]))
  {
    var cfg := Config(0, Hibernate, true, 1);
    trace := WakeSucceeds(a);
    trace := Accept(cfg, trace, b);
    trace := Flush(cfg, trace);
    var s := Run(cfg, map[], trace).value;
    assert [] + [b] == [b];
    assert s.closes == [1, 0] && s.results == [Some(Nil), None];
    assert s.accepted == [a, b] && s.handed == [[a], [b]];
  }

  /** It does happen: the second batch stays retained with wake_enabled set and no wake loop left. */
  lemma WakeLoopCanBeLost(a: Pending, b: Pending) returns (trace: seq<Step>)
    ensures Run(Config(0, Hibernate, true, 1), map[], trace).Some?
    ensures var s := Run(Config(0, Hibernate, true, 1), map[], trace).value;
            !s.cancelled && s.pipe.hibernating && s.pipe.retained == [b] && s.pipe.wakes == map[] && !s.flushRunning
  {
    var cfg := Config(0, Hibernate, true, 1);
    trace := SecondBatch(a, b);
    hide Run, ExitHibernate, ProducerStep;
    trace := Go(cfg, trace, FlushNext(1, Fail));
    trace := Go(cfg, trace, FlushNext(1, Fail));
    trace := Go(cfg, trace, Complete(1));
    trace := Go(cfg, trace, WakeNext(0, Ok));
    assert Run(cfg, map[], trace).value.pipe.wakes == map[];
  }

  // ---- A batch that could have held the next record -------------------------------------------------------

  /** One more step of a run without timer triggers and shutdown. */
  lemma SizeStep(cfg: Config, trace: seq<Step>, step: Step) returns (longer: seq<Step>)
    requires Run(cfg, map[], trace).Some? && Next(cfg, Run(cfg, map[], trace).value, step).Some?
    requires B.SizeOnly(trace) && !step.CallTrigger? && !step.CallShutdown?
    ensures B.SizeOnly(longer) && Run(cfg, map[], longer) == Next(cfg, Run(cfg, map[], trace).value, step)
  {
    longer := Go(cfg, trace, step);
  }

  const SMALL := Config(3, Hibernate, true, 1)

  /** The record does not fit behind the first one, whose batch is handed over for it. */
  lemma HandedFor(a: Pending, b: Pending) returns (trace: seq<Step>)
    requires |a.payload| == |b.payload| == 2
    ensures B.SizeOnly(trace) && Run(SMALL, map[], trace) == Some(
              Init(map[]).(flushRunning := true, flushDone := 0, producer := EnqTop(b),
              flights := map[0 := Flight([a], Publishing)], closes := [0], results := [None],
              accepted := [a], handed := [[a]]))
  {
    trace := [];
    trace := SizeStep(SMALL, trace, CallEnqueue(a));
    trace := SizeStep(SMALL, trace, ProducerNext);
    trace := SizeStep(SMALL, trace, ProducerNext);
    trace := SizeStep(SMALL, trace, CallEnqueue(b));
    trace := SizeStep(SMALL, trace, ProducerNext);
    hide Run;
    trace := SizeStep(SMALL, trace, ProducerNext);
    var s := Run(SMALL, map[], trace).value;
    assert [] + [a] == [a];
    assert s.accepted == [a] && s.handed == [[a]] && s.closes == [0] && s.results == [None];
  }

  /** enqueue of the second record is cancelled while the first batch is retained. */
  function Abandoned(a: Pending): State {
    Init(map[]).(flushRunning := true, flushDone := 0, producer := Idle(CtxErr), cancelled := true,
    flights := map[0 := Flight([a], Returned(Nil))], closes := [0], results := [None], accepted := [a],
    handed := [[a]], pipe := Pipe(true, [a], true, map[0 := Sleep], 1, 0, map[], [], [], [], [Hibernated]))
  }

  lemma CancelledInHibernation(a: Pending, b: Pending) returns (trace: seq<Step>)
    requires |a.payload| == |b.payload| == 2
    ensures B.SizeOnly(trace) && Run(SMALL, map[], trace) == Some(Abandoned(a))
  {
    trace := HandedFor(a, b);
    hide Run, B.SizeOnly;
    trace := SizeStep(SMALL, trace, FlushNext(0, Fail));
    trace := SizeStep(SMALL, trace, FlushNext(0, Fail));
    trace := SizeStep(SMALL, trace, ProducerNext);
    trace := SizeStep(SMALL, trace, Cancel);
    trace := SizeStep(SMALL, trace, ProducerCancel);
    var s := Run(SMALL, map[], trace).value;
    assert s.flights == map[0 := Flight([a], Returned(Nil))] && s.pipe.outcomes == [Hibernated];
    assert s.pipe.wakes == map[0 := Sleep];
  }

  /** Hibernation ends, and a third, smaller record is accepted that the first batch could have held. */
  lemma GivenUpLeavesRoom(a: Pending, b: Pending, c: Pending) returns (trace: seq<Step>)
    requires |a.payload| == |b.payload| == 2 && |c.payload| == 1
    ensures B.SizeOnly(trace) && Run(SMALL, map[], trace).Some?
    ensures var s := Run(SMALL, map[], trace).value;
            s.handed == [[a]] && s.accepted == [a, c] && Bytes([a]) + |c.payload| <= SMALL.maxBytes
  {
    trace := CancelledInHibernation(a, b);
    var s := Abandoned(a);
    var env := Pl.Env(true, true, 1);
    var round := St.RoundIsAStretch(SMALL, s, 0, env);
    Pl.PublishedRun(SMALL, s.pipe, [a], env);
    ExecConcat(SMALL, Init(map[]), trace, round);
    SizeOnlyConcat(trace, round);
    trace := trace + round;
    hide Run, B.SizeOnly, Pl.Retried, Pl.RunToEnd;
    trace := SizeStep(SMALL, trace, CallEnqueue(c));
    trace := SizeStep(SMALL, trace, ProducerNext);
    trace := SizeStep(SMALL, trace, ProducerNext);
    BytesAppend([], a);
    assert [] + [a] == [a];
  }

  lemma SizeOnlyConcat(a: seq<Step>, b: seq<Step>)
    requires B.SizeOnly(a) && forall k :: 0 <= k < |b| ==> b[k].WakeNext?
    ensures B.SizeOnly(a + b)
  {
  }
}
