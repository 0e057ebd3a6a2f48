/**
 Batching with on_flush_failure: dead_letter, over all interleavings: nothing is ever retained, every
 accepted record is in exactly one place, the consecutive-batch limit machine is exact, and no watermark
 passes a record that was neither acknowledged nor dead-lettered unless its dead-letter write failed.
 */
module DeadLetterMode {
  import opened Common
  import opened FlushProtocol
  import opened HandOff
  import opened Safety

  /** No batch is retained, so no wake loop and no shutdown drain ever flushes. */
  ghost predicate Quiet(s: State) {
    && s.pipe.retained == []
    && (forall id :: id in s.pipe.wakes ==> !s.pipe.wakes[id].Flushing?)
    && !s.producer.Drain?
  }

  lemma ProducerStepQuiet(cfg: Config, s: State)
    requires Quiet(s) && ProducerStep(cfg, s).Some?
    ensures Quiet(ProducerStep(cfg, s).value)
  {
    hide ProducerStep;
    ProducerStepShape(cfg, s);
  }

  lemma FlushNextQuiet(cfg: Config, s: State, id: nat, c: Choice)
    requires cfg.mode == DeadLetter && Quiet(s) && Next(cfg, s, FlushNext(id, c)).Some?
    ensures Quiet(Next(cfg, s, FlushNext(id, c)).value)
  {
  }

  lemma NextQuiet(cfg: Config, s: State, step: Step)
    requires cfg.mode == DeadLetter && Quiet(s) && Next(cfg, s, step).Some?
    ensures Quiet(Next(cfg, s, step).value)
  {
    hide ProducerStep, FlushItemsStep, WakeStep;
    match step
    case ProducerNext => ProducerStepQuiet(cfg, s);
    case FlushNext(id, c) => FlushNextQuiet(cfg, s, id, c);
    case WakeNext(id, c) => WakeStepQuiet(cfg, s.pipe, id, c);
    case _ =>
  }

  /** Without a retained batch a wake loop only looks at the flag. */
  lemma WakeStepQuiet(cfg: Config, p: Pipe, id: nat, c: Choice)
    requires id in p.wakes && !p.wakes[id].Flushing? && p.retained == []
    ensures var q := WakeStep(cfg, p, id, c);
            && q == p.(wakeRunning := q.wakeRunning, wakes := q.wakes)
            && forall other :: other in q.wakes ==>
                 if other == id then !q.wakes[other].Flushing?
                 else other in p.wakes && q.wakes[other] == p.wakes[other]
  {
    hide FlushItemsStep;
  }

  lemma {:induction false} AlwaysQuiet(cfg: Config, wm: map<string, int>, trace: seq<Step>)
    requires cfg.mode == DeadLetter && Run(cfg, wm, trace).Some?
    ensures Quiet(Run(cfg, wm, trace).value)
  {
    if trace != [] {
      AlwaysQuiet(cfg, wm, trace[..|trace| - 1]);
      NextQuiet(cfg, Run(cfg, wm, trace[..|trace| - 1]).value, trace[|trace| - 1]);
    }
  }

  // ---- Conservation -------------------------------------------------------------------------------------

  /** The batch that a running flush has neither published nor written to a dead-letter file yet. */
  function InFlight(s: State): seq<Pending> {
    if s.flushDone in s.flights && Unresolved(s.flights[s.flushDone].pc) then s.flights[s.flushDone].batch else []
  }

  /** Every accepted record is in exactly one of the five places, as often as it was accepted. */
  ghost predicate Conserved(s: State) {
    multiset(s.accepted) ==
    multiset(s.active.items) + multiset(InFlight(s))
    + multiset(s.pipe.acked) + multiset(s.pipe.dead) + multiset(s.pipe.lost)
  }

  lemma StartConserves(s: State, t: State)
    requires Channels(s) && Conserved(s) && Started(s, t)
    ensures Conserved(t)
  {
    assert InFlight(s) == [];
    assert InFlight(t) == s.active.items;
  }

  lemma AppendConserves(s: State, t: State)
    requires Conserved(s) && Appended(s, t)
    ensures Conserved(t)
  {
    assert InFlight(t) == InFlight(s);
  }

  lemma MoveConserves(s: State, t: State)
    requires Conserved(s) && Moved(s, t)
    ensures Conserved(t)
  {
    assert InFlight(t) == InFlight(s);
  }

  lemma ProducerStepConserves(cfg: Config, s: State)
    requires Channels(s) && Conserved(s) && ProducerStep(cfg, s).Some?
    ensures Conserved(ProducerStep(cfg, s).value)
  {
    hide ProducerStep, Channels, Conserved, Started, Appended, Moved;
    ProducerStepShape(cfg, s);
    var t := ProducerStep(cfg, s).value;
    if Started(s, t) {
      StartConserves(s, t);
    } else if Appended(s, t) {
      AppendConserves(s, t);
    } else {
      MoveConserves(s, t);
    }
  }

  /** One step of a flush moves its batch to at most one log, and only when it resolves the batch. */
  lemma FlushItemsStepMoves(cfg: Config, p: Pipe, f: Flight, c: Choice)
    requires cfg.mode == DeadLetter && !f.pc.Returned?
    ensures var (q, g) := FlushItemsStep(cfg, p, f, c);
            var moved := if Unresolved(f.pc) && !Unresolved(g.pc) then f.batch else [];
            && g.batch == f.batch && (Unresolved(g.pc) ==> Unresolved(f.pc))
            && (|| (q.acked == p.acked + moved && q.dead == p.dead && q.lost == p.lost)
                || (q.acked == p.acked && q.dead == p.dead + moved && q.lost == p.lost)
                || (q.acked == p.acked && q.dead == p.dead && q.lost == p.lost + moved))
  {
    assert p.acked + [] == p.acked;
  }

  lemma FlushNextConserves(cfg: Config, s: State, id: nat, c: Choice)
    requires cfg.mode == DeadLetter && Channels(s) && Conserved(s) && Next(cfg, s, FlushNext(id, c)).Some?
    ensures Conserved(Next(cfg, s, FlushNext(id, c)).value)
  {
    hide FlushItemsStep;
    var t := Next(cfg, s, FlushNext(id, c)).value;
    var f, g := s.flights[id], t.flights[id];
    FlushItemsStepMoves(cfg, s.pipe, f, c);
    assert id == s.flushDone;
    hide Channels;
    assert InFlight(s) == if Unresolved(f.pc) then f.batch else [];
    assert InFlight(t) == if Unresolved(g.pc) then f.batch else [];
  }

  lemma CompleteConserves(cfg: Config, s: State, id: nat)
    requires Channels(s) && Conserved(s) && Next(cfg, s, Complete(id)).Some?
    ensures Conserved(Next(cfg, s, Complete(id)).value)
  {
    var t := Next(cfg, s, Complete(id)).value;
    assert InFlight(s) == [];
    assert InFlight(t) == [];
  }

  lemma OtherStepConserves(cfg: Config, s: State, step: Step)
    requires Quiet(s) && Conserved(s) && Next(cfg, s, step).Some?
    requires !step.ProducerNext? && !step.FlushNext? && !step.Complete?
    ensures Conserved(Next(cfg, s, step).value)
  {
    hide Conserved, InFlight;
    OtherStepKeepsLogs(cfg, s, step);
    SameLogsConserve(s, Next(cfg, s, step).value);
  }

  /** The records and the flushes of the flusher are the same. */
  ghost predicate SameLogs(s: State, t: State) {
    && t.accepted == s.accepted && t.active == s.active && t.handed == s.handed
    && t.flushDone == s.flushDone && t.flights == s.flights
    && t.pipe.acked == s.pipe.acked && t.pipe.dead == s.pipe.dead && t.pipe.lost == s.pipe.lost
    && t.pipe.outcomes == s.pipe.outcomes && t.pipe.dlq == s.pipe.dlq && t.pipe.hibernating == s.pipe.hibernating
  }

  lemma SameLogsConserve(s: State, t: State)
    requires SameLogs(s, t) && Conserved(s)
    ensures Conserved(t)
  {
  }

  /** Without retained batches, nobody but the flusher's own flushes touches the records. */
  lemma OtherStepKeepsLogs(cfg: Config, s: State, step: Step)
    requires Quiet(s) && Next(cfg, s, step).Some?
    requires !step.ProducerNext? && !step.FlushNext? && !step.Complete?
    ensures SameLogs(s, Next(cfg, s, step).value)
    ensures !step.SkipLine? ==> Next(cfg, s, step).value.pipe.watermarks == s.pipe.watermarks
  {
    hide FlushItemsStep, WakeStep, ProducerStep;
    match step
    case WakeNext(id, c) => WakeStepQuiet(cfg, s.pipe, id, c);
    case _ =>
  }

  lemma {:induction false} ConservedAlways(cfg: Config, wm: map<string, int>, trace: seq<Step>)
    requires cfg.mode == DeadLetter && Run(cfg, wm, trace).Some?
    ensures Conserved(Run(cfg, wm, trace).value)
  {
    if trace != [] {
      var before, step := trace[..|trace| - 1], trace[|trace| - 1];
      var s := Run(cfg, wm, before).value;
      ConservedAlways(cfg, wm, before);
      Reachable(cfg, wm, before);
      AlwaysQuiet(cfg, wm, before);
      match step
      case ProducerNext => ProducerStepConserves(cfg, s);
      case FlushNext(id, c) => FlushNextConserves(cfg, s, id, c);
      case Complete(id) => CompleteConserves(cfg, s, id);
      case _ => OtherStepConserves(cfg, s, step);
    }
  }

  // ---- The consecutive-batch limit ------------------------------------------------------------------------

  /** Completed dead-letter flushes since the last fully successful flush. */
  function Trailing(outcomes: seq<Outcome>): nat {
    if outcomes == [] then 0
    else
      var rest := outcomes[..|outcomes| - 1];
      match outcomes[|outcomes| - 1]
      case Succeeded => 0
      case DeadLettered => Trailing(rest) + 1
      case _ => Trailing(rest)
  }

  lemma TrailingAppend(outcomes: seq<Outcome>, o: Outcome)
    ensures Trailing(outcomes + [o]) ==
            if o == Succeeded then 0 else if o == DeadLettered then Trailing(outcomes) + 1 else Trailing(outcomes)
  {
    assert (outcomes + [o])[..|outcomes|] == outcomes;
  }

  /** The counter and the flag between the steps of a flush that stands at `pc`; `None` is no flush. */
  ghost predicate LimitAt(cfg: Config, p: Pipe, pc: Option<FlushPc>) {
    if pc.Some? && pc.value.Limit? then
      p.dlq == pc.value.consecutive == Trailing(p.outcomes) + 1 && (p.hibernating <==> p.dlq - 1 >= cfg.dlqLimit)
    else if pc == Some(Exiting) then p.dlq == 0
    else p.dlq == Trailing(p.outcomes) && (p.hibernating <==> p.dlq >= cfg.dlqLimit)
  }

  ghost predicate LimitOk(cfg: Config, s: State) {
    LimitAt(cfg, s.pipe, if s.flushDone in s.flights then Some(s.flights[s.flushDone].pc) else None)
  }

  lemma FlushItemsStepLimit(cfg: Config, p: Pipe, f: Flight, c: Choice)
    requires cfg.mode == DeadLetter && cfg.dlqLimit > 0 && !f.pc.Returned? && LimitAt(cfg, p, Some(f.pc))
    ensures var (q, g) := FlushItemsStep(cfg, p, f, c); LimitAt(cfg, q, Some(g.pc))
  {
    hide Trailing;
    match f.pc
    case Exiting => TrailingAppend(p.outcomes, Succeeded);
    case Limit(_) => TrailingAppend(p.outcomes, DeadLettered);
    case _ => TrailingAppend(p.outcomes, Errored);
  }

  lemma ProducerStepLimit(cfg: Config, s: State)
    requires Channels(s) && LimitOk(cfg, s) && ProducerStep(cfg, s).Some?
    ensures LimitOk(cfg, ProducerStep(cfg, s).value)
  {
    hide Trailing, ProducerStep;
    ProducerStepShape(cfg, s);
  }

  lemma FlushNextLimit(cfg: Config, s: State, id: nat, c: Choice)
    requires cfg.mode == DeadLetter && cfg.dlqLimit > 0
    requires Channels(s) && LimitOk(cfg, s) && Next(cfg, s, FlushNext(id, c)).Some?
    ensures LimitOk(cfg, Next(cfg, s, FlushNext(id, c)).value)
  {
    assert id == s.flushDone;
    FlushItemsStepLimit(cfg, s.pipe, s.flights[id], c);
  }

  lemma CompleteLimit(cfg: Config, s: State, id: nat)
    requires Channels(s) && LimitOk(cfg, s) && Next(cfg, s, Complete(id)).Some?
    ensures LimitOk(cfg, Next(cfg, s, Complete(id)).value)
  {
    hide Trailing;
  }

  lemma OtherStepLimit(cfg: Config, s: State, step: Step)
    requires Quiet(s) && LimitOk(cfg, s) && Next(cfg, s, step).Some?
    requires !step.ProducerNext? && !step.FlushNext? && !step.Complete?
    ensures LimitOk(cfg, Next(cfg, s, step).value)
  {
    hide Trailing, Next;
    OtherStepKeepsLogs(cfg, s, step);
  }

  lemma {:induction false} LimitAlways(cfg: Config, wm: map<string, int>, trace: seq<Step>)
    requires cfg.mode == DeadLetter && cfg.dlqLimit > 0 && Run(cfg, wm, trace).Some?
    ensures LimitOk(cfg, Run(cfg, wm, trace).value)
  {
    if trace != [] {
      var before, step := trace[..|trace| - 1], trace[|trace| - 1];
      var s := Run(cfg, wm, before).value;
      LimitAlways(cfg, wm, before);
      Reachable(cfg, wm, before);
      AlwaysQuiet(cfg, wm, before);
      match step
      case ProducerNext => ProducerStepLimit(cfg, s);
      case FlushNext(id, c) => FlushNextLimit(cfg, s, id, c);
      case Complete(id) => CompleteLimit(cfg, s, id);
      case _ => OtherStepLimit(cfg, s, step);
    }
  }

  // ---- Watermark safety -----------------------------------------------------------------------------------

  ghost predicate Safe(s: State, wm: map<string, int>) {
    && (forall id :: id in s.flights ==> FlightOk(s.handed, s.pipe, s.flights[id]))
    && ((forall id :: id in s.flights ==> !Unresolved(s.flights[id].pc)) ==> Settled(s.handed, s.pipe))
    && Sourced(s.accepted, s.pipe, wm)
  }

  lemma StartFlushSafe(s: State, wm: map<string, int>)
    requires Channels(s) && Safe(s, wm) && !s.flushRunning && s.active.items != []
    ensures Safe(StartFlush(s), wm)
  {
    hide Sourced;
    var t := StartFlush(s);
    assert t.handed[..|t.handed| - 1] == s.handed;
    assert t.flights.Keys == {t.flushDone};
  }

  lemma AppendSafe(s: State, item: Pending, wm: map<string, int>)
    requires Safe(s, wm)
    ensures Safe(Append(s, item), wm)
  {
    hide Sourced;
    SourcedGrows(s.accepted, s.pipe, s.accepted + [item], s.pipe, wm);
  }

  lemma ProducerStepSafe(cfg: Config, s: State, wm: map<string, int>)
    requires Channels(s) && Safe(s, wm) && ProducerStep(cfg, s).Some?
    ensures Safe(ProducerStep(cfg, s).value, wm)
  {
    hide Sourced, FlightOk, Settled, StartFlush, ProducerStep;
    ProducerStepShape(cfg, s);
    var t := ProducerStep(cfg, s).value;
    if Started(s, t) {
      StartFlushSafe(s, wm);
    } else if Appended(s, t) {
      AppendSafe(s, t.accepted[|s.accepted|], wm);
    }
  }

  lemma FlushNextSafe(cfg: Config, s: State, id: nat, c: Choice, wm: map<string, int>)
    requires cfg.mode == DeadLetter && Queue(s) && Channels(s) && Safe(s, wm)
    requires Next(cfg, s, FlushNext(id, c)).Some?
    ensures Safe(Next(cfg, s, FlushNext(id, c)).value, wm)
  {
    hide Sourced, FlightOk, FlushItemsStep;
    var t := Next(cfg, s, FlushNext(id, c)).value;
    FlushItemsStepSafe(cfg, s.accepted, s.handed, s.pipe, s.flights[id], c, wm, true);
    assert t.flights.Keys == {id};
  }

  lemma CompleteSafe(cfg: Config, s: State, id: nat, wm: map<string, int>)
    requires Channels(s) && Safe(s, wm) && Next(cfg, s, Complete(id)).Some?
    ensures Safe(Next(cfg, s, Complete(id)).value, wm)
  {
    hide Sourced, FlightOk, Settled;
    assert Next(cfg, s, Complete(id)).value.flights.Keys == {};
    assert s.flights.Keys == {id};
  }

  lemma OtherStepSafe(cfg: Config, s: State, step: Step, wm: map<string, int>)
    requires Quiet(s) && Safe(s, wm) && Next(cfg, s, step).Some?
    requires !step.ProducerNext? && !step.FlushNext? && !step.Complete? && !step.SkipLine?
    ensures Safe(Next(cfg, s, step).value, wm)
  {
    hide Sourced, Next;
    OtherStepKeepsLogs(cfg, s, step);
    var t := Next(cfg, s, step).value;
    GrowsResolved(s.pipe, t.pipe);
    SourcedGrows(s.accepted, s.pipe, s.accepted, t.pipe, wm);
  }

  lemma {:induction false} SafeAlways(cfg: Config, wm: map<string, int>, trace: seq<Step>)
    requires cfg.mode == DeadLetter && Run(cfg, wm, trace).Some? && !Run(cfg, wm, trace).value.skipped
    ensures Safe(Run(cfg, wm, trace).value, wm)
  {
    if trace != [] {
      var before, step := trace[..|trace| - 1], trace[|trace| - 1];
      var s := Run(cfg, wm, before).value;
      FlagsStep(cfg, s, step);
      SafeAlways(cfg, wm, before);
      Reachable(cfg, wm, before);
      AlwaysQuiet(cfg, wm, before);
      match step
      case ProducerNext => ProducerStepSafe(cfg, s, wm);
      case FlushNext(id, c) => FlushNextSafe(cfg, s, id, c, wm);
      case Complete(id) => CompleteSafe(cfg, s, id, wm);
      case _ => OtherStepSafe(cfg, s, step, wm);
    }
  }

  // ---- The theorems ---------------------------------------------------------------------------------------

  /**
   Dead-letter safety: as long as nothing was filtered or skipped, an accepted record at or behind its path's
   watermark was acknowledged, is in a dead-letter file, or belongs to a batch whose dead-letter write failed.
   */
  lemma DeadLetterSafety(cfg: Config, wm: map<string, int>, trace: seq<Step>, j: nat)
    requires cfg.mode == DeadLetter && Run(cfg, wm, trace).Some?
    requires var s := Run(cfg, wm, trace).value; !s.skipped && Increasing(s.accepted, wm) && j < |s.accepted|
    ensures var s := Run(cfg, wm, trace).value; var x := s.accepted[j];
            x.path in s.pipe.watermarks && x.offset <= s.pipe.watermarks[x.path]
            ==> x in s.pipe.acked || x in s.pipe.dead || x in s.pipe.lost
  {
    var s := Run(cfg, wm, trace).value;
    SafeAlways(cfg, wm, trace);
    if s.accepted[j].path in s.pipe.watermarks && !Resolved(s.pipe, s.accepted[j]) {
      SourcedIsSafe(s.accepted, s.pipe, wm, j);
    }
  }

  /** A batch can be lost only by a flush that returned an error. */
  lemma {:induction false} LostMeansErrored(cfg: Config, wm: map<string, int>, trace: seq<Step>)
    requires Run(cfg, wm, trace).Some?
    ensures var p := Run(cfg, wm, trace).value.pipe; Errored !in p.outcomes ==> p.lost == []
  {
    if trace != [] {
      var s := Run(cfg, wm, trace[..|trace| - 1]).value;
      LostMeansErrored(cfg, wm, trace[..|trace| - 1]);
      LostStep(cfg, s, trace[|trace| - 1]);
    }
  }

  lemma LostStep(cfg: Config, s: State, step: Step)
    requires Next(cfg, s, step).Some?
    ensures var p := Next(cfg, s, step).value.pipe;
            s.pipe.outcomes <= p.outcomes && (p.lost == s.pipe.lost || Errored in p.outcomes)
  {
    hide ProducerStep, FlushItemsStep;
    match step
    case ProducerNext => ProducerStepShape(cfg, s);
    case FlushNext(id, c) => LostFlushStep(cfg, s.pipe, s.flights[id], c);
    case WakeNext(id, c) =>
      if s.pipe.wakes[id].Flushing? && !s.pipe.wakes[id].flight.pc.Returned? {
        LostFlushStep(cfg, s.pipe, s.pipe.wakes[id].flight, c);
      }
    case DrainNext(c) => LostFlushStep(cfg, s.pipe, s.producer.flight, c);
    case _ =>
  }

  lemma LostFlushStep(cfg: Config, p: Pipe, f: Flight, c: Choice)
    requires !f.pc.Returned?
    ensures var q := FlushItemsStep(cfg, p, f, c).0;
            p.outcomes <= q.outcomes && (q.lost == p.lost || Errored in q.outcomes)
  {
    assert forall o: Outcome :: (p.outcomes + [o])[|p.outcomes|] == o;
  }

  /**
   Before the first flush that returns an error, no watermark is at or past an accepted record that is neither
   acknowledged nor written to a dead-letter file.
   */
  lemma DeadLetterSafetyBeforeErrors(cfg: Config, wm: map<string, int>, trace: seq<Step>, j: nat)
    requires cfg.mode == DeadLetter && Run(cfg, wm, trace).Some?
    requires var s := Run(cfg, wm, trace).value;
             !s.skipped && Increasing(s.accepted, wm) && Errored !in s.pipe.outcomes && j < |s.accepted|
    ensures var s := Run(cfg, wm, trace).value; var x := s.accepted[j];
            x.path in s.pipe.watermarks && x.offset <= s.pipe.watermarks[x.path]
            ==> x in s.pipe.acked || x in s.pipe.dead
  {
    DeadLetterSafety(cfg, wm, trace, j);
    LostMeansErrored(cfg, wm, trace);
  }

  /**
   The limit machine: nothing is ever retained, the counter is the number of dead-letter flushes completed
   since the last successful one, and with no flush in flight hibernation is on exactly from the limit up.
   */
  lemma LimitMachine(cfg: Config, wm: map<string, int>, trace: seq<Step>)
    requires cfg.mode == DeadLetter && cfg.dlqLimit > 0 && Run(cfg, wm, trace).Some?
    ensures var s := Run(cfg, wm, trace).value;
            && s.pipe.retained == []
            && (!s.flushRunning ==>
                  s.pipe.dlq == Trailing(s.pipe.outcomes) && (s.pipe.hibernating <==> s.pipe.dlq >= cfg.dlqLimit))
  {
    LimitAlways(cfg, wm, trace);
    AlwaysQuiet(cfg, wm, trace);
    Reachable(cfg, wm, trace);
  }

  /** After a clean shutdown every accepted record was acknowledged, dead-lettered or reported as lost. */
  lemma CleanShutdownConserves(cfg: Config, wm: map<string, int>, trace: seq<Step>)
    requires cfg.mode == DeadLetter && Run(cfg, wm, trace).Some?
    requires ShutDownCleanly(Run(cfg, wm, trace).value.producer)
    ensures var s := Run(cfg, wm, trace).value;
            multiset(s.accepted) == multiset(s.pipe.acked) + multiset(s.pipe.dead) + multiset(s.pipe.lost)
  {
    ConservedAlways(cfg, wm, trace);
    ShutdownLeavesNothing(cfg, wm, trace);
  }

  // ---- Hibernation is final -------------------------------------------------------------------------------

  /** Hibernating, with every flush at its end and the producer between calls or waiting for hibernation to end. */
  ghost predicate Frozen(s: State) {
    && s.pipe.hibernating && (forall id :: id in s.flights ==> s.flights[id].pc.Returned?)
    && (s.producer.Idle? || s.producer.EnqTop? || s.producer.HibWait?)
  }

  /** Nothing is accepted, buffered, acknowledged, written or handed over. */
  predicate Unchanged(s: State, t: State) {
    && t.accepted == s.accepted && t.active == s.active && t.handed == s.handed
    && t.pipe.acked == s.pipe.acked && t.pipe.dead == s.pipe.dead && t.pipe.lost == s.pipe.lost
  }

  lemma ProducerStepFrozen(cfg: Config, s: State)
    requires Frozen(s) && ProducerStep(cfg, s).Some?
    ensures var t := ProducerStep(cfg, s).value; Frozen(t) && Unchanged(s, t)
  {
    hide WaitForFlush, EnqueueBody;
  }

  lemma NextFrozen(cfg: Config, s: State, step: Step)
    requires Quiet(s) && Frozen(s) && Next(cfg, s, step).Some? && !step.CallShutdown?
    ensures var t := Next(cfg, s, step).value; Frozen(t) && Unchanged(s, t)
  {
    hide ProducerStep, FlushItemsStep, WakeStep;
    match step
    case ProducerNext => ProducerStepFrozen(cfg, s);
    case WakeNext(id, c) => WakeStepQuiet(cfg, s.pipe, id, c);
    case _ =>
  }

  /**
   In dead_letter mode hibernation ends only with the process: whatever happens short of shutdown, wake loops
   included, nothing is accepted or published any more.
   */
  lemma {:induction false} HibernationIsFinal(cfg: Config, wm: map<string, int>, trace: seq<Step>, rest: seq<Step>)
    requires cfg.mode == DeadLetter && Run(cfg, wm, trace).Some? && Run(cfg, wm, trace + rest).Some?
    requires Frozen(Run(cfg, wm, trace).value) && CallShutdown !in rest
    ensures var t := Run(cfg, wm, trace + rest).value; Frozen(t) && Unchanged(Run(cfg, wm, trace).value, t)
  {
    if rest == [] {
      assert trace + rest == trace;
    } else {
      var before, step := rest[..|rest| - 1], rest[|rest| - 1];
      assert (trace + rest)[..|trace + rest| - 1] == trace + before;
      assert step in rest;
      HibernationIsFinal(cfg, wm, trace, before);
      AlwaysQuiet(cfg, wm, trace + before);
      hide Run, Frozen, Quiet, Next;
      NextFrozen(cfg, Run(cfg, wm, trace + before).value, step);
    }
  }
}
