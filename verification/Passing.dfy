/**
 Exactly when a watermark passes a record that was not delivered: in dead_letter mode the record of a batch whose
 dead-letter write failed, and in both modes a record that a filtered or skipped line of its file overtakes.
 */
module Passing {
  import opened Common
  import opened FlushProtocol
  import opened HandOff
  import opened Safety
  import opened DeadLetterMode
  import H = HibernateMode

  lemma {:induction false} IncreasingDistinct(accepted: seq<Pending>, wm: map<string, int>, x: Pending)
    requires Increasing(accepted, wm)
    ensures multiset(accepted)[x] <= 1
  {
    if accepted != [] {
      var before := accepted[..|accepted| - 1];
      IncreasingDistinct(before, wm, x);
      assert accepted == before + [accepted[|accepted| - 1]];
      if accepted[|accepted| - 1] == x {
        assert x !in before;
      }
    }
  }

  /** All accepted records of the path that the watermark covers are acknowledged or dead-lettered. */
  ghost predicate CoveredSafely(s: State, path: string) {
    forall j :: 0 <= j < |s.accepted| && s.accepted[j].path == path
      && path in s.pipe.watermarks && s.accepted[j].offset <= s.pipe.watermarks[path]
      ==> s.accepted[j] in s.pipe.acked || s.accepted[j] in s.pipe.dead
  }

  /** Some record of the path is still buffered, in flight, or lost. */
  predicate Outstanding(s: State, path: string) {
    || (exists x :: x in s.active.items && x.path == path)
    || (exists x :: x in InFlight(s) && x.path == path)
    || (exists x :: x in s.pipe.lost && x.path == path)
  }

  lemma PlacesDisjoint(s: State, wm: map<string, int>, x: Pending)
    requires Conserved(s) && Increasing(s.accepted, wm)
    ensures x in s.active.items || x in InFlight(s) || x in s.pipe.lost ==> x !in s.pipe.acked && x !in s.pipe.dead
    ensures x in s.pipe.lost ==> x !in s.active.items
    ensures x in s.accepted <==>
            x in s.active.items || x in InFlight(s) || x in s.pipe.lost || x in s.pipe.acked || x in s.pipe.dead
  {
    hide InFlight;
    IncreasingDistinct(s.accepted, wm, x);
    assert x in s.accepted <==> multiset(s.accepted)[x] > 0;
    assert x in s.active.items <==> multiset(s.active.items)[x] > 0;
    assert x in InFlight(s) <==> multiset(InFlight(s))[x] > 0;
    assert x in s.pipe.lost <==> multiset(s.pipe.lost)[x] > 0;
    assert x in s.pipe.acked <==> multiset(s.pipe.acked)[x] > 0;
    assert x in s.pipe.dead <==> multiset(s.pipe.dead)[x] > 0;
  }

  /**
   In dead_letter mode: exactly when the watermark of a filtered or skipped line is safe: when no earlier record of
   the same file is still buffered, in flight or lost.
   */
  lemma SkipSafeExactly(cfg: Config, wm: map<string, int>, trace: seq<Step>, path: string, offset: int)
    requires cfg.mode == DeadLetter && Run(cfg, wm, trace).Some? && Run(cfg, wm, trace).value.producer.Idle?
    requires var s := Run(cfg, wm, trace).value;
             Increasing(s.accepted, wm)
             && forall j :: 0 <= j < |s.accepted| && s.accepted[j].path == path ==> s.accepted[j].offset < offset
    ensures var s := Run(cfg, wm, trace).value;
            CoveredSafely(Next(cfg, s, SkipLine(path, offset)).value, path) <==> !Outstanding(s, path)
  {
    hide Run;
    var s := Run(cfg, wm, trace).value;
    ConservedAlways(cfg, wm, trace);
    SkipOutcome(cfg, s, wm, path, offset);
  }

  lemma SkipOutcome(cfg: Config, s: State, wm: map<string, int>, path: string, offset: int)
    requires s.producer.Idle? && Conserved(s) && Increasing(s.accepted, wm)
    requires forall j :: 0 <= j < |s.accepted| && s.accepted[j].path == path ==> s.accepted[j].offset < offset
    ensures CoveredSafely(Next(cfg, s, SkipLine(path, offset)).value, path) <==> !Outstanding(s, path)
  {
    hide InFlight, Conserved, Increasing;
    var t := Next(cfg, s, SkipLine(path, offset)).value;
    forall x ensures x in s.active.items || x in InFlight(s) || x in s.pipe.lost
                     ==> x in s.accepted && x !in s.pipe.acked && x !in s.pipe.dead
             ensures x in s.accepted ==>
                     || x in s.active.items || x in InFlight(s) || x in s.pipe.lost
                     || x in s.pipe.acked || x in s.pipe.dead
    {
      PlacesDisjoint(s, wm, x);
    }
    if CoveredSafely(t, path) {
      forall x | x in s.accepted && x.path == path ensures x in s.pipe.acked || x in s.pipe.dead {
        var j :| 0 <= j < |s.accepted| && s.accepted[j] == x;
        assert s.accepted[j] in t.pipe.acked || s.accepted[j] in t.pipe.dead;
      }
    }
  }

  /** In hibernate mode: some record of the path is buffered, in a flush yet to publish, or retained unacknowledged. */
  ghost predicate HeldBack(s: State, path: string) {
    || (exists x :: x in s.active.items && x.path == path)
    || (exists id, x :: id in s.flights && Unresolved(s.flights[id].pc) && x in s.flights[id].batch && x.path == path)
    || (exists x :: x in s.pipe.retained && x.path == path && x !in s.pipe.acked)
  }

  lemma ActiveUnacked(s: State, x: Pending)
    requires H.AckedHanded(s) && Queue(s) && multiset(s.accepted)[x] <= 1 && x in s.active.items
    ensures x in s.accepted && x !in s.pipe.acked
  {
    hide Flatten;
    OneOfThree([], Flatten(s.handed), s.active.items, x);
    assert [] + Flatten(s.handed) == Flatten(s.handed);
  }

  lemma FlightUnacked(s: State, id: nat, x: Pending)
    requires H.AckedHanded(s) && Channels(s) && Queue(s) && multiset(s.accepted)[x] <= 1
    requires id in s.flights && Unresolved(s.flights[id].pc) && x in s.flights[id].batch
    ensures x in s.accepted && x !in s.pipe.acked
  {
    H.NewestInFlatten(s.handed);
    assert s.flights[id].batch == s.handed[|s.handed| - 1];
    hide Flatten, Channels;
    OneOfThree(Flatten(s.handed[..|s.handed| - 1]), s.handed[|s.handed| - 1], s.active.items, x);
  }

  /** Neither buffered records nor those of a flush yet to publish are acknowledged. */
  lemma WaitingUnacked(s: State, wm: map<string, int>, x: Pending)
    requires H.AckedHanded(s) && Channels(s) && Queue(s) && Increasing(s.accepted, wm)
    ensures x in s.active.items ==> x in s.accepted && x !in s.pipe.acked
    ensures (exists id :: id in s.flights && Unresolved(s.flights[id].pc) && x in s.flights[id].batch) ==>
              x in s.accepted && x !in s.pipe.acked
  {
    hide H.AckedHanded, Channels, Queue, Increasing;
    IncreasingDistinct(s.accepted, wm, x);
    if x in s.active.items {
      ActiveUnacked(s, x);
    }
    if id :| id in s.flights && Unresolved(s.flights[id].pc) && x in s.flights[id].batch {
      FlightUnacked(s, id, x);
    }
  }

  /** What occurs at most once in three lists laid end to end occurs in one of them at most. */
  lemma OneOfThree(a: seq<Pending>, b: seq<Pending>, c: seq<Pending>, x: Pending)
    requires multiset(a + b + c)[x] <= 1
    ensures x in c ==> x !in a + b
    ensures x in b ==> x !in a
  {
    assert x in a <==> multiset(a)[x] > 0;
    assert x in b <==> multiset(b)[x] > 0;
    assert x in c <==> multiset(c)[x] > 0;
    assert multiset(a + b + c) == multiset(a) + multiset(b) + multiset(c);
  }

  /**
   In hibernate mode, in every run where no flusher-owned flush starts while hibernating: exactly when the watermark of
   a filtered or skipped line is safe: when no earlier record of the file is buffered, in a flush yet to publish, or
   retained and unacknowledged.
   */
  lemma SkipSafeHibernating(cfg: Config, wm: map<string, int>, trace: seq<Step>, path: string, offset: int)
    requires cfg.mode == Hibernate && Run(cfg, wm, trace).Some?
    requires var s := Run(cfg, wm, trace).value;
             && s.producer.Idle? && !s.startedHib && Increasing(s.accepted, wm)
             && forall j :: 0 <= j < |s.accepted| && s.accepted[j].path == path ==> s.accepted[j].offset < offset
    ensures var s := Run(cfg, wm, trace).value;
            CoveredSafely(Next(cfg, s, SkipLine(path, offset)).value, path) <==> !HeldBack(s, path)
  {
    hide Run;
    var s := Run(cfg, wm, trace).value;
    H.PlacesOf(cfg, wm, trace);
    forall x | x in s.accepted
      ensures || x in s.pipe.acked || x in s.active.items || x in s.pipe.retained
              || exists id :: id in s.flights && Unresolved(s.flights[id].pc) && x in s.flights[id].batch
    {
      H.NothingForgotten(cfg, wm, trace, x);
    }
    HeldBackOutcome(cfg, s, wm, path, offset);
  }

  lemma HeldBackOutcome(cfg: Config, s: State, wm: map<string, int>, path: string, offset: int)
    requires s.producer.Idle? && H.AckedHanded(s) && Channels(s) && Queue(s) && H.Retaining(s.pipe)
    requires s.pipe.retained != [] ==> s.handed != [] && s.pipe.retained == s.handed[|s.handed| - 1]
    requires Increasing(s.accepted, wm)
    requires forall j :: 0 <= j < |s.accepted| && s.accepted[j].path == path ==> s.accepted[j].offset < offset
    requires forall x :: x in s.accepted ==>
               || x in s.pipe.acked || x in s.active.items || x in s.pipe.retained
               || exists id :: id in s.flights && Unresolved(s.flights[id].pc) && x in s.flights[id].batch
    ensures CoveredSafely(Next(cfg, s, SkipLine(path, offset)).value, path) <==> !HeldBack(s, path)
  {
    RetainedAccepted(s);
    forall x ensures x in s.active.items ==> x in s.accepted && x !in s.pipe.acked
             ensures (exists id :: id in s.flights && Unresolved(s.flights[id].pc) && x in s.flights[id].batch) ==>
                       x in s.accepted && x !in s.pipe.acked
    {
      WaitingUnacked(s, wm, x);
    }
    hide H.AckedHanded, Channels, Queue, Increasing;
    var t := Next(cfg, s, SkipLine(path, offset)).value;
    if CoveredSafely(t, path) {
      forall x | x in s.accepted && x.path == path ensures x in s.pipe.acked {
        var j :| 0 <= j < |s.accepted| && s.accepted[j] == x;
        assert s.accepted[j] in t.pipe.acked;
      }
    }
  }

  lemma RetainedAccepted(s: State)
    requires Queue(s)
    requires s.pipe.retained != [] ==> s.handed != [] && s.pipe.retained == s.handed[|s.handed| - 1]
    ensures forall x :: x in s.pipe.retained ==> x in s.accepted
  {
    if s.pipe.retained != [] {
      H.NewestInFlatten(s.handed);
    }
    hide Flatten;
    assert s.accepted == Flatten(s.handed) + s.active.items;
  }

  // ---- After a failed dead-letter write -------------------------------------------------------------------

  /** A batch whose watermarks are being set was acknowledged or written to a dead-letter file. */
  ghost predicate AdvancesDelivered(s: State) {
    forall id :: id in s.flights && s.flights[id].pc.Advancing? ==>
      forall x :: x in s.flights[id].batch ==> x in s.pipe.acked || x in s.pipe.dead
  }

  lemma ProducerStepAdvances(cfg: Config, s: State)
    requires Channels(s) && AdvancesDelivered(s) && ProducerStep(cfg, s).Some?
    ensures AdvancesDelivered(ProducerStep(cfg, s).value)
  {
    hide ProducerStep;
    ProducerStepShape(cfg, s);
  }

  lemma FlushNextAdvances(cfg: Config, s: State, id: nat, c: Choice)
    requires Channels(s) && AdvancesDelivered(s) && Next(cfg, s, FlushNext(id, c)).Some?
    ensures AdvancesDelivered(Next(cfg, s, FlushNext(id, c)).value)
  {
    var t := Next(cfg, s, FlushNext(id, c)).value;
    assert t.flights.Keys == {id};
    hide Channels;
    FlushStepDelivers(cfg, s.pipe, s.flights[id], c);
    hide FlushItemsStep;
  }

  lemma FlushStepDelivers(cfg: Config, p: Pipe, f: Flight, c: Choice)
    requires !f.pc.Returned?
    ensures var (q, g) := FlushItemsStep(cfg, p, f, c);
            && g.batch == f.batch && p.acked <= q.acked && p.dead <= q.dead
            && (g.pc.Advancing? ==> f.pc.Advancing? || forall x :: x in f.batch ==> x in q.acked || x in q.dead)
  {
  }

  lemma {:induction false} AdvancesAlways(cfg: Config, wm: map<string, int>, trace: seq<Step>)
    requires cfg.mode == DeadLetter && Run(cfg, wm, trace).Some?
    ensures AdvancesDelivered(Run(cfg, wm, trace).value)
  {
    if trace != [] {
      var before, step := trace[..|trace| - 1], trace[|trace| - 1];
      var s := Run(cfg, wm, before).value;
      AdvancesAlways(cfg, wm, before);
      Reachable(cfg, wm, before);
      AlwaysQuiet(cfg, wm, before);
      match step
      case ProducerNext => ProducerStepAdvances(cfg, s);
      case FlushNext(id, c) => FlushNextAdvances(cfg, s, id, c);
      case Complete(id) => assert Next(cfg, s, step).value.flights == s.flights - {id};
      case _ => OtherStepKeepsLogs(cfg, s, step);
    }
  }

  /** A restart would not read the record again. */
  predicate Covers(p: Pipe, x: Pending) {
    x.path in p.watermarks && x.offset <= p.watermarks[x.path]
  }

  /** The step sets the watermark of the record's file: in a later flush, or for a later filtered or skipped line. */
  predicate Passes(s: State, step: Step, x: Pending) {
    match step
    case FlushNext(id, _) =>
      && id in s.flights && s.flights[id].pc.Advancing? && s.flights[id].pc.i < |s.flights[id].batch|
      && s.flights[id].batch[s.flights[id].pc.i].path == x.path
    case SkipLine(path, offset) => path == x.path && x.offset <= offset
    case _ => false
  }

  /** A flush that sets watermarks works on records accepted after those of any lost batch. */
  lemma LostIsOlder(s: State, wm: map<string, int>, id: nat, i: nat, x: Pending)
    requires Queue(s) && Channels(s) && Conserved(s) && Increasing(s.accepted, wm) && AdvancesDelivered(s)
    requires id in s.flights && s.flights[id].pc.Advancing? && i < |s.flights[id].batch| && x in s.pipe.lost
    ensures s.flights[id].batch[i].path == x.path ==> x.offset < s.flights[id].batch[i].offset
  {
    PlacesDisjoint(s, wm, x);
    hide InFlight, Conserved;
    var batch := s.flights[id].batch;
    var prefix := Flatten(s.handed[..|s.handed| - 1]);
    assert batch == s.handed[|s.handed| - 1];
    assert Flatten(s.handed) == prefix + batch;
    assert s.accepted == prefix + batch + s.active.items;
    assert x in s.accepted && x !in batch;
    assert x in prefix;
    var j :| 0 <= j < |prefix| && prefix[j] == x;
    assert s.accepted[j] == x && s.accepted[|prefix| + i] == batch[i];
  }

  lemma FlushStepMarks(cfg: Config, p: Pipe, f: Flight, c: Choice)
    requires !f.pc.Returned?
    ensures FlushItemsStep(cfg, p, f, c).0.watermarks ==
            if f.pc.Advancing? && f.pc.i < |f.batch| then
              p.watermarks[f.batch[f.pc.i].path := f.batch[f.pc.i].offset]
            else p.watermarks
  {
  }

  lemma FlushNextPasses(cfg: Config, s: State, wm: map<string, int>, id: nat, c: Choice, x: Pending)
    requires Queue(s) && Channels(s) && Conserved(s) && Increasing(s.accepted, wm) && AdvancesDelivered(s)
    requires Next(cfg, s, FlushNext(id, c)).Some? && x in s.pipe.lost && !Covers(s.pipe, x)
    ensures Covers(Next(cfg, s, FlushNext(id, c)).value.pipe, x) <==> Passes(s, FlushNext(id, c), x)
  {
    var f := s.flights[id];
    FlushStepMarks(cfg, s.pipe, f, c);
    hide Queue, Channels, Conserved, Increasing, AdvancesDelivered, FlushItemsStep;
    if f.pc.Advancing? && f.pc.i < |f.batch| {
      LostIsOlder(s, wm, id, f.pc.i, x);
    }
  }

  /**
   Exactly when the watermark passes a record of a batch whose dead-letter write failed: when a later flush sets the
   watermark of any record of the same file, or a later line of that file is filtered or skipped.
   */
  lemma LostPassedExactly(cfg: Config, wm: map<string, int>, trace: seq<Step>, step: Step, x: Pending)
    requires cfg.mode == DeadLetter && Run(cfg, wm, trace).Some? && Next(cfg, Run(cfg, wm, trace).value, step).Some?
    requires var s := Run(cfg, wm, trace).value;
             Increasing(s.accepted, wm) && x in s.pipe.lost && !Covers(s.pipe, x)
    ensures var s := Run(cfg, wm, trace).value;
            Covers(Next(cfg, s, step).value.pipe, x) <==> Passes(s, step, x)
  {
    hide Run, Queue, Channels, Conserved, Increasing, AdvancesDelivered;
    var s := Run(cfg, wm, trace).value;
    Reachable(cfg, wm, trace);
    ConservedAlways(cfg, wm, trace);
    AlwaysQuiet(cfg, wm, trace);
    AdvancesAlways(cfg, wm, trace);
    NextPasses(cfg, s, wm, step, x);
  }

  lemma NextPasses(cfg: Config, s: State, wm: map<string, int>, step: Step, x: Pending)
    requires Queue(s) && Channels(s) && Conserved(s) && Increasing(s.accepted, wm) && AdvancesDelivered(s) && Quiet(s)
    requires Next(cfg, s, step).Some? && x in s.pipe.lost && !Covers(s.pipe, x)
    ensures Covers(Next(cfg, s, step).value.pipe, x) <==> Passes(s, step, x)
  {
    hide Queue, Channels, Conserved, Increasing, AdvancesDelivered, ProducerStep, FlushItemsStep, WakeStep;
    match step
    case FlushNext(id, c) => FlushNextPasses(cfg, s, wm, id, c, x);
    case ProducerNext => ProducerStepShape(cfg, s);
    case SkipLine(path, offset) =>
    case Complete(id) =>
    case _ => OtherStepKeepsLogs(cfg, s, step);
  }

  /** A batch is lost exactly by a step in which its dead-letter write fails. */
  lemma LostExactly(cfg: Config, wm: map<string, int>, trace: seq<Step>, step: Step)
    requires cfg.mode == DeadLetter && Run(cfg, wm, trace).Some? && Next(cfg, Run(cfg, wm, trace).value, step).Some?
    ensures var s := Run(cfg, wm, trace).value;
            Next(cfg, s, step).value.pipe.lost ==
            if step.FlushNext? && s.flights[step.id].pc == Failed && step.choice == Fail then
              s.pipe.lost + s.flights[step.id].batch
            else s.pipe.lost
  {
    hide Run, ProducerStep, WakeStep;
    AlwaysQuiet(cfg, wm, trace);
    var s := Run(cfg, wm, trace).value;
    if step.ProducerNext? {
      ProducerStepShape(cfg, s);
    } else if !step.FlushNext? && !step.Complete? {
      OtherStepKeepsLogs(cfg, s, step);
    }
  }
}
