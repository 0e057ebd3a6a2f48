/**
 Batching with on_flush_failure: hibernate, the wake actor and the shutdown drain running concurrently:
 hibernating holds exactly when a batch is retained, and unless a flusher-owned flush starts while
 hibernating, no accepted record is forgotten and no watermark passes an unacknowledged one.
 */
module HibernateMode {
  import opened Common
  import opened FlushProtocol
  import opened HandOff
  import opened Safety

  // ---- Hibernating is retaining ---------------------------------------------------------------------------

  /** A flush in hibernate mode never reaches the dead-letter steps, and its batch is not empty. */
  predicate HibernatePc(f: Flight) {
    f.batch != [] && !f.pc.Counting? && !f.pc.Limit? && (f.pc.Advancing? ==> !f.pc.dead)
  }

  predicate Retaining(p: Pipe) {
    (p.hibernating <==> p.retained != []) && p.dead == [] && p.lost == []
  }

  ghost predicate RetainOk(s: State) {
    && Retaining(s.pipe)
    && (forall id :: id in s.flights ==> HibernatePc(s.flights[id]))
    && (forall id :: id in s.pipe.wakes && s.pipe.wakes[id].Flushing? ==> HibernatePc(s.pipe.wakes[id].flight))
    && (s.producer.Drain? ==> HibernatePc(s.producer.flight))
  }

  /** The new wake loop, if any, is asleep; all others stand where they stood. */
  predicate SameWakes(p: Pipe, q: Pipe) {
    p.wakes == q.wakes || q.wakes == p.wakes[p.spawned := Sleep]
  }

  lemma FlushItemsStepRetains(cfg: Config, p: Pipe, f: Flight, c: Choice)
    requires cfg.mode == Hibernate && Retaining(p) && HibernatePc(f) && !f.pc.Returned?
    ensures var (q, g) := FlushItemsStep(cfg, p, f, c); Retaining(q) && HibernatePc(g) && SameWakes(p, q)
  {
  }

  lemma StartRetains(s: State, t: State)
    requires Channels(s) && RetainOk(s) && Started(s, t) && !t.producer.Drain?
    ensures RetainOk(t)
  {
  }

  lemma ProducerStepRetains(cfg: Config, s: State)
    requires Channels(s) && RetainOk(s) && ProducerStep(cfg, s).Some?
    ensures RetainOk(ProducerStep(cfg, s).value)
  {
    hide ProducerStep, Started, Channels;
    ProducerStepShape(cfg, s);
    var t := ProducerStep(cfg, s).value;
    if t.producer.Drain? {
      DrainFlight(cfg, s);
    } else if Started(s, t) {
      StartRetains(s, t);
    }
  }

  /** The drain starts with the retained batch. */
  lemma DrainFlight(cfg: Config, s: State)
    requires ProducerStep(cfg, s).Some? && ProducerStep(cfg, s).value.producer.Drain?
    ensures ProducerStep(cfg, s).value.producer.flight == Flight(s.pipe.retained, Publishing)
  {
    ProducerStepShape(cfg, s);
  }

  lemma FlushNextRetains(cfg: Config, s: State, id: nat, c: Choice)
    requires cfg.mode == Hibernate && RetainOk(s) && Next(cfg, s, FlushNext(id, c)).Some?
    ensures RetainOk(Next(cfg, s, FlushNext(id, c)).value)
  {
    hide FlushItemsStep;
    FlushItemsStepRetains(cfg, s.pipe, s.flights[id], c);
  }

  lemma WakeNextRetains(cfg: Config, s: State, id: nat, c: Choice)
    requires cfg.mode == Hibernate && RetainOk(s) && Next(cfg, s, WakeNext(id, c)).Some?
    ensures RetainOk(Next(cfg, s, WakeNext(id, c)).value)
  {
    hide FlushItemsStep;
    if s.pipe.wakes[id].Flushing? && !s.pipe.wakes[id].flight.pc.Returned? {
      FlushItemsStepRetains(cfg, s.pipe, s.pipe.wakes[id].flight, c);
    }
  }

  lemma DrainNextRetains(cfg: Config, s: State, c: Choice)
    requires cfg.mode == Hibernate && RetainOk(s) && Next(cfg, s, DrainNext(c)).Some?
    ensures RetainOk(Next(cfg, s, DrainNext(c)).value)
  {
    hide FlushItemsStep;
    FlushItemsStepRetains(cfg, s.pipe, s.producer.flight, c);
  }

  lemma OtherStepRetains(cfg: Config, s: State, step: Step)
    requires RetainOk(s) && Next(cfg, s, step).Some?
    requires !step.ProducerNext? && !step.FlushNext? && !step.WakeNext? && !step.DrainNext?
    ensures RetainOk(Next(cfg, s, step).value)
  {
  }

  lemma {:induction false} RetainAlways(cfg: Config, wm: map<string, int>, trace: seq<Step>)
    requires cfg.mode == Hibernate && Run(cfg, wm, trace).Some?
    ensures RetainOk(Run(cfg, wm, trace).value)
  {
    if trace != [] {
      var before, step := trace[..|trace| - 1], trace[|trace| - 1];
      var s := Run(cfg, wm, before).value;
      RetainAlways(cfg, wm, before);
      Reachable(cfg, wm, before);
      match step
      case ProducerNext => ProducerStepRetains(cfg, s);
      case FlushNext(id, c) => FlushNextRetains(cfg, s, id, c);
      case WakeNext(id, c) => WakeNextRetains(cfg, s, id, c);
      case DrainNext(c) => DrainNextRetains(cfg, s, c);
      case _ => OtherStepRetains(cfg, s, step);
    }
  }

  /** In every reachable state, whatever the interleaving, hibernating holds exactly when a batch is retained. */
  lemma HibernatingIffRetained(cfg: Config, wm: map<string, int>, trace: seq<Step>)
    requires cfg.mode == Hibernate && Run(cfg, wm, trace).Some?
    ensures var p := Run(cfg, wm, trace).value.pipe; p.hibernating <==> p.retained != []
  {
    RetainAlways(cfg, wm, trace);
  }

  // ---- Nothing is forgotten -------------------------------------------------------------------------------

  /** The shutdown drain has begun, or the run is over, with no flush of the flusher left. */
  predicate Leaving(s: State) {
    !s.flushRunning && (s.producer.Drain? || s.producer.Stopped?)
  }

  /** The retained batch, if any, is the newest one, and all older batches are settled. */
  ghost predicate RetainsNewest(handed: seq<seq<Pending>>, p: Pipe) {
    && (handed != [] ==> Settled(handed[..|handed| - 1], p))
    && (p.retained != [] ==> handed != [] && p.retained == handed[|handed| - 1])
  }

  /** The newest batch is settled or retained. */
  ghost predicate NewestSafe(handed: seq<seq<Pending>>, p: Pipe) {
    handed != [] ==> Settled(handed, p) || p.retained == handed[|handed| - 1]
  }

  ghost predicate FlusherOk(s: State) {
    forall id :: id in s.flights ==>
      FlightOk(s.handed, s.pipe, s.flights[id]) && (s.flights[id].pc.Returned? || !s.pipe.hibernating)
  }

  ghost predicate WakesOk(s: State) {
    forall id :: id in s.pipe.wakes && s.pipe.wakes[id].Flushing? ==>
      var f := s.pipe.wakes[id].flight;
      FlightOk(s.handed, s.pipe, f) && (f.pc.Returned? || s.pipe.hibernating || Leaving(s))
  }

  ghost predicate DrainOk(s: State) {
    s.producer.Drain? ==> FlightOk(s.handed, s.pipe, s.producer.flight)
  }

  ghost predicate NewestOk(s: State) {
    (forall id :: id in s.flights ==> !Unresolved(s.flights[id].pc)) ==> NewestSafe(s.handed, s.pipe)
  }

  ghost predicate Kept(s: State, wm: map<string, int>) {
    && FlusherOk(s) && WakesOk(s) && DrainOk(s) && NewestOk(s)
    && RetainsNewest(s.handed, s.pipe) && (!s.skipped ==> Sourced(s.accepted, s.pipe, wm))
  }

  lemma SettledGrows(batches: seq<seq<Pending>>, p: Pipe, q: Pipe)
    requires Settled(batches, p) && Grows(p, q)
    ensures Settled(batches, q)
  {
    GrowsResolved(p, q);
  }

  lemma FlightOkGrows(handed: seq<seq<Pending>>, p: Pipe, q: Pipe, f: Flight)
    requires FlightOk(handed, p, f) && Grows(p, q)
    ensures FlightOk(handed, q, f)
  {
    GrowsResolved(p, q);
  }

  /** What a step of a flush of the newest batch does to the retained batch and to the newest one. */
  lemma FlushItemsStepKeeps(cfg: Config, accepted: seq<Pending>, handed: seq<seq<Pending>>, p: Pipe, f: Flight,
                            c: Choice, wm: map<string, int>, sourced: bool)
    requires cfg.mode == Hibernate && Flatten(handed) <= accepted && (sourced ==> Sourced(accepted, p, wm))
    requires Retaining(p) && HibernatePc(f) && !f.pc.Returned?
    requires FlightOk(handed, p, f) && RetainsNewest(handed, p)
    ensures var (q, g) := FlushItemsStep(cfg, p, f, c);
            && (sourced ==> Sourced(accepted, q, wm)) && FlightOk(handed, q, g) && Grows(p, q)
            && RetainsNewest(handed, q)
            && (if Unresolved(g.pc) then q == p else NewestSafe(handed, q))
            && (q.hibernating != p.hibernating ==> g.pc.Returned?)
            && (!p.hibernating && q.hibernating ==> f.pc == Failed)
  {
    hide Sourced;
    FlushItemsStepSafe(cfg, accepted, handed, p, f, c, wm, sourced);
    var (q, g) := FlushItemsStep(cfg, p, f, c);
    SettledGrows(handed[..|handed| - 1], p, q);
    if !Unresolved(f.pc) {
      SettledGrows(handed, p, q);
    }
  }

  // One lemma for each kind of step.

  lemma StartKeeps(cfg: Config, s: State, t: State, wm: map<string, int>)
    requires Channels(s) && RetainOk(s) && Kept(s, wm) && Started(s, t) && !t.startedHib && !Leaving(s)
    requires !t.producer.Drain?
    ensures Kept(t, wm)
  {
    hide Sourced, Settled;
    assert t.handed[..|t.handed| - 1] == s.handed;
    assert t.flights.Keys == {t.flushDone};
    assert s.handed != [] ==> Settled(s.handed, s.pipe);
    EmptySettled(s.pipe);
  }

  lemma EmptySettled(p: Pipe)
    ensures Settled([], p)
  {
  }

  lemma AppendKeeps(s: State, t: State, wm: map<string, int>)
    requires Kept(s, wm) && Appended(s, t) && !t.producer.Drain? && (Leaving(s) ==> Leaving(t))
    ensures Kept(t, wm)
  {
    hide Sourced, FlightOk, Settled;
    if !s.skipped {
      SourcedGrows(s.accepted, s.pipe, t.accepted, s.pipe, wm);
    }
  }

  lemma MoveKeeps(s: State, t: State, wm: map<string, int>)
    requires RetainOk(s) && Kept(s, wm) && Moved(s, t) && (Leaving(s) ==> Leaving(t))
    requires t.producer.Drain? ==> t.producer.flight == Flight(s.pipe.retained, Publishing) && s.pipe.retained != []
    ensures Kept(t, wm)
  {
    hide Sourced, Settled;
  }

  lemma LeavingStays(cfg: Config, s: State)
    requires ProducerStep(cfg, s).Some? && Leaving(s)
    ensures Moved(s, ProducerStep(cfg, s).value) && Leaving(ProducerStep(cfg, s).value)
  {
  }

  lemma ProducerStepKeeps(cfg: Config, s: State, wm: map<string, int>)
    requires Channels(s) && RetainOk(s) && Kept(s, wm) && ProducerStep(cfg, s).Some?
    requires !ProducerStep(cfg, s).value.startedHib
    ensures Kept(ProducerStep(cfg, s).value, wm)
  {
    hide Kept, RetainOk, Channels, ProducerStep;
    var t := ProducerStep(cfg, s).value;
    ProducerStepShape(cfg, s);
    if Leaving(s) {
      LeavingStays(cfg, s);
    }
    if t.producer.Drain? {
      DrainFlight(cfg, s);
      MoveKeeps(s, t, wm);
    } else if Moved(s, t) {
      MoveKeeps(s, t, wm);
    } else if Appended(s, t) {
      AppendKeeps(s, t, wm);
    } else {
      StartKeeps(cfg, s, t, wm);
    }
  }

  /** Other flights stay good when a flush of the newest batch makes a step. */
  lemma OthersStayOk(s: State, q: Pipe)
    requires FlusherOk(s) && WakesOk(s) && DrainOk(s) && Grows(s.pipe, q)
    ensures forall id :: id in s.flights ==> FlightOk(s.handed, q, s.flights[id])
    ensures forall id :: id in s.pipe.wakes && s.pipe.wakes[id].Flushing? ==>
              FlightOk(s.handed, q, s.pipe.wakes[id].flight)
    ensures s.producer.Drain? ==> FlightOk(s.handed, q, s.producer.flight)
  {
    hide FlightOk;
    forall f | FlightOk(s.handed, s.pipe, f) ensures FlightOk(s.handed, q, f) {
      FlightOkGrows(s.handed, s.pipe, q, f);
    }
  }

  lemma FlushNextKeeps(cfg: Config, s: State, id: nat, c: Choice, wm: map<string, int>)
    requires cfg.mode == Hibernate && Inv(cfg, s) && RetainOk(s) && Kept(s, wm)
    requires Next(cfg, s, FlushNext(id, c)).Some?
    ensures Kept(Next(cfg, s, FlushNext(id, c)).value, wm)
  {
    hide Sourced, FlightOk, Settled, FlushItemsStep, Retaining, HibernatePc;
    hide Queue, Sizes, OneWake;
    var t := Next(cfg, s, FlushNext(id, c)).value;
    QueuePrefix(s);
    FlushItemsStepKeeps(cfg, s.accepted, s.handed, s.pipe, s.flights[id], c, wm, !s.skipped);
    FlushItemsStepRetains(cfg, s.pipe, s.flights[id], c);
    OthersStayOk(s, t.pipe);
    assert t.flights.Keys == {id};
  }

  lemma QueuePrefix(s: State)
    requires Queue(s)
    ensures Flatten(s.handed) <= s.accepted
  {
  }

  lemma WakeFlightKeeps(cfg: Config, s: State, id: nat, c: Choice, wm: map<string, int>)
    requires cfg.mode == Hibernate && Inv(cfg, s) && RetainOk(s) && Kept(s, wm)
    requires Next(cfg, s, WakeNext(id, c)).Some?
    requires s.pipe.wakes[id].Flushing? && !s.pipe.wakes[id].flight.pc.Returned?
    ensures Kept(Next(cfg, s, WakeNext(id, c)).value, wm)
  {
    hide Sourced, FlightOk, Settled, FlushItemsStep, Retaining, HibernatePc, RetainsNewest, NewestSafe;
    hide Queue, Sizes;
    var t := Next(cfg, s, WakeNext(id, c)).value;
    var (q, g) := FlushItemsStep(cfg, s.pipe, s.pipe.wakes[id].flight, c);
    assert t == s.(pipe := q.(wakes := q.wakes[id := Flushing(g)]));
    hide Next, WakeStep;
    QueuePrefix(s);
    FlushItemsStepKeeps(cfg, s.accepted, s.handed, s.pipe, s.pipe.wakes[id].flight, c, wm, !s.skipped);
    FlushItemsStepRetains(cfg, s.pipe, s.pipe.wakes[id].flight, c);
    FlushItemsStepWakes(cfg, s.pipe, s.pipe.wakes[id].flight, c);
    OthersStayOk(s, q);
    assert t.pipe.wakes.Keys == {id};
    if !s.skipped {
      SourcedGrows(s.accepted, q, s.accepted, t.pipe, wm);
    }
    WakesDoNotMatter(s, q, t.pipe);
  }

  /** Where the wake loops stand does not matter to any flight. */
  lemma WakesDoNotMatter(s: State, p: Pipe, q: Pipe)
    requires Grows(p, q) && q.retained == p.retained
    ensures forall f :: FlightOk(s.handed, p, f) ==> FlightOk(s.handed, q, f)
    ensures RetainsNewest(s.handed, p) ==> RetainsNewest(s.handed, q)
    ensures NewestSafe(s.handed, p) ==> NewestSafe(s.handed, q)
  {
    hide FlightOk;
    forall f | FlightOk(s.handed, p, f) ensures FlightOk(s.handed, q, f) {
      FlightOkGrows(s.handed, p, q, f);
    }
    GrowsResolved(p, q);
  }

  lemma WakeMoveKeeps(cfg: Config, s: State, id: nat, c: Choice, wm: map<string, int>)
    requires RetainOk(s) && Kept(s, wm) && Next(cfg, s, WakeNext(id, c)).Some?
    requires s.pipe.wakes[id].Flushing? ==> s.pipe.wakes[id].flight.pc.Returned?
    ensures Kept(Next(cfg, s, WakeNext(id, c)).value, wm)
  {
    hide Sourced, Settled, FlushItemsStep, HibernatePc;
    var t := Next(cfg, s, WakeNext(id, c)).value;
    SnapFlight(s);
    WakeMoves(cfg, s.pipe, id, c);
    hide FlightOk, RetainsNewest, NewestSafe, WakeStep;
    if !s.skipped {
      SourcedGrows(s.accepted, s.pipe, s.accepted, t.pipe, wm);
    }
    WakesDoNotMatter(s, s.pipe, t.pipe);
  }

  /** A wake loop outside a flush only moves on, or starts on the retained batch. */
  lemma WakeMoves(cfg: Config, p: Pipe, id: nat, c: Choice)
    requires id in p.wakes && (p.wakes[id].Flushing? ==> p.wakes[id].flight.pc.Returned?)
    ensures var q := WakeStep(cfg, p, id, c);
            && q == p.(wakeRunning := q.wakeRunning, wakes := q.wakes)
            && (forall other :: other in q.wakes && other != id ==>
                  other in p.wakes && q.wakes[other] == p.wakes[other])
            && (id in q.wakes && q.wakes[id].Flushing? ==>
                  p.retained != [] && q.wakes[id].flight == Flight(p.retained, Publishing))
  {
    hide FlushItemsStep;
  }

  /** A flush of the retained batch would start well. */
  lemma SnapFlight(s: State)
    requires RetainsNewest(s.handed, s.pipe)
    ensures s.pipe.retained != [] ==> FlightOk(s.handed, s.pipe, Flight(s.pipe.retained, Publishing))
  {
  }

  lemma DrainNextKeeps(cfg: Config, s: State, c: Choice, wm: map<string, int>)
    requires cfg.mode == Hibernate && Inv(cfg, s) && RetainOk(s) && Kept(s, wm)
    requires Next(cfg, s, DrainNext(c)).Some?
    ensures Kept(Next(cfg, s, DrainNext(c)).value, wm)
  {
    hide Sourced, FlightOk, Settled, FlushItemsStep, Retaining, HibernatePc;
    hide Queue, Sizes, OneWake;
    var t := Next(cfg, s, DrainNext(c)).value;
    QueuePrefix(s);
    FlushItemsStepKeeps(cfg, s.accepted, s.handed, s.pipe, s.producer.flight, c, wm, !s.skipped);
    FlushItemsStepRetains(cfg, s.pipe, s.producer.flight, c);
    OthersStayOk(s, t.pipe);
  }

  lemma CompleteKeeps(cfg: Config, s: State, id: nat, wm: map<string, int>)
    requires Channels(s) && Kept(s, wm) && Next(cfg, s, Complete(id)).Some?
    ensures Kept(Next(cfg, s, Complete(id)).value, wm)
  {
    hide Sourced, FlightOk, Settled;
    assert s.flights.Keys == {id};
  }

  lemma CallKeeps(cfg: Config, s: State, step: Step, wm: map<string, int>)
    requires RetainOk(s) && Kept(s, wm) && Next(cfg, s, step).Some?
    requires step.CallEnqueue? || step.CallTrigger? || step.CallShutdown? || step.ProducerCancel? || step.Cancel?
    ensures Kept(Next(cfg, s, step).value, wm)
  {
    hide Kept, RetainOk, Sourced;
    var t := Next(cfg, s, step).value;
    if !step.Cancel? {
      MoveKeeps(s, s.(producer := t.producer), wm);
    }
    FlagsDoNotMatter(s.(producer := t.producer), t, wm);
  }

  lemma FlagsDoNotMatter(s: State, t: State, wm: map<string, int>)
    requires Kept(s, wm) && t == s.(cancelled := t.cancelled, shuttingDown := t.shuttingDown)
    ensures Kept(t, wm)
  {
    hide Sourced, FlightOk, RetainsNewest, NewestSafe;
  }

  lemma WakeCancelKeeps(cfg: Config, s: State, id: nat, wm: map<string, int>)
    requires Kept(s, wm) && Next(cfg, s, WakeCancel(id)).Some?
    ensures Kept(Next(cfg, s, WakeCancel(id)).value, wm)
  {
    hide Sourced, Settled, FlightOk;
    var t := Next(cfg, s, WakeCancel(id)).value;
    if !s.skipped {
      SourcedGrows(s.accepted, s.pipe, s.accepted, t.pipe, wm);
    }
    WakesDoNotMatter(s, s.pipe, t.pipe);
  }

  /** A watermark set by a filtered or skipped line does not matter to any flight. */
  lemma SkipKeeps(cfg: Config, s: State, step: Step, wm: map<string, int>)
    requires Kept(s, wm) && step.SkipLine? && Next(cfg, s, step).Some?
    ensures Kept(Next(cfg, s, step).value, wm)
  {
    var t := Next(cfg, s, step).value;
    WakesDoNotMatter(s, s.pipe, t.pipe);
    hide FlightOk, RetainsNewest, NewestSafe, Sourced;
  }

  lemma {:induction false} KeptAlways(cfg: Config, wm: map<string, int>, trace: seq<Step>)
    requires cfg.mode == Hibernate && Run(cfg, wm, trace).Some?
    requires !Run(cfg, wm, trace).value.startedHib
    ensures Kept(Run(cfg, wm, trace).value, wm)
  {
    hide Kept, Inv, RetainOk, ProducerStep, FlushItemsStep, WakeStep;
    if trace == [] {
      InitKept(wm);
    } else {
      var before, step := trace[..|trace| - 1], trace[|trace| - 1];
      var s := Run(cfg, wm, before).value;
      FlagsStep(cfg, s, step);
      KeptAlways(cfg, wm, before);
      Reachable(cfg, wm, before);
      InvChannels(cfg, s);
      RetainAlways(cfg, wm, before);
      match step
      case ProducerNext => ProducerStepKeeps(cfg, s, wm);
      case FlushNext(id, c) => FlushNextKeeps(cfg, s, id, c, wm);
      case Complete(id) => CompleteKeeps(cfg, s, id, wm);
      case DrainNext(c) => DrainNextKeeps(cfg, s, c, wm);
      case WakeCancel(id) => WakeCancelKeeps(cfg, s, id, wm);
      case SkipLine(_, _) => SkipKeeps(cfg, s, step, wm);
      case WakeNext(id, c) =>
        if s.pipe.wakes[id].Flushing? && !s.pipe.wakes[id].flight.pc.Returned? {
          WakeFlightKeeps(cfg, s, id, c, wm);
        } else {
          WakeMoveKeeps(cfg, s, id, c, wm);
        }
      case _ => CallKeeps(cfg, s, step, wm);
    }
  }

  lemma InitKept(wm: map<string, int>)
    ensures Kept(Init(wm), wm)
  {
  }

  lemma InvChannels(cfg: Config, s: State)
    requires Inv(cfg, s)
    ensures Channels(s)
  {
  }

  /**
   In every run where no flusher-owned flush starts while hibernating, every accepted record is acknowledged, in the
   buffer, in a flush under way, or retained.
   */
  lemma NothingForgotten(cfg: Config, wm: map<string, int>, trace: seq<Step>, x: Pending)
    requires cfg.mode == Hibernate && Run(cfg, wm, trace).Some?
    requires var s := Run(cfg, wm, trace).value; !s.startedHib && x in s.accepted
    ensures var s := Run(cfg, wm, trace).value;
            || x in s.pipe.acked
            || x in s.active.items
            || (exists id :: id in s.flights && Unresolved(s.flights[id].pc) && x in s.flights[id].batch)
            || x in s.pipe.retained
  {
    var s := Run(cfg, wm, trace).value;
    KeptAlways(cfg, wm, trace);
    RetainAlways(cfg, wm, trace);
    Reachable(cfg, wm, trace);
    if x !in s.active.items {
      assert x in Flatten(s.handed);
      if id :| id in s.flights && Unresolved(s.flights[id].pc) {
        assert Flatten(s.handed) == Flatten(s.handed[..|s.handed| - 1]) + s.flights[id].batch;
      } else {
        assert Flatten(s.handed) == Flatten(s.handed[..|s.handed| - 1]) + s.handed[|s.handed| - 1];
      }
    }
  }

  // ---- What is not acknowledged yet -----------------------------------------------------------------------

  /** Acknowledged records were handed over, and not in the batch of a flush that has yet to publish. */
  ghost predicate AckedHanded(s: State) {
    && (forall x :: x in s.pipe.acked ==> x in Flatten(s.handed))
    && (forall id :: id in s.flights && Unresolved(s.flights[id].pc) ==>
          forall x :: x in s.pipe.acked ==> x in Flatten(s.handed[..|s.handed| - 1]))
  }

  lemma ProducerStepAcked(cfg: Config, s: State)
    requires Channels(s) && AckedHanded(s) && ProducerStep(cfg, s).Some?
    ensures AckedHanded(ProducerStep(cfg, s).value)
  {
    hide ProducerStep, Started, Channels, AckedHanded;
    ProducerStepShape(cfg, s);
    var t := ProducerStep(cfg, s).value;
    if Started(s, t) {
      StartAcked(s, t);
    } else {
      SameHandedAcked(s, t);
    }
  }

  lemma StartAcked(s: State, t: State)
    requires Channels(s) && AckedHanded(s) && Started(s, t)
    ensures AckedHanded(t)
  {
    assert t.flights.Keys == {t.flushDone};
    assert t.handed[..|t.handed| - 1] == s.handed;
    NewestInFlatten(t.handed);
    hide Flatten, Channels;
  }

  lemma SameHandedAcked(s: State, t: State)
    requires AckedHanded(s) && t.handed == s.handed && t.flights == s.flights && t.pipe == s.pipe
    ensures AckedHanded(t)
  {
  }

  lemma FlushStepAcks(cfg: Config, p: Pipe, f: Flight, c: Choice)
    requires !f.pc.Returned?
    ensures var (q, g) := FlushItemsStep(cfg, p, f, c);
            && (q.acked == p.acked || (q.acked == p.acked + f.batch && !Unresolved(g.pc)))
            && (Unresolved(g.pc) ==> Unresolved(f.pc))
  {
  }

  lemma NewestInFlatten(handed: seq<seq<Pending>>)
    requires handed != []
    ensures Flatten(handed) == Flatten(handed[..|handed| - 1]) + handed[|handed| - 1]
  {
  }

  lemma FlushNextAcked(cfg: Config, s: State, id: nat, c: Choice)
    requires Channels(s) && AckedHanded(s) && Next(cfg, s, FlushNext(id, c)).Some?
    ensures AckedHanded(Next(cfg, s, FlushNext(id, c)).value)
  {
    FlushStepAcks(cfg, s.pipe, s.flights[id], c);
    hide FlushItemsStep;
    var t := Next(cfg, s, FlushNext(id, c)).value;
    assert t.flights.Keys == {id};
    NewestInFlatten(s.handed);
    hide Flatten;
  }

  /** The wake loop or the drain acknowledges the retained batch, which is the newest, with no flush to publish. */
  lemma OtherFlushAcked(cfg: Config, s: State, t: State, f: Flight, c: Choice)
    requires AckedHanded(s) && FlightOk(s.handed, s.pipe, f) && !f.pc.Returned?
    requires forall id :: id in s.flights ==> !Unresolved(s.flights[id].pc)
    requires t.flights == s.flights && t.handed == s.handed
    requires t.pipe.acked == FlushItemsStep(cfg, s.pipe, f, c).0.acked
    ensures AckedHanded(t)
  {
    FlushStepAcks(cfg, s.pipe, f, c);
    hide FlushItemsStep;
    NewestInFlatten(s.handed);
    hide Flatten;
  }

  lemma WakeNextAcked(cfg: Config, s: State, id: nat, c: Choice)
    requires Channels(s) && AckedHanded(s) && FlusherOk(s) && WakesOk(s) && Next(cfg, s, WakeNext(id, c)).Some?
    ensures AckedHanded(Next(cfg, s, WakeNext(id, c)).value)
  {
    hide FlushItemsStep, Flatten, FlightOk;
    var t := Next(cfg, s, WakeNext(id, c)).value;
    if s.pipe.wakes[id].Flushing? && !s.pipe.wakes[id].flight.pc.Returned? {
      OtherFlushAcked(cfg, s, t, s.pipe.wakes[id].flight, c);
    }
  }

  lemma DrainNextAcked(cfg: Config, s: State, c: Choice)
    requires Inv(cfg, s) && AckedHanded(s) && DrainOk(s) && Next(cfg, s, DrainNext(c)).Some?
    ensures AckedHanded(Next(cfg, s, DrainNext(c)).value)
  {
    hide FlushItemsStep, Flatten, FlightOk, Queue, Sizes, OneWake;
    OtherFlushAcked(cfg, s, Next(cfg, s, DrainNext(c)).value, s.producer.flight, c);
  }

  lemma OtherStepAcked(cfg: Config, s: State, step: Step)
    requires AckedHanded(s) && Next(cfg, s, step).Some?
    requires !step.ProducerNext? && !step.FlushNext? && !step.WakeNext? && !step.DrainNext?
    ensures AckedHanded(Next(cfg, s, step).value)
  {
    hide Flatten;
  }

  lemma {:induction false} AckedAlways(cfg: Config, wm: map<string, int>, trace: seq<Step>)
    requires cfg.mode == Hibernate && Run(cfg, wm, trace).Some?
    requires !Run(cfg, wm, trace).value.startedHib
    ensures AckedHanded(Run(cfg, wm, trace).value)
  {
    hide Inv, ProducerStep, FlushItemsStep, WakeStep, AckedHanded, FlusherOk, WakesOk, DrainOk, NewestOk, RetainsNewest;
    if trace == [] {
      InitAcked(wm);
    } else {
      var before, step := trace[..|trace| - 1], trace[|trace| - 1];
      var s := Run(cfg, wm, before).value;
      FlagsStep(cfg, s, step);
      AckedAlways(cfg, wm, before);
      KeptAlways(cfg, wm, before);
      Reachable(cfg, wm, before);
      InvChannels(cfg, s);
      match step
      case ProducerNext => ProducerStepAcked(cfg, s);
      case FlushNext(id, c) => FlushNextAcked(cfg, s, id, c);
      case WakeNext(id, c) => WakeNextAcked(cfg, s, id, c);
      case DrainNext(c) => DrainNextAcked(cfg, s, c);
      case _ => OtherStepAcked(cfg, s, step);
    }
  }

  lemma InitAcked(wm: map<string, int>)
    ensures AckedHanded(Init(wm))
  {
  }

  /** What these runs keep of the places that hold records. */
  lemma PlacesOf(cfg: Config, wm: map<string, int>, trace: seq<Step>)
    requires cfg.mode == Hibernate && Run(cfg, wm, trace).Some? && !Run(cfg, wm, trace).value.startedHib
    ensures var s := Run(cfg, wm, trace).value;
            && AckedHanded(s) && Channels(s) && Queue(s) && Retaining(s.pipe)
            && (s.pipe.retained != [] ==> s.handed != [] && s.pipe.retained == s.handed[|s.handed| - 1])
  {
    AckedAlways(cfg, wm, trace);
    KeptAlways(cfg, wm, trace);
    RetainAlways(cfg, wm, trace);
    Reachable(cfg, wm, trace);
    hide Run, Channels, Queue;
  }

  /** If, besides, nothing is filtered or skipped, no watermark is at or past an unacknowledged accepted record. */
  lemma WatermarksFollowAcks(cfg: Config, wm: map<string, int>, trace: seq<Step>, j: nat)
    requires cfg.mode == Hibernate && Run(cfg, wm, trace).Some?
    requires var s := Run(cfg, wm, trace).value;
             !s.startedHib && !s.skipped && Increasing(s.accepted, wm) && j < |s.accepted|
    ensures var s := Run(cfg, wm, trace).value; var x := s.accepted[j];
            x.path in s.pipe.watermarks && x.offset <= s.pipe.watermarks[x.path] ==> x in s.pipe.acked
  {
    var s := Run(cfg, wm, trace).value;
    KeptAlways(cfg, wm, trace);
    RetainAlways(cfg, wm, trace);
    if s.accepted[j].path in s.pipe.watermarks && !Resolved(s.pipe, s.accepted[j]) {
      SourcedIsSafe(s.accepted, s.pipe, wm, j);
    }
  }
}
