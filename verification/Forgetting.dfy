/**
 Hibernate mode: exactly when a step loses an accepted record, and that a lost record stays lost.  A record is lost
 when it is not acknowledged and no place holds it from which it could still be published: the buffer, the retained
 batch, or a flush yet to publish, be it the flusher's, the wake loop's or the shutdown drain's.
 */
module Forgetting {
  import opened Common
  import opened FlushProtocol
  import opened HandOff
  import opened Safety
  import H = HibernateMode

  /** The flush has yet to publish the record. */
  predicate Carries(f: Flight, x: Pending) {
    Unresolved(f.pc) && x in f.batch
  }

  predicate FlusherCarries(s: State, x: Pending) {
    exists id :: id in s.flights && Carries(s.flights[id], x)
  }

  predicate WakeCarries(p: Pipe, x: Pending) {
    exists id :: id in p.wakes && p.wakes[id].Flushing? && Carries(p.wakes[id].flight, x)
  }

  predicate DrainCarries(s: State, x: Pending) {
    s.producer.Drain? && Carries(s.producer.flight, x)
  }

  predicate InFlush(s: State, x: Pending) {
    FlusherCarries(s, x) || WakeCarries(s.pipe, x) || DrainCarries(s, x)
  }

  /** Acknowledged, or held somewhere from where it can still be published. */
  predicate Held(s: State, x: Pending) {
    x in s.pipe.acked || x in s.active.items || x in s.pipe.retained || InFlush(s, x)
  }

  predicate Forgotten(s: State, x: Pending) {
    x in s.accepted && !Held(s, x)
  }

  /** The retained batch is the only place that holds the record. */
  predicate OnlyRetained(s: State, x: Pending) {
    x in s.pipe.retained && x !in s.pipe.acked && x !in s.active.items && !InFlush(s, x)
  }

  /** The flush that a step moves, whoever runs it. */
  function FlightOf(s: State, step: Step): Option<Flight> {
    match step
    case FlushNext(id, _) => if id in s.flights then Some(s.flights[id]) else None
    case WakeNext(id, _) =>
      if id in s.pipe.wakes && s.pipe.wakes[id].Flushing? then Some(s.pipe.wakes[id].flight) else None
    case DrainNext(_) => if s.producer.Drain? then Some(s.producer.flight) else None
    case _ => None
  }

  /** The flush is about to retain another batch, or to end hibernation. */
  predicate Drops(f: Flight, x: Pending) {
    (f.pc == Failed && x !in f.batch) || f.pc == Exiting
  }

  predicate Clobbers(s: State, step: Step, x: Pending) {
    FlightOf(s, step).Some? && Drops(FlightOf(s, step).value, x)
  }

  // ---- What one step does to the places -------------------------------------------------------------------

  lemma FlushStepPlaces(cfg: Config, p: Pipe, f: Flight, c: Choice, x: Pending)
    requires cfg.mode == Hibernate && H.Retaining(p) && H.HibernatePc(f) && !f.pc.Returned?
    ensures var (q, g) := FlushItemsStep(cfg, p, f, c);
            && g.batch == f.batch && (Unresolved(g.pc) <==> f.pc == Publishing && c == Fail)
            && (x in q.acked <==> x in p.acked || (f.pc == Publishing && c == Ok && x in f.batch))
            && (x in q.retained <==>
                  if f.pc == Failed then x in f.batch else f.pc != Exiting && x in p.retained)
  {
  }

  /** A step of any flush: `others` tells whether a flush besides this one carries the record. */
  lemma FlightOutcome(cfg: Config, s: State, t: State, f: Flight, c: Choice, others: bool, x: Pending)
    requires cfg.mode == Hibernate && H.Retaining(s.pipe) && H.HibernatePc(f) && !f.pc.Returned?
    requires var (q, g) := FlushItemsStep(cfg, s.pipe, f, c);
             && t.pipe.acked == q.acked && t.pipe.retained == q.retained && t.active == s.active
             && (InFlush(s, x) <==> others || Carries(f, x)) && (InFlush(t, x) <==> others || Carries(g, x))
    ensures Held(t, x) <==> Held(s, x) && !(OnlyRetained(s, x) && Drops(f, x))
  {
    hide InFlush;
    FlushStepPlaces(cfg, s.pipe, f, c, x);
    hide FlushItemsStep;
  }

  /** A step of a flush outside the wake loop may start a wake loop, which carries nothing yet. */
  lemma SameWakeCarries(p: Pipe, q: Pipe, x: Pending)
    requires OneWake(p) && H.SameWakes(p, q)
    ensures WakeCarries(q, x) <==> WakeCarries(p, x)
  {
    if WakeCarries(p, x) {
      var id :| id in p.wakes && p.wakes[id].Flushing? && Carries(p.wakes[id].flight, x);
      assert q.wakes[id] == p.wakes[id];
    }
  }

  lemma FlushNextPlaces(cfg: Config, s: State, id: nat, c: Choice, x: Pending)
    requires cfg.mode == Hibernate && Channels(s) && OneWake(s.pipe) && H.RetainOk(s)
    requires Next(cfg, s, FlushNext(id, c)).Some?
    ensures Held(Next(cfg, s, FlushNext(id, c)).value, x)
            <==> Held(s, x) && !(OnlyRetained(s, x) && Clobbers(s, FlushNext(id, c), x))
  {
    hide FlushItemsStep, Carries, Held, OnlyRetained;
    var f := s.flights[id];
    var t := Next(cfg, s, FlushNext(id, c)).value;
    H.FlushItemsStepRetains(cfg, s.pipe, f, c);
    SameWakeCarries(s.pipe, t.pipe, x);
    assert s.flights.Keys == t.flights.Keys == {id};
    hide Channels, OneWake, H.RetainOk, WakeCarries;
    FlightOutcome(cfg, s, t, f, c, WakeCarries(s.pipe, x) || DrainCarries(s, x), x);
  }

  lemma DrainNextPlaces(cfg: Config, s: State, c: Choice, x: Pending)
    requires cfg.mode == Hibernate && OneWake(s.pipe) && H.RetainOk(s) && Next(cfg, s, DrainNext(c)).Some?
    ensures Held(Next(cfg, s, DrainNext(c)).value, x)
            <==> Held(s, x) && !(OnlyRetained(s, x) && Clobbers(s, DrainNext(c), x))
  {
    hide FlushItemsStep, Carries, Held, OnlyRetained;
    var f := s.producer.flight;
    var t := Next(cfg, s, DrainNext(c)).value;
    H.FlushItemsStepRetains(cfg, s.pipe, f, c);
    SameWakeCarries(s.pipe, t.pipe, x);
    hide OneWake, H.RetainOk, WakeCarries;
    FlightOutcome(cfg, s, t, f, c, FlusherCarries(s, x) || WakeCarries(s.pipe, x), x);
  }

  lemma WakeFlightPlaces(cfg: Config, s: State, id: nat, c: Choice, x: Pending)
    requires cfg.mode == Hibernate && OneWake(s.pipe) && H.RetainOk(s) && Next(cfg, s, WakeNext(id, c)).Some?
    requires s.pipe.wakes[id].Flushing? && !s.pipe.wakes[id].flight.pc.Returned?
    ensures Held(Next(cfg, s, WakeNext(id, c)).value, x)
            <==> Held(s, x) && !(OnlyRetained(s, x) && Clobbers(s, WakeNext(id, c), x))
  {
    hide FlushItemsStep, Carries, Held, OnlyRetained;
    var f := s.pipe.wakes[id].flight;
    var t := Next(cfg, s, WakeNext(id, c)).value;
    FlushItemsStepWakes(cfg, s.pipe, f, c);
    assert t.pipe.wakes.Keys == s.pipe.wakes.Keys == {id};
    hide OneWake, H.RetainOk;
    FlightOutcome(cfg, s, t, f, c, FlusherCarries(s, x) || DrainCarries(s, x), x);
  }

  /** A step of a wake loop outside a flush; one that takes the retained batch adds a place that holds it. */
  lemma WakeMovePlaces(cfg: Config, s: State, id: nat, c: Choice, x: Pending)
    requires OneWake(s.pipe) && Next(cfg, s, WakeNext(id, c)).Some?
    requires s.pipe.wakes[id].Flushing? ==> s.pipe.wakes[id].flight.pc.Returned?
    ensures Held(Next(cfg, s, WakeNext(id, c)).value, x) <==> Held(s, x)
    ensures !Clobbers(s, WakeNext(id, c), x)
  {
    H.WakeMoves(cfg, s.pipe, id, c);
    hide WakeStep, FlushItemsStep;
    assert forall other :: other in s.pipe.wakes ==> other == id;
  }

  lemma StartPlaces(s: State, t: State, x: Pending)
    requires Channels(s) && Started(s, t) && !s.producer.Drain? && !t.producer.Drain?
    ensures Held(t, x) <==> Held(s, x)
  {
    assert s.flights == map[];
    assert t.flights[|s.closes|] == Flight(s.active.items, Publishing);
    hide Channels;
  }

  /** The drain has published before it ends, and a new one takes the retained batch. */
  lemma DrainTakes(cfg: Config, s: State, x: Pending)
    requires ProducerStep(cfg, s).Some?
    ensures !DrainCarries(s, x)
    ensures DrainCarries(ProducerStep(cfg, s).value, x) ==> x in s.pipe.retained
  {
    DrainEnds(cfg, s);
    if ProducerStep(cfg, s).value.producer.Drain? {
      H.DrainFlight(cfg, s);
    }
    hide ProducerStep;
  }

  /** The producer drops nothing; it appends at most one record, hands over the buffer or takes the retained batch. */
  lemma ProducerPlaces(cfg: Config, s: State, x: Pending)
    requires Channels(s) && ProducerStep(cfg, s).Some?
    ensures var t := ProducerStep(cfg, s).value;
            Held(t, x) <==> Held(s, x) || (Appended(s, t) && x == t.accepted[|s.accepted|])
  {
    ProducerStepShape(cfg, s);
    DrainEnds(cfg, s);
    DrainTakes(cfg, s, x);
    var t := ProducerStep(cfg, s).value;
    hide ProducerStep, Channels, Started, WakeCarries, FlusherCarries, DrainCarries;
    if Started(s, t) && !Moved(s, t) && !Appended(s, t) {
      StartPlaces(s, t, x);
    } else {
      assert WakeCarries(t.pipe, x) == WakeCarries(s.pipe, x);
      SameFlights(s, t, x);
    }
  }

  lemma SameFlights(s: State, t: State, x: Pending)
    requires t.flights == s.flights
    ensures FlusherCarries(t, x) <==> FlusherCarries(s, x)
  {
  }

  /** The drain ends with its flush. */
  lemma DrainEnds(cfg: Config, s: State)
    requires ProducerStep(cfg, s).Some?
    ensures var t := ProducerStep(cfg, s).value;
            s.producer.Drain? ==> s.producer.flight.pc.Returned? && Moved(s, t) && !t.producer.Drain?
  {
    hide WaitForFlush, EnqueueBody;
  }

  /** The calls and the cancellations touch the producer and its flags only. */
  lemma CallPlaces(cfg: Config, s: State, step: Step, x: Pending)
    requires Next(cfg, s, step).Some?
    requires step.CallEnqueue? || step.CallTrigger? || step.CallShutdown? || step.ProducerCancel? || step.Cancel?
    ensures Held(Next(cfg, s, step).value, x) <==> Held(s, x)
  {
    CancelMoves(s);
    hide CancelStep, Carries;
  }

  lemma CancelMoves(s: State)
    ensures CancelStep(s).Some? ==>
              Moved(s, CancelStep(s).value) && !s.producer.Drain? && !CancelStep(s).value.producer.Drain?
  {
  }

  lemma PipePlaces(cfg: Config, s: State, step: Step, x: Pending)
    requires Next(cfg, s, step).Some? && (step.SkipLine? || step.WakeCancel?)
    ensures Held(Next(cfg, s, step).value, x) <==> Held(s, x)
  {
    hide Carries;
    var t := Next(cfg, s, step).value;
    assert forall id :: id in s.pipe.wakes && s.pipe.wakes[id].Flushing? ==> t.pipe.wakes[id] == s.pipe.wakes[id];
    assert forall id :: id in t.pipe.wakes && t.pipe.wakes[id].Flushing? ==> t.pipe.wakes[id] == s.pipe.wakes[id];
  }

  lemma CompletePlaces(cfg: Config, s: State, id: nat, x: Pending)
    requires Next(cfg, s, Complete(id)).Some?
    ensures Held(Next(cfg, s, Complete(id)).value, x) <==> Held(s, x)
  {
    var t := Next(cfg, s, Complete(id)).value;
    assert t.flights == s.flights - {id};
    hide CompleteFlush, Next;
    if FlusherCarries(s, x) {
      var other :| other in s.flights && Carries(s.flights[other], x);
      assert t.flights[other] == s.flights[other];
    }
  }

  /** The step appends this record to the buffer. */
  predicate Appends(cfg: Config, s: State, step: Step, x: Pending) {
    && step.ProducerNext? && ProducerStep(cfg, s).Some?
    && var t := ProducerStep(cfg, s).value;
       Appended(s, t) && x == t.accepted[|s.accepted|]
  }

  /** Exactly when a record is held after a step. */
  lemma NextPlaces(cfg: Config, s: State, step: Step, x: Pending)
    requires cfg.mode == Hibernate && Channels(s) && OneWake(s.pipe) && H.RetainOk(s) && Next(cfg, s, step).Some?
    ensures Held(Next(cfg, s, step).value, x)
            <==> Appends(cfg, s, step, x) || (Held(s, x) && !(OnlyRetained(s, x) && Clobbers(s, step, x)))
  {
    hide FlushItemsStep, ProducerStep, WakeStep, CompleteFlush, Channels, OneWake, H.RetainOk;
    hide Held, OnlyRetained, Drops, Appended;
    match step
    case ProducerNext => ProducerPlaces(cfg, s, x);
    case FlushNext(id, c) => FlushNextPlaces(cfg, s, id, c, x);
    case WakeNext(id, c) =>
      if s.pipe.wakes[id].Flushing? && !s.pipe.wakes[id].flight.pc.Returned? {
        WakeFlightPlaces(cfg, s, id, c, x);
      } else {
        WakeMovePlaces(cfg, s, id, c, x);
      }
    case DrainNext(c) => DrainNextPlaces(cfg, s, c, x);
    case Complete(id) => CompletePlaces(cfg, s, id, x);
    case SkipLine(_, _) => PipePlaces(cfg, s, step, x);
    case WakeCancel(_) => PipePlaces(cfg, s, step, x);
    case _ => CallPlaces(cfg, s, step, x);
  }

  // ---- The theorems ---------------------------------------------------------------------------------------

  lemma AcceptedStays(cfg: Config, s: State, step: Step)
    requires Next(cfg, s, step).Some?
    ensures s.accepted <= Next(cfg, s, step).value.accepted
  {
    hide ProducerStep, FlushItemsStep, WakeStep;
    if step.ProducerNext? {
      ProducerStepShape(cfg, s);
    }
  }

  /**
   Exactly when a step of a hibernate-mode run loses an accepted record: when the retained batch is the only place
   that holds it and a flush, of whatever goroutine, retains another batch or ends hibernation.
   */
  lemma ForgetsExactly(cfg: Config, wm: map<string, int>, trace: seq<Step>, step: Step, x: Pending)
    requires cfg.mode == Hibernate && Run(cfg, wm, trace).Some? && Next(cfg, Run(cfg, wm, trace).value, step).Some?
    requires var s := Run(cfg, wm, trace).value; x in s.accepted && Held(s, x)
    ensures var s := Run(cfg, wm, trace).value;
            Forgotten(Next(cfg, s, step).value, x) <==>
            OnlyRetained(s, x) && Clobbers(s, step, x)
  {
    hide Run, Next, Held, Clobbers, H.RetainOk, Channels, OneWake;
    var s := Run(cfg, wm, trace).value;
    Reachable(cfg, wm, trace);
    H.RetainAlways(cfg, wm, trace);
    NextPlaces(cfg, s, step, x);
    AcceptedStays(cfg, s, step);
    hide OnlyRetained, Appends;
    OnlyAppendAppends(cfg, s, step, x);
  }

  /** A step that appends a record moves no flush. */
  lemma OnlyAppendAppends(cfg: Config, s: State, step: Step, x: Pending)
    ensures Appends(cfg, s, step, x) ==> !Clobbers(s, step, x)
  {
  }

  lemma NextHand(cfg: Config, s: State, step: Step)
    requires Next(cfg, s, step).Some?
    ensures var t := Next(cfg, s, step).value;
            Hand(t.producer).Some? ==>
              Hand(t.producer) == Hand(s.producer) || step == CallEnqueue(Hand(t.producer).value)
  {
    hide ProducerStep, FlushItemsStep, WakeStep;
    if step.ProducerNext? {
      HandStays(cfg, s);
    }
  }

  /** A lost record stays lost: no step acknowledges it or holds it again, unless an equal record is enqueued. */
  lemma {:induction false} ForgottenForGood(cfg: Config, wm: map<string, int>, trace: seq<Step>, rest: seq<Step>,
                                            x: Pending)
    requires cfg.mode == Hibernate && Run(cfg, wm, trace).Some? && Run(cfg, wm, trace + rest).Some?
    requires var s := Run(cfg, wm, trace).value; Forgotten(s, x) && Hand(s.producer) != Some(x)
    requires CallEnqueue(x) !in rest
    ensures var t := Run(cfg, wm, trace + rest).value; Forgotten(t, x) && Hand(t.producer) != Some(x)
  {
    if rest == [] {
      assert trace + rest == trace;
    } else {
      var before, step := rest[..|rest| - 1], rest[|rest| - 1];
      assert (trace + rest)[..|trace + rest| - 1] == trace + before;
      assert step in rest;
      ForgottenForGood(cfg, wm, trace, before, x);
      hide Run, Forgotten;
      ForgottenStays(cfg, wm, trace + before, step, x);
    }
  }

  lemma ForgottenStays(cfg: Config, wm: map<string, int>, trace: seq<Step>, step: Step, x: Pending)
    requires cfg.mode == Hibernate && Run(cfg, wm, trace).Some? && Next(cfg, Run(cfg, wm, trace).value, step).Some?
    requires var s := Run(cfg, wm, trace).value; Forgotten(s, x) && Hand(s.producer) != Some(x)
    requires step != CallEnqueue(x)
    ensures var t := Next(cfg, Run(cfg, wm, trace).value, step).value; Forgotten(t, x) && Hand(t.producer) != Some(x)
  {
    hide Run, Next, Held, Clobbers, OnlyRetained, H.RetainOk, Channels, OneWake, ProducerStep;
    var s := Run(cfg, wm, trace).value;
    Reachable(cfg, wm, trace);
    H.RetainAlways(cfg, wm, trace);
    NextPlaces(cfg, s, step, x);
    AcceptedStays(cfg, s, step);
    NextHand(cfg, s, step);
    if Appends(cfg, s, step, x) {
      HandStays(cfg, s);
    }
  }

  // ---- A flush that starts while hibernating --------------------------------------------------------------

  /** A stretch of an interleaving in which only this flush moves. */
  predicate Alone(trace: seq<Step>, id: nat) {
    forall k :: 0 <= k < |trace| ==> trace[k].FlushNext? && trace[k].id == id
  }

  /** How far a flush of `batch` that started over the retained batch of `p` has come. */
  predicate OverriddenPipe(p: Pipe, batch: seq<Pending>, q: Pipe, f: Flight) {
    && f.batch == batch && q.wakes == p.wakes
    && (q.acked == p.acked || q.acked == p.acked + batch)
    && (!f.pc.Returned? ==> q.hibernating && q.retained == p.retained)
    && (f.pc == Returned(Nil) ==> q.retained == [] || q.retained == batch)
    && (Unresolved(f.pc) ==> q.acked == p.acked)
    && !f.pc.Counting? && !f.pc.Limit? && (f.pc.Advancing? ==> !f.pc.dead)
  }

  lemma OverriddenStep(cfg: Config, p: Pipe, batch: seq<Pending>, q: Pipe, f: Flight, c: Choice)
    requires cfg.mode == Hibernate && OverriddenPipe(p, batch, q, f) && !f.pc.Returned? && batch != []
    ensures var (q', g) := FlushItemsStep(cfg, q, f, c); OverriddenPipe(p, batch, q', g)
  {
  }

  /** The same for the whole state, when the flush ran alone from `s` to `t`. */
  predicate Overriding(s: State, t: State, id: nat) {
    && t == s.(pipe := t.pipe, flights := t.flights) && id in s.flights && t.flights.Keys == s.flights.Keys
    && OverriddenPipe(s.pipe, s.flights[id].batch, t.pipe, t.flights[id])
    && (forall other :: other in s.flights && other != id ==> t.flights[other] == s.flights[other])
  }

  lemma OverridingStep(cfg: Config, s: State, t: State, id: nat, c: Choice)
    requires cfg.mode == Hibernate && Overriding(s, t, id) && Next(cfg, t, FlushNext(id, c)).Some?
    requires s.flights[id].batch != []
    ensures Overriding(s, Next(cfg, t, FlushNext(id, c)).value, id)
  {
    var u := Next(cfg, t, FlushNext(id, c)).value;
    OverriddenStep(cfg, s.pipe, s.flights[id].batch, t.pipe, t.flights[id], c);
    assert u.flights.Keys == t.flights.Keys;
    hide OverriddenPipe, FlushItemsStep;
  }

  lemma {:induction false} OverridingAlone(cfg: Config, s: State, id: nat, trace: seq<Step>)
    requires cfg.mode == Hibernate && s.pipe.hibernating
    requires id in s.flights && s.flights[id].pc == Publishing && s.flights[id].batch != []
    requires Alone(trace, id) && Exec(cfg, s, trace).Some?
    ensures Overriding(s, Exec(cfg, s, trace).value, id)
  {
    if trace != [] {
      var before := trace[..|trace| - 1];
      OverridingAlone(cfg, s, id, before);
      hide Overriding;
      OverridingStep(cfg, s, Exec(cfg, s, before).value, id, trace[|trace| - 1].choice);
    }
  }

  /**
   A flush that starts over a retained batch and runs alone until it returns nil loses every record that only the
   retained batch held and that is not in its own, whether its publish succeeds or fails.
   */
  lemma FlushOverRetainedForgets(cfg: Config, s: State, id: nat, trace: seq<Step>, x: Pending)
    requires cfg.mode == Hibernate && s.pipe.hibernating
    requires id in s.flights && s.flights[id].pc == Publishing && s.flights[id].batch != []
    requires x in s.accepted && OnlyRetained(s, x)
    requires Alone(trace, id) && Exec(cfg, s, trace).Some?
    requires Exec(cfg, s, trace).value.flights[id].pc == Returned(Nil)
    ensures Forgotten(Exec(cfg, s, trace).value, x)
  {
    OverridingAlone(cfg, s, id, trace);
    hide Exec;
    var t := Exec(cfg, s, trace).value;
    assert !Carries(s.flights[id], x);
    assert forall other :: other in t.flights ==> other in s.flights && !Carries(t.flights[other], x);
  }
}
