/**
 How a run ends: what is still retained when Run returns nil was retained again after the flusher had been shut down,
 by the drain or by a wake loop that was still at work.
 */
module Shutdown {
  import opened Common
  import opened FlushProtocol
  import opened HandOff
  import opened HibernateMode
  import opened Forgetting

  /** The step is the failed end of a flush of `b` by the drain or a wake loop, after a clean flusher shutdown. */
  predicate RetainsAt(cfg: Config, wm: map<string, int>, before: seq<Step>, step: Step, b: seq<Pending>) {
    && Run(cfg, wm, before).Some? && ShutDownCleanly(Run(cfg, wm, before).value.producer)
    && (step.DrainNext? || step.WakeNext?)
    && FlightOf(Run(cfg, wm, before).value, step) == Some(Flight(b, Failed))
  }

  ghost predicate RetainedAgain(cfg: Config, wm: map<string, int>, trace: seq<Step>, b: seq<Pending>) {
    exists j :: 0 <= j < |trace| && RetainsAt(cfg, wm, trace[..j], trace[j], b)
  }

  /** The producer has drained, or has found nothing to drain, and returns nil. */
  predicate Drained(producer: Producer) {
    producer == Stopped(Nil) || (producer.Drain? && producer.flight.pc == Returned(Nil))
  }

  ghost predicate EndOk(cfg: Config, wm: map<string, int>, trace: seq<Step>, s: State) {
    Drained(s.producer) && s.pipe.retained != [] ==> RetainedAgain(cfg, wm, trace, s.pipe.retained)
  }

  lemma RetainedAgainStays(cfg: Config, wm: map<string, int>, trace: seq<Step>, step: Step, b: seq<Pending>)
    requires RetainedAgain(cfg, wm, trace, b)
    ensures RetainedAgain(cfg, wm, trace + [step], b)
  {
    var longer := trace + [step];
    var j :| 0 <= j < |trace| && RetainsAt(cfg, wm, trace[..j], trace[j], b);
    assert longer[..j] == trace[..j] && longer[j] == trace[j];
  }

  lemma RetainsNow(cfg: Config, wm: map<string, int>, trace: seq<Step>, step: Step, b: seq<Pending>)
    requires RetainsAt(cfg, wm, trace, step, b)
    ensures RetainedAgain(cfg, wm, trace + [step], b)
  {
    var longer := trace + [step];
    assert longer[..|trace|] == trace && longer[|trace|] == step;
  }

  /** A step of a flush leaves the retained batch, clears it, or fails and retains its own. */
  lemma FlushStepRetained(cfg: Config, p: Pipe, f: Flight, c: Choice)
    requires cfg.mode == Hibernate && HibernatePc(f) && Retaining(p) && !f.pc.Returned?
    ensures var (q, g) := FlushItemsStep(cfg, p, f, c);
            && (q.retained == p.retained || q.retained == [] || (f.pc == Failed && q.retained == f.batch))
            && (g.pc == Returned(Nil) ==> q.retained == [] || (f.pc == Failed && q.retained == f.batch))
  {
  }

  /** After a clean flusher shutdown, only the drain and the wake loops touch the retained batch. */
  lemma StepRetained(cfg: Config, s: State, step: Step)
    requires cfg.mode == Hibernate && RetainOk(s) && Inv(cfg, s) && ShutDownCleanly(s.producer)
    requires Next(cfg, s, step).Some?
    ensures var t := Next(cfg, s, step).value;
            Drained(t.producer) && t.pipe.retained != [] ==>
              || (Drained(s.producer) && t.pipe.retained == s.pipe.retained)
              || ((step.DrainNext? || step.WakeNext?) && FlightOf(s, step) == Some(Flight(t.pipe.retained, Failed)))
  {
    hide Core, FlushItemsStep;
    match step
    case DrainNext(c) => FlushStepRetained(cfg, s.pipe, s.producer.flight, c);
    case WakeNext(id, c) =>
      if s.pipe.wakes[id].Flushing? && !s.pipe.wakes[id].flight.pc.Returned? {
        FlushStepRetained(cfg, s.pipe, s.pipe.wakes[id].flight, c);
      }
    case FlushNext(id, c) => NoneFlying(cfg, s);
    case ProducerNext =>
    case _ =>
  }

  lemma NoneFlying(cfg: Config, s: State)
    requires Inv(cfg, s) && ShutDownCleanly(s.producer)
    ensures s.flights == map[]
  {
  }

  lemma WaitEndsNothing(s: State, cont: Cont)
    ensures !Drained(WaitForFlush(s, cont).producer)
  {
  }

  lemma EnqueueEndsNothing(cfg: Config, s: State, item: Pending)
    ensures !Drained(EnqueueBody(cfg, s, item).producer)
  {
    hide WaitForFlush;
    WaitEndsNothing(s, Retry(item));
    WaitEndsNothing(s, Oversized(item));
  }

  lemma ProducerEnds(cfg: Config, s: State)
    requires ProducerStep(cfg, s).Some? && Drained(ProducerStep(cfg, s).value.producer)
    ensures ShutDownCleanly(s.producer)
  {
    hide WaitForFlush, EnqueueBody;
    match s.producer
    case EnqBody(item) => EnqueueEndsNothing(cfg, s, item);
    case OversizedAppend(item) => WaitEndsNothing(Append(s, item), Finish);
    case TrigBody => WaitEndsNothing(s, Trigger);
    case SyncTop => WaitEndsNothing(s, Sync);
    case Waiting(done, cont) => WaitEndsNothing(s, cont);
    case _ =>
  }

  /** The producer comes to its end only through the stages of a clean shutdown. */
  lemma OnlyFromShutdown(cfg: Config, s: State, step: Step)
    requires Next(cfg, s, step).Some? && Drained(Next(cfg, s, step).value.producer)
    ensures ShutDownCleanly(s.producer)
  {
    hide FlushItemsStep, WakeStep, ProducerStep;
    if step.ProducerNext? {
      ProducerEnds(cfg, s);
    }
  }

  lemma {:induction false} EndAlways(cfg: Config, wm: map<string, int>, trace: seq<Step>)
    requires cfg.mode == Hibernate && Run(cfg, wm, trace).Some?
    ensures EndOk(cfg, wm, trace, Run(cfg, wm, trace).value)
  {
    if trace != [] {
      var before, step := trace[..|trace| - 1], trace[|trace| - 1];
      assert before + [step] == trace;
      var s, t := Run(cfg, wm, before).value, Run(cfg, wm, trace).value;
      EndAlways(cfg, wm, before);
      Reachable(cfg, wm, before);
      RetainAlways(cfg, wm, before);
      hide Next, Inv, RetainOk, RetainedAgain;
      if Drained(t.producer) && t.pipe.retained != [] {
        OnlyFromShutdown(cfg, s, step);
        StepRetained(cfg, s, step);
        if Drained(s.producer) && t.pipe.retained == s.pipe.retained {
          RetainedAgainStays(cfg, wm, before, step, t.pipe.retained);
        } else {
          RetainsNow(cfg, wm, before, step, t.pipe.retained);
        }
      }
    }
  }

  /**
   If Run has returned nil and a batch is still retained, then after the flusher was shut down the drain or a wake loop
   flushed exactly that batch, its publish failed and it was retained again: shutdown never leaves it untried.
   */
  lemma NilStopTriedTheBatch(cfg: Config, wm: map<string, int>, trace: seq<Step>)
    requires cfg.mode == Hibernate && Run(cfg, wm, trace).Some?
    requires Run(cfg, wm, trace).value.producer == Stopped(Nil)
    requires Run(cfg, wm, trace).value.pipe.hibernating
    ensures var b := Run(cfg, wm, trace).value.pipe.retained; b != [] && RetainedAgain(cfg, wm, trace, b)
  {
    EndAlways(cfg, wm, trace);
    HibernatingIffRetained(cfg, wm, trace);
  }
}
