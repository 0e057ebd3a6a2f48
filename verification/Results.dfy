/**
 What a flush returns is what its waiters, the next shutdown round and the end of the run see.  The return value of a
 flush is read off the interleaving: the step with which it ended, and how that call into the environment went.
 */
module Results {
  import opened Common
  import opened FlushProtocol
  import opened HandOff

  /** The error with which flushItems returns at this step, if it does. */
  function Returns(cfg: Config, f: Flight, c: Choice): Option<Err> {
    match f.pc
    case Failed =>
      if cfg.mode == Hibernate then Some(Nil) else if c == Fail then Some(DeadLetterErr) else None
    case Advancing(i, _) => if i < |f.batch| && c == Fail then Some(WatermarkErr) else None
    case Limit(_) => Some(Nil)
    case Exiting => Some(Nil)
    case _ => None
  }

  /** The error that the flush with this channel returned in the interleaving, if it has returned. */
  function ReturnOf(cfg: Config, wm: map<string, int>, trace: seq<Step>, id: nat): Option<Err>
    requires Run(cfg, wm, trace).Some?
  {
    if trace == [] then None
    else
      var before, step := trace[..|trace| - 1], trace[|trace| - 1];
      var s := Run(cfg, wm, before).value;
      if step.FlushNext? && step.id == id && id in s.flights && Returns(cfg, s.flights[id], step.choice).Some? then
        Returns(cfg, s.flights[id], step.choice)
      else ReturnOf(cfg, wm, before, id)
  }

  lemma ReturnStep(cfg: Config, p: Pipe, f: Flight, c: Choice)
    requires !f.pc.Returned?
    ensures var g := FlushItemsStep(cfg, p, f, c).1;
            if Returns(cfg, f, c).Some? then g.pc == Returned(Returns(cfg, f, c).value) else !g.pc.Returned?
  {
  }

  /** Where flush `id` stands: not started, running, returned, completed. */
  predicate Reported(s: State, id: nat, returned: Option<Err>) {
    if id in s.flights then
      if s.flights[id].pc.Returned? then returned == Some(s.flights[id].pc.err) else returned == None
    else if id < |s.results| then returned.Some? && s.results[id] == returned
    else returned == None
  }

  lemma StartKeepsReports(s: State, t: State, id: nat, returned: Option<Err>)
    requires Channels(s) && Reported(s, id, returned) && Started(s, t)
    ensures Reported(t, id, returned)
  {
  }

  lemma ProducerKeepsReports(cfg: Config, s: State, id: nat, returned: Option<Err>)
    requires Inv(cfg, s) && Reported(s, id, returned) && ProducerStep(cfg, s).Some?
    ensures Reported(ProducerStep(cfg, s).value, id, returned)
  {
    ProducerStepShape(cfg, s);
    hide ProducerStep, Queue, Sizes, ProducerOk, Channels, Started;
    if Started(s, ProducerStep(cfg, s).value) {
      StartKeepsReports(s, ProducerStep(cfg, s).value, id, returned);
    }
  }

  lemma OtherKeepsReports(cfg: Config, s: State, step: Step, id: nat, returned: Option<Err>)
    requires Reported(s, id, returned) && Next(cfg, s, step).Some?
    requires !step.ProducerNext? && !step.FlushNext? && !step.Complete?
    ensures Reported(Next(cfg, s, step).value, id, returned)
  {
    OtherKeepsFlights(cfg, s, step);
    hide Next;
  }

  lemma CancelOnlyMoves(s: State)
    requires CancelStep(s).Some?
    ensures Moved(s, CancelStep(s).value)
  {
  }

  lemma OtherKeepsFlights(cfg: Config, s: State, step: Step)
    requires Next(cfg, s, step).Some? && !step.ProducerNext? && !step.FlushNext? && !step.Complete?
    ensures var t := Next(cfg, s, step).value; t.flights == s.flights && t.results == s.results
  {
    hide FlushItemsStep, WakeStep, ProducerStep, CompleteFlush, CancelStep;
    if step.ProducerCancel? {
      CancelOnlyMoves(s);
    }
  }

  lemma CompleteKeepsReports(cfg: Config, s: State, done: nat, id: nat, returned: Option<Err>)
    requires Reported(s, id, returned) && Next(cfg, s, Complete(done)).Some?
    ensures Reported(Next(cfg, s, Complete(done)).value, id, returned)
  {
  }

  lemma FlushReports(cfg: Config, s: State, flush: nat, c: Choice, id: nat, returned: Option<Err>)
    requires Reported(s, id, returned) && Next(cfg, s, FlushNext(flush, c)).Some?
    ensures Reported(Next(cfg, s, FlushNext(flush, c)).value, id,
              if flush == id && Returns(cfg, s.flights[id], c).Some? then Returns(cfg, s.flights[id], c) else returned)
  {
    ReturnStep(cfg, s.pipe, s.flights[flush], c);
    hide FlushItemsStep, Returns;
  }

  lemma {:induction false} ReportedAlways(cfg: Config, wm: map<string, int>, trace: seq<Step>, id: nat)
    requires Run(cfg, wm, trace).Some?
    ensures Reported(Run(cfg, wm, trace).value, id, ReturnOf(cfg, wm, trace, id))
  {
    if trace != [] {
      var before, step := trace[..|trace| - 1], trace[|trace| - 1];
      ReportedAlways(cfg, wm, before, id);
      Reachable(cfg, wm, before);
      var s, returned := Run(cfg, wm, before).value, ReturnOf(cfg, wm, before, id);
      hide Reported, Returns, Inv, ProducerStep, FlushItemsStep, WakeStep;
      match step
      case ProducerNext => ProducerKeepsReports(cfg, s, id, returned);
      case FlushNext(flush, c) => FlushReports(cfg, s, flush, c, id, returned);
      case Complete(done) => CompleteKeepsReports(cfg, s, done, id, returned);
      case _ => OtherKeepsReports(cfg, s, step, id, returned);
    }
  }

  // ---- The theorems ---------------------------------------------------------------------------------------

  /**
   Completing a flush reports what it returned, whatever that is: its channel is closed once with that result, and
   flushErr is that error.
   */
  lemma CompleteReports(cfg: Config, wm: map<string, int>, trace: seq<Step>, id: nat)
    requires Run(cfg, wm, trace).Some? && Next(cfg, Run(cfg, wm, trace).value, Complete(id)).Some?
    ensures var t := Next(cfg, Run(cfg, wm, trace).value, Complete(id)).value; var e := ReturnOf(cfg, wm, trace, id);
            && e.Some? && id == |t.results| - 1 && t.results[id] == e && t.flushErr == e.value
            && !t.flushRunning && t.closes[id] == 1
  {
    ReportedAlways(cfg, wm, trace, id);
    Reachable(cfg, wm, trace);
    hide Run, ReturnOf, Queue, Sizes, ProducerOk;
  }

  /** In every reachable state the results of the ended flushes are what they returned, and flushErr is the newest's. */
  lemma ResultsAreReturns(cfg: Config, wm: map<string, int>, trace: seq<Step>)
    requires Run(cfg, wm, trace).Some?
    ensures var s := Run(cfg, wm, trace).value;
            && (forall id :: 0 <= id < |s.results| && s.results[id].Some? ==>
                  s.results[id] == ReturnOf(cfg, wm, trace, id))
            && (s.handed != [] && !s.flushRunning ==>
                  ReturnOf(cfg, wm, trace, |s.handed| - 1) == Some(s.flushErr))
  {
    Reachable(cfg, wm, trace);
    var s := Run(cfg, wm, trace).value;
    forall id | 0 <= id < |s.results| ensures Reported(s, id, ReturnOf(cfg, wm, trace, id)) {
      ReportedAlways(cfg, wm, trace, id);
    }
    hide Run, ReturnOf, Queue, Sizes, ProducerOk;
  }

  /** Where the producer goes on when waitForFlushLocked returns nil. */
  function GoesOn(cont: Cont, started: bool, next: nat): Producer {
    match cont
    case Retry(item) => EnqTop(item)
    case Oversized(item) => OversizedAppend(item)
    case Trigger => Idle(Nil)
    case Finish => Idle(Nil)
    case Sync => if started then SyncFlush(next) else Shut(Nil)
  }

  /** The waiter goes on with nil: it hands a non-empty buffer over, except at the end of an oversized enqueue. */
  predicate Resumes(s: State, t: State, cont: Cont) {
    var started := s.active.items != [] && !cont.Finish?;
    && t.producer == GoesOn(cont, started, |s.handed|) && t.accepted == s.accepted && t.pipe == s.pipe
    && (if started then
          && t.handed == s.handed + [s.active.items] && t.active == Buffer([], 0) && t.flushRunning
          && t.flights == s.flights[|s.handed| := Flight(s.active.items, Publishing)]
        else
          t.handed == s.handed && t.active == s.active && t.flights == s.flights && !t.flushRunning)
  }

  lemma WaitResumes(s: State, cont: Cont)
    requires !s.flushRunning && s.flushErr == Nil && |s.closes| == |s.handed|
    ensures Resumes(s, WaitForFlush(s, cont), cont)
  {
  }

  /** What an invariant-keeping waiter does once its channel is closed. */
  lemma WokenStep(cfg: Config, s: State)
    requires Inv(cfg, s) && s.producer.Waiting? && s.producer.done !in s.flights
    ensures var t := Next(cfg, s, ProducerNext); var cont := s.producer.cont; var e := s.flushErr;
            && s.handed != [] && !s.flushRunning && |s.results| == |s.handed| && t.Some?
            && if e != Nil then t.value == s.(producer := if cont.Sync? then Shut(e) else Idle(e))
               else Resumes(s, t.value, cont)
  {
    hide Queue, Sizes, Resumes, WaitForFlush;
    if s.flushErr == Nil {
      WaitResumes(s, s.producer.cont);
    }
  }

  lemma RunningStep(cfg: Config, s: State)
    requires Inv(cfg, s) && (s.producer.Waiting? || s.producer.SyncFlush?)
    ensures var done := s.producer.done;
            && done == |s.closes| - 1 == |s.results| - 1 == |s.handed| - 1
            && (done in s.flights ==>
                  Next(cfg, s, FlushNext(done, Ok)).Some? || Next(cfg, s, Complete(done)).Some?)
  {
    hide Queue, Sizes, FlushItemsStep;
  }

  /**
   A waiter never misses its wake-up and never sees another flush's result: it waits for the newest channel; while
   that is open its flush can move, and once it is closed the waiter goes on, without waiting again, with exactly the
   error which that flush returned.
   */
  lemma WaiterSeesItsFlush(cfg: Config, wm: map<string, int>, trace: seq<Step>)
    requires Run(cfg, wm, trace).Some? && Run(cfg, wm, trace).value.producer.Waiting?
    ensures var s := Run(cfg, wm, trace).value; var done := s.producer.done; var cont := s.producer.cont;
            && done == |s.closes| - 1 == |s.results| - 1
            && if done in s.flights then
                 Next(cfg, s, FlushNext(done, Ok)).Some? || Next(cfg, s, Complete(done)).Some?
               else
                 var e := ReturnOf(cfg, wm, trace, done); var t := Next(cfg, s, ProducerNext);
                 && e.Some? && s.results[done] == e && t.Some?
                 && if e.value != Nil then
                      t.value == s.(producer := if cont.Sync? then Shut(e.value) else Idle(e.value))
                    else Resumes(s, t.value, cont)
  {
    Reachable(cfg, wm, trace);
    ResultsAreReturns(cfg, wm, trace);
    var s := Run(cfg, wm, trace).value;
    hide Run, ReturnOf, Inv, Resumes, Next;
    RunningStep(cfg, s);
    if s.producer.done !in s.flights {
      WokenStep(cfg, s);
      ClosedHasResult(cfg, s);
    }
  }

  lemma ClosedHasResult(cfg: Config, s: State)
    requires Inv(cfg, s)
    ensures forall id :: 0 <= id < |s.results| && id !in s.flights ==> s.results[id].Some?
  {
    hide Queue, Sizes;
  }

  /** The flush that shutdown runs itself: it can move, or its return value ends shutdown or starts another round. */
  lemma InlineFlushSeen(cfg: Config, wm: map<string, int>, trace: seq<Step>)
    requires Run(cfg, wm, trace).Some? && Run(cfg, wm, trace).value.producer.SyncFlush?
    ensures var s := Run(cfg, wm, trace).value; var done := s.producer.done;
            if done in s.flights then
              Next(cfg, s, FlushNext(done, Ok)).Some? || Next(cfg, s, Complete(done)).Some?
            else
              var e := ReturnOf(cfg, wm, trace, done);
              && e.Some? && Next(cfg, s, ProducerNext)
                            == Some(s.(producer := if e.value != Nil then Shut(e.value) else SyncTop))
  {
    Reachable(cfg, wm, trace);
    ResultsAreReturns(cfg, wm, trace);
    hide Run, ReturnOf, Queue, Sizes, FlushItemsStep;
  }

  lemma RunOn(cfg: Config, wm: map<string, int>, trace: seq<Step>, step: Step)
    requires Run(cfg, wm, trace).Some?
    ensures Run(cfg, wm, trace + [step]) == Next(cfg, Run(cfg, wm, trace).value, step)
  {
    assert (trace + [step])[..|trace|] == trace;
  }

  /**
   A watermark update that fails to persist reaches the caller that waits for the flush: enqueue or triggerFlush
   returns the watermark error, or shutdown ends with it.
   */
  lemma FailedPersistReachesWaiter(cfg: Config, wm: map<string, int>, trace: seq<Step>, id: nat)
    requires Run(cfg, wm, trace).Some? && id in Run(cfg, wm, trace).value.flights
    requires var f := Run(cfg, wm, trace).value.flights[id]; f.pc.Advancing? && f.pc.i < |f.batch|
    requires Run(cfg, wm, trace).value.producer.Waiting?
    ensures var t := Run(cfg, wm, trace + [FlushNext(id, Fail)] + [Complete(id)] + [ProducerNext]);
            && t.Some?
            && t.value.producer == if Run(cfg, wm, trace).value.producer.cont.Sync? then Shut(WatermarkErr)
                                   else Idle(WatermarkErr)
  {
    Reachable(cfg, wm, trace);
    RunOn(cfg, wm, trace, FlushNext(id, Fail));
    RunOn(cfg, wm, trace + [FlushNext(id, Fail)], Complete(id));
    RunOn(cfg, wm, trace + [FlushNext(id, Fail)] + [Complete(id)], ProducerNext);
    hide Run, Queue, Sizes, WaitForFlush;
  }

  /** The producer comes to rest with this error. */
  predicate EndsWith(producer: Producer, e: Err) {
    producer == Idle(e) || producer == Shut(e)
  }

  lemma WaitEndsWith(s: State, cont: Cont)
    ensures var t := WaitForFlush(s, cont);
            forall e :: EndsWith(t.producer, e) && e != Nil ==> cont.Sync? && !s.flushRunning && s.flushErr == e
  {
  }

  lemma BodyEndsWith(cfg: Config, s: State, item: Pending)
    ensures forall e :: e != Nil ==> !EndsWith(EnqueueBody(cfg, s, item).producer, e)
  {
    hide WaitForFlush;
    WaitEndsWith(s, Retry(item));
    WaitEndsWith(s, Oversized(item));
  }

  /** flushErr is an error only after a flush, and the flush that shutdown runs itself leaves its error there. */
  ghost predicate ErrOk(s: State) {
    && (s.flushErr != Nil ==> !s.flushRunning && s.handed != [])
    && (s.producer.SyncFlush? ==>
          var done := s.producer.done;
          done < |s.results| && (s.results[done].Some? ==> s.results[done].value == s.flushErr))
  }

  lemma InvErrOk(cfg: Config, s: State)
    requires Inv(cfg, s)
    ensures ErrOk(s)
  {
    hide Queue, Sizes;
  }

  lemma AfterWaitEndsWith(cfg: Config, s: State, e: Err)
    requires ErrOk(s) && e != Nil && ProducerStep(cfg, s).Some? && EndsWith(ProducerStep(cfg, s).value.producer, e)
    requires s.producer.Waiting? || s.producer.TrigBody? || s.producer.SyncTop?
    ensures !s.flushRunning && s.handed != [] && s.flushErr == e
  {
    hide WaitForFlush;
    WaitEndsWith(s, if s.producer.Waiting? then s.producer.cont else if s.producer.TrigBody? then Trigger else Sync);
  }

  /** The body of enqueue itself never comes to rest with an error. */
  lemma BodyStepEndsWith(cfg: Config, s: State, e: Err)
    requires ProducerStep(cfg, s).Some? && e != Nil
    requires s.producer.EnqBody? || s.producer.OversizedAppend?
    ensures !EndsWith(ProducerStep(cfg, s).value.producer, e)
  {
    hide WaitForFlush, EnqueueBody;
    BodyEndsWith(cfg, s, s.producer.item);
    WaitEndsWith(Append(s, s.producer.item), Finish);
  }

  lemma TopEndsWith(cfg: Config, s: State, e: Err)
    requires e != Nil && s.producer.EnqTop? && ProducerStep(cfg, s).Some?
    requires EndsWith(ProducerStep(cfg, s).value.producer, e)
    ensures e == CtxErr && s.cancelled
  {
  }

  lemma InlineEndsWith(cfg: Config, s: State, e: Err)
    requires ErrOk(s) && e != Nil && s.producer.SyncFlush? && ProducerStep(cfg, s).Some?
    requires EndsWith(ProducerStep(cfg, s).value.producer, e)
    ensures !s.flushRunning && s.handed != [] && s.flushErr == e
  {
  }

  /** No other step comes to rest. */
  lemma RestGoesOn(cfg: Config, s: State, e: Err)
    requires ProducerStep(cfg, s).Some?
    requires s.producer.HibWait? || s.producer.Shut? || s.producer.DrainSnap? || s.producer.Drain?
    ensures !EndsWith(ProducerStep(cfg, s).value.producer, e)
  {
    hide WaitForFlush, EnqueueBody, Append;
    var t := ProducerStep(cfg, s).value;
    assert t.producer.EnqBody? || t.producer.DrainSnap? || t.producer.Drain? || t.producer.Stopped?;
  }

  lemma ProducerEndsWith(cfg: Config, s: State, e: Err)
    requires ErrOk(s) && e != Nil && ProducerStep(cfg, s).Some? && EndsWith(ProducerStep(cfg, s).value.producer, e)
    ensures (e == CtxErr && s.cancelled) || (!s.flushRunning && s.handed != [] && s.flushErr == e)
  {
    OnlyThese(cfg, s);
    hide ErrOk, EndsWith, ProducerStep;
    if s.producer.Waiting? || s.producer.TrigBody? || s.producer.SyncTop? {
      AfterWaitEndsWith(cfg, s, e);
    } else if s.producer.EnqBody? || s.producer.OversizedAppend? {
      BodyStepEndsWith(cfg, s, e);
    } else if s.producer.EnqTop? {
      TopEndsWith(cfg, s, e);
    } else if s.producer.SyncFlush? {
      InlineEndsWith(cfg, s, e);
    } else {
      RestGoesOn(cfg, s, e);
    }
  }

  /** An error that enqueue, triggerFlush or shutdown returns is the context's or what the newest flush returned. */
  lemma ErrorsAreExplained(cfg: Config, wm: map<string, int>, trace: seq<Step>, step: Step, e: Err)
    requires Run(cfg, wm, trace).Some? && Next(cfg, Run(cfg, wm, trace).value, step).Some? && e != Nil
    requires var s := Run(cfg, wm, trace).value;
             !EndsWith(s.producer, e) && EndsWith(Next(cfg, s, step).value.producer, e)
    ensures var s := Run(cfg, wm, trace).value;
            || (e == CtxErr && s.cancelled)
            || (s.handed != [] && ReturnOf(cfg, wm, trace, |s.handed| - 1) == Some(e))
  {
    Reachable(cfg, wm, trace);
    ResultsAreReturns(cfg, wm, trace);
    var s := Run(cfg, wm, trace).value;
    InvErrOk(cfg, s);
    hide Run, ReturnOf, ProducerStep, FlushItemsStep, WakeStep, Inv;
    if step.ProducerNext? {
      ProducerEndsWith(cfg, s, e);
    }
  }

  // ---- Shutdown -------------------------------------------------------------------------------------------

  /** flusher.shutdown has returned nil only with no error left from the newest flush. */
  ghost predicate CleanErr(s: State) {
    ShutDownCleanly(s.producer) ==> s.flushErr == Nil
  }

  lemma WaitClean(s: State, cont: Cont)
    ensures CleanErr(WaitForFlush(s, cont))
  {
  }

  lemma BodyClean(cfg: Config, s: State, item: Pending)
    ensures !ShutDownCleanly(EnqueueBody(cfg, s, item).producer)
  {
  }

  lemma ProducerClean(cfg: Config, s: State)
    requires ErrOk(s) && CleanErr(s) && ProducerStep(cfg, s).Some?
    ensures CleanErr(ProducerStep(cfg, s).value)
  {
    hide WaitForFlush, EnqueueBody, Append;
    match s.producer
    case EnqBody(item) => BodyClean(cfg, s, item);
    case OversizedAppend(item) => WaitClean(Append(s, item), Finish);
    case TrigBody => WaitClean(s, Trigger);
    case SyncTop => WaitClean(s, Sync);
    case Waiting(done, cont) => WaitClean(s, cont);
    case _ =>
  }

  lemma OtherClean(cfg: Config, s: State, step: Step)
    requires Inv(cfg, s) && CleanErr(s) && Next(cfg, s, step).Some? && !step.ProducerNext?
    ensures CleanErr(Next(cfg, s, step).value)
  {
    hide FlushItemsStep, WakeStep, ProducerStep, Queue, Sizes;
  }

  lemma {:induction false} CleanAlways(cfg: Config, wm: map<string, int>, trace: seq<Step>)
    requires Run(cfg, wm, trace).Some?
    ensures CleanErr(Run(cfg, wm, trace).value)
  {
    if trace != [] {
      var before, step := trace[..|trace| - 1], trace[|trace| - 1];
      CleanAlways(cfg, wm, before);
      Reachable(cfg, wm, before);
      var s := Run(cfg, wm, before).value;
      InvErrOk(cfg, s);
      hide CleanErr, Inv, ProducerStep, FlushItemsStep, WakeStep;
      if step.ProducerNext? {
        ProducerClean(cfg, s);
      } else {
        OtherClean(cfg, s, step);
      }
    }
  }

  /** flusher.shutdown returns nil only if the newest flush, if there was one, returned nil. */
  lemma CleanShutdownMeansNewestOk(cfg: Config, wm: map<string, int>, trace: seq<Step>)
    requires Run(cfg, wm, trace).Some? && ShutDownCleanly(Run(cfg, wm, trace).value.producer)
    ensures var s := Run(cfg, wm, trace).value;
            s.handed != [] ==> ReturnOf(cfg, wm, trace, |s.handed| - 1) == Some(Nil)
  {
    CleanAlways(cfg, wm, trace);
    ResultsAreReturns(cfg, wm, trace);
    ShutdownLeavesNothing(cfg, wm, trace);
    Reachable(cfg, wm, trace);
    hide Run, ReturnOf, Queue, Sizes;
  }
}
