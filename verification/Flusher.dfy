/**
 publishFlusher as the object it is.  Every method runs the producer's code of publish_flusher.go; wherever that
 code gives up f.mu or blocks, the other goroutines run for a while, as the schedule in `env` says.  The ghost
 `trace` is the interleaving so far: the object is in the state that the step system reaches by it.
 */
module Flusher {
  import opened Common
  import opened FlushProtocol
  import opened HandOff
  import opened Batches
  import P = PublishBuffer

  /** How a call ends: with an error value, or still blocked when the schedule runs out. */
  datatype Result = Done(err: Err) | Blocked

  /** How waitForFlushLocked ends. */
  datatype WaitResult = Ready | Failure(err: Err) | StillWaiting

  /** A step of some goroutine other than the producer. */
  predicate OfOthers(step: Step) {
    step.FlushNext? || step.Complete? || step.WakeNext? || step.WakeCancel? || step.Cancel?
  }

  /** What the other goroutines never touch. */
  predicate SameForProducer(s: State, t: State) {
    && t.producer == s.producer && t.active == s.active && t.accepted == s.accepted && t.handed == s.handed
    && t.shuttingDown == s.shuttingDown && |t.closes| == |s.closes| && |t.results| == |s.results|
    && (t.flushRunning ==> s.flushRunning)
    && t.startedHib == s.startedHib && t.skipped == s.skipped
  }

  /** The state after one slice of the schedule: the steps of others, in order, as far as they are possible. */
  function RunSlice(cfg: Config, s: State, slice: seq<Step>): State {
    if slice == [] then s
    else
      var t := RunSlice(cfg, s, slice[..|slice| - 1]);
      var step := slice[|slice| - 1];
      if OfOthers(step) && Next(cfg, t, step).Some? then Next(cfg, t, step).value else t
  }

  /** A slice of possible steps of the other goroutines runs in full: no interleaving of them is left out. */
  lemma {:induction false} SlicesAreRuns(cfg: Config, s: State, slice: seq<Step>)
    requires Exec(cfg, s, slice).Some?
    requires forall k :: 0 <= k < |slice| ==>
               || slice[k].FlushNext? || slice[k].Complete? || slice[k].WakeNext? || slice[k].WakeCancel?
               || slice[k].Cancel?
    ensures Exec(cfg, s, slice) == Some(RunSlice(cfg, s, slice))
  {
    hide Next;
    if slice != [] {
      SlicesAreRuns(cfg, s, slice[..|slice| - 1]);
    }
  }

  /** The producer waits for something that only other goroutines can bring about. */
  predicate Stuck(s: State) {
    match s.producer
    case HibWait(_) => s.pipe.hibernating && !s.cancelled
    case Waiting(done, _) => done < |s.closes| && s.closes[done] == 0 && !s.cancelled
    case SyncFlush(done) => done < |s.results| && s.results[done].None?
    case _ => false
  }

  lemma StuckCannotMove(cfg: Config, s: State)
    requires Stuck(s)
    ensures Next(cfg, s, ProducerNext).None? && Next(cfg, s, ProducerCancel).None?
  {
  }

  lemma OthersStep(cfg: Config, s: State, step: Step)
    requires OfOthers(step) && Next(cfg, s, step).Some?
    ensures SameForProducer(s, Next(cfg, s, step).value)
  {
    hide FlushItemsStep, WakeStep;
  }

  lemma RunSnoc(cfg: Config, wm: map<string, int>, trace: seq<Step>, step: Step)
    requires Run(cfg, wm, trace).Some?
    ensures Run(cfg, wm, trace + [step]) == Next(cfg, Run(cfg, wm, trace).value, step)
  {
    assert (trace + [step])[..|trace|] == trace;
  }

  lemma CallTriggerStep(cfg: Config, s: State)
    requires s.producer.Idle?
    ensures Next(cfg, s, CallTrigger)
            == Some(s.(producer := if s.pipe.hibernating || s.active.items == [] then Idle(Nil) else TrigBody))
  {
  }

  class PublishFlusher {
    const cfg: Config
    const active: P.PublishBuffer
    var flushRunning: bool
    var flushDone: nat
    var flushErr: Err
    var shuttingDown: bool
    /** Everything outside the flusher; its copies of the five fields above are not used. */
    var rest: State
    var env: seq<seq<Step>>
    ghost const wm: map<string, int>
    ghost var trace: seq<Step>

    function View(): State
      reads this, active
    {
      rest.(active := active.View(), flushRunning := flushRunning, flushDone := flushDone, flushErr := flushErr,
      shuttingDown := shuttingDown)
    }

    /** The object is where the interleaving leads. */
    ghost predicate Valid()
      reads this, active
    {
      Run(cfg, wm, trace) == Some(View())
    }

    /** The producer is inside a critical section: finishing it in this way is its next step. */
    ghost predicate Owes(t: State)
      reads this
    {
      Run(cfg, wm, trace).Some? && Next(cfg, Run(cfg, wm, trace).value, ProducerNext) == Some(t)
    }

    constructor (cfg: Config, env: seq<seq<Step>>, wm: map<string, int>)
      ensures Valid() && fresh(active) && this.cfg == cfg && this.env == env && this.wm == wm
      ensures View() == Init(wm) && trace == []
    {
      this.cfg := cfg;
      this.active := new P.PublishBuffer();
      this.flushRunning, this.flushDone, this.flushErr, this.shuttingDown := false, 0, Nil, false;
      this.rest := Init(wm);
      this.env := env;
      this.wm := wm;
      this.trace := [];
    }

    method SetView(s: State)
      modifies this`flushRunning, this`flushDone, this`flushErr, this`rest
      requires s.active == active.View() && s.shuttingDown == shuttingDown
      ensures View() == s
    {
      flushRunning, flushDone, flushErr, rest := s.flushRunning, s.flushDone, s.flushErr, s;
    }

    /** The other goroutines run for one slice of the schedule; steps that are not possible are passed over. */
    method Interfere()
      requires Valid() && env != []
      modifies this`flushRunning, this`flushDone, this`flushErr, this`rest, this`env, this`trace
      ensures Valid() && old(trace) <= trace && SameForProducer(old(View()), View())
      ensures env == old(env)[1..] && View() == RunSlice(cfg, old(View()), old(env)[0])
    {
      hide Next, Run;
      var slice := env[0];
      env := env[1..];
      for i := 0 to |slice|
        invariant Valid() && old(trace) <= trace && SameForProducer(old(View()), View())
        invariant env == old(env)[1..] && View() == RunSlice(cfg, old(View()), slice[..i])
      {
        assert slice[..i + 1][..i] == slice[..i];
        if OfOthers(slice[i]) {
          var t := Next(cfg, View(), slice[i]);
          if t.Some? {
            OthersStep(cfg, View(), slice[i]);
            RunSnoc(cfg, wm, trace, slice[i]);
            SetView(t.value);
            trace := trace + [slice[i]];
          }
        }
      }
      assert slice[..|slice|] == slice;
    }

    /** The producer's critical section ends here. */
    ghost method EndSection()
      requires Owes(View())
      modifies this`trace
      ensures Valid() && trace == old(trace) + [ProducerNext]
    {
      RunSnoc(cfg, wm, trace, ProducerNext);
      trace := trace + [ProducerNext];
    }

    /** The select of waitForFlushLocked: until the channel is closed or the context ends. */
    method Await(done: nat) returns (woken: bool)
      requires Valid() && View().producer.Waiting? && View().producer.done == done && done < |View().closes|
      modifies this`flushRunning, this`flushDone, this`flushErr, this`rest, this`env, this`trace
      ensures Valid() && old(trace) <= trace && SameForProducer(old(View()), View()) && |env| <= |old(env)|
      ensures woken ==> View().closes[done] > 0 && (old(View()).closes[done] > 0 || |env| < |old(env)|)
      ensures !woken ==> View().cancelled || (env == [] && View().closes[done] == 0)
    {
      while env != [] && rest.closes[done] == 0 && !rest.cancelled
        invariant Valid() && old(trace) <= trace && SameForProducer(old(View()), View())
        invariant |env| <= |old(env)| && (|env| == |old(env)| ==> View() == old(View()))
        decreases |env|
      {
        Interfere();
      }
      woken := rest.closes[done] > 0;
      if rest.cancelled {
        if * {
          woken := false;
        }
      }
    }

    /** waitForFlushLocked has returned an error and the producer holds no lock. */
    ghost predicate Failed(cont: Cont, err: Err)
      reads this, active
    {
      Valid() && err != Nil && View().producer == if cont.Sync? then Shut(err) else Idle(err)
    }

    /** The error is the context's, or that of the newest flush, which has ended. */
    ghost predicate Explained(err: Err)
      reads this, active
    {
      || (err == CtxErr && View().cancelled)
      || (!flushRunning && flushDone < |View().results| && View().results[flushDone] == Some(err))
    }

    /** The protocol's invariant at this point: the closed channel is the newest one, and flushErr its result. */
    lemma ResultOfNewest(done: nat)
      requires Valid() && View().producer.Waiting? && View().producer.done == done
      requires done < |View().closes| && View().closes[done] > 0
      ensures !flushRunning && flushDone < |View().results| && View().results[flushDone] == Some(flushErr)
    {
      Reachable(cfg, wm, trace);
    }

    /** The woken waiter looks at the result of the flush it waited for. */
    method LookAtResult(done: nat, cont: Cont) returns (result: WaitResult)
      requires Valid() && rest.producer == Waiting(done, cont) && done < |rest.closes| && rest.closes[done] > 0
      modifies this`rest, this`trace
      ensures old(trace) <= trace && SameExceptProducer(old(View()), View())
      ensures result == Ready ==> Owes(WaitForFlush(View(), cont))
      ensures result.Failure? ==> Failed(cont, result.err) && Explained(result.err)
      ensures !result.StillWaiting?
    {
      hide Run, WaitForFlush;
      ResultOfNewest(done);
      if flushErr != Nil {
        rest := rest.(producer := if cont.Sync? then Shut(flushErr) else Idle(flushErr));
        EndSection();
        return Failure(flushErr);
      }
      result := Ready;
    }

    /** Leave the lock to wait for the running flush. */
    method BeginWait(cont: Cont) returns (done: nat)
      requires flushRunning && Owes(WaitForFlush(View(), cont))
      modifies this`rest, this`trace
      ensures Valid() && old(trace) <= trace && View() == old(View()).(producer := Waiting(done, cont))
      ensures done < |rest.closes| && rest.closes[done] == 0
    {
      hide Run, Next;
      done := flushDone;
      rest := rest.(producer := Waiting(done, cont));
      EndSection();
      OpenWhileRunning();
    }

    /** One round of the loop in waitForFlushLocked. */
    method WaitOnce(cont: Cont) returns (result: WaitResult)
      requires flushRunning && Owes(WaitForFlush(View(), cont))
      modifies this`flushRunning, this`flushDone, this`flushErr, this`rest, this`env, this`trace
      ensures old(trace) <= trace && |env| <= |old(env)| && SameExceptProducer(old(View()), View())
      ensures result == Ready ==> Owes(WaitForFlush(View(), cont)) && |env| < |old(env)|
      ensures result.Failure? ==> Failed(cont, result.err) && Explained(result.err)
      ensures result == StillWaiting ==> Valid() && env == [] && Stuck(View())
    {
      hide Run, Next, WaitForFlush;
      var done := BeginWait(cont);
      var woken := Await(done);
      if woken {
        result := LookAtResult(done, cont);
      } else if rest.cancelled {
        WaitCancelled(done, cont);
        result := Failure(CtxErr);
      } else {
        result := StillWaiting;
      }
    }

    /** waitForFlushLocked, entered with f.mu held; on Ready the caller still holds it and goes on. */
    method WaitForFlushLocked(cont: Cont) returns (result: WaitResult)
      requires Owes(WaitForFlush(View(), cont))
      modifies this`flushRunning, this`flushDone, this`flushErr, this`rest, this`env, this`trace
      ensures old(trace) <= trace && |env| <= |old(env)| && SameExceptProducer(old(View()), View())
      ensures result == Ready ==> !flushRunning && Owes(AfterWait(View(), cont))
      ensures result.Failure? ==> Failed(cont, result.err) && Explained(result.err)
      ensures result == StillWaiting ==> Valid() && env == [] && Stuck(View())
    {
      hide Run, Next, AfterWait;
      result := Ready;
      while flushRunning
        invariant Owes(WaitForFlush(View(), cont)) && result == Ready
        invariant old(trace) <= trace && |env| <= |old(env)| && SameExceptProducer(old(View()), View())
        decreases |env|
      {
        result := WaitOnce(cont);
        if result != Ready {
          return;
        }
      }
    }

    /** Drain the buffer and register a flush of it; the caller ends the critical section. */
    method StartLocked()
      requires active.Exact()
      modifies this`flushRunning, this`flushDone, this`flushErr, this`rest, active
      ensures View() == StartFlush(old(View())) && active.Exact()
    {
      flushErr := Nil;
      var batch := active.Drain();
      flushRunning := true;
      var id := |rest.closes|;
      flushDone := id;
      rest := rest.(
      flights := rest.flights[id := Flight(batch, Publishing)], closes := rest.closes + [0],
      results := rest.results + [None], handed := rest.handed + [batch],
      startedHib := rest.startedHib || rest.pipe.hibernating);
    }

    method StartIfAnyLocked()
      requires active.Exact()
      modifies this`flushRunning, this`flushDone, this`flushErr, this`rest, active
      ensures View() == StartIfAny(old(View())) && active.Exact() && View().active == Buffer([], 0)
      ensures View().accepted == old(View()).accepted && View().shuttingDown == old(View()).shuttingDown
      ensures View().handed == old(View()).handed + Whole(old(View()).active.items)
    {
      if |active.items| > 0 {
        StartLocked();
      }
    }

    /** Where the producer goes on after a swap. */
    static function AfterSwap(cont: Cont): Producer
      requires cont.Retry? || cont.Oversized? || cont.Trigger?
    {
      match cont
      case Retry(item) => EnqTop(item)
      case Oversized(item) => OversizedAppend(item)
      case _ => Idle(Nil)
    }

    /** swapAndStartFlushLocked */
    method SwapAndStartFlushLocked(cont: Cont) returns (result: WaitResult)
      requires Owes(WaitForFlush(View(), cont)) && active.Exact()
      requires cont.Retry? || cont.Oversized? || cont.Trigger?
      modifies this`flushRunning, this`flushDone, this`flushErr, this`rest, this`env, this`trace, active
      ensures old(trace) <= trace && |env| <= |old(env)| && Valid() && active.Exact()
      ensures View().accepted == old(View()).accepted && View().shuttingDown == old(View()).shuttingDown
      ensures result == Ready ==> View().active == Buffer([], 0) && View().producer == AfterSwap(cont)
      ensures result == Ready ==> View().handed == old(View()).handed + Whole(old(View()).active.items)
      ensures result != Ready ==> View().active == old(View()).active && View().handed == old(View()).handed
      ensures result.Failure? ==> Failed(cont, result.err) && Explained(result.err)
      ensures result == StillWaiting ==> env == [] && Stuck(View())
    {
      hide Run, Next, Bytes, StartFlush;
      result := WaitForFlushLocked(cont);
      if result == Ready {
        StartIfAnyLocked();
        rest := rest.(producer := AfterSwap(cont));
        EndSection();
      }
    }

    // ---- The calls of Run ---------------------------------------------------------------------------------

    /** What a call leaves to rely on: the object is where the interleaving leads. */
    ghost predicate Good()
      reads this, active
    {
      Valid() && active.Exact()
    }

    /** waitWhileHibernating, with f.mu held; on Ready hibernation was seen to be over. */
    method WaitWhileHibernating(item: Pending) returns (result: WaitResult)
      requires Good() && View().producer == HibWait(item)
      modifies this`flushRunning, this`flushDone, this`flushErr, this`rest, this`env, this`trace
      ensures Good() && old(trace) <= trace && |env| <= |old(env)| && SameExceptProducer(old(View()), View())
      ensures result == Ready ==> View().producer == EnqBody(item)
      ensures result.Failure? ==> result.err != Nil && View().producer == Idle(result.err)
      ensures result == StillWaiting ==> env == [] && Stuck(View())
    {
      hide Run, EnqueueBody;
      while rest.pipe.hibernating
        invariant Good() && old(trace) <= trace && SameForProducer(old(View()), View()) && |env| <= |old(env)|
        decreases |env|
      {
        if rest.cancelled {
          CancelHibernationWait(item);
          return Failure(CtxErr);
        }
        if env == [] {
          return StillWaiting;
        }
        Interfere();
      }
      rest := rest.(producer := EnqBody(item));
      EndSection();
      result := Ready;
    }

    method CancelHibernationWait(item: Pending)
      requires Good() && View().producer == HibWait(item) && View().cancelled
      modifies this`rest, this`trace
      ensures Good() && old(trace) <= trace && SameExceptProducer(old(View()), View())
      ensures View().producer == Idle(CtxErr)
    {
      hide Run, EnqueueBody;
      RunSnoc(cfg, wm, trace, ProducerCancel);
      rest := rest.(producer := Idle(CtxErr));
      trace := trace + [ProducerCancel];
    }

    /** The head of the loop in enqueue: take f.mu, look at shuttingDown and at hibernation. */
    method EnqueueHead(item: Pending) returns (result: WaitResult)
      requires Good() && View().producer == EnqTop(item) && !shuttingDown
      modifies this`flushRunning, this`flushDone, this`flushErr, this`rest, this`env, this`trace
      ensures Good() && old(trace) <= trace && |env| <= |old(env)| && SameExceptProducer(old(View()), View())
      ensures result == Ready ==> View().producer == EnqBody(item)
      ensures result.Failure? ==> result.err != Nil && View().producer == Idle(result.err)
      ensures result == StillWaiting ==> env == [] && Stuck(View())
    {
      hide Run, EnqueueBody;
      if rest.pipe.hibernating {
        rest := rest.(producer := HibWait(item));
        EndSection();
        result := WaitWhileHibernating(item);
      } else {
        rest := rest.(producer := EnqBody(item));
        EndSection();
        result := Ready;
      }
    }

    /** f.active.append(item) */
    method AppendLocked(item: Pending)
      requires active.Exact()
      modifies active, this`rest
      ensures View() == Append(old(View()), item) && active.Exact()
    {
      active.Append(item);
      rest := rest.(accepted := rest.accepted + [item]);
    }

    /** The branch for a record that alone exceeds the budget. */
    method EnqueueOversized(item: Pending) returns (result: Result)
      requires Good() && View().producer == EnqBody(item) && cfg.maxBytes > 0 && |item.payload| > cfg.maxBytes
      modifies this`flushRunning, this`flushDone, this`flushErr, this`rest, this`env, this`trace, active
      ensures Good() && old(trace) <= trace && |env| <= |old(env)|
      ensures result == Blocked ==> env == [] && Stuck(View())
      ensures result.Done? ==> View().producer == Idle(result.err)
      ensures result == Done(Nil) ==> View().accepted == old(View()).accepted + [item] && !flushRunning
      ensures View().accepted == old(View()).accepted || View().accepted == old(View()).accepted + [item]
      ensures View().accepted != old(View()).accepted ==>
                && View().active == Buffer([item], |item.payload|)
                && View().handed == old(View()).handed + Whole(old(View()).active.items)
      ensures View().accepted == old(View()).accepted ==>
                View().active == old(View()).active && View().handed == old(View()).handed
    {
      hide Run, Bytes;
      var swapped := SwapAndStartFlushLocked(Oversized(item));
      if swapped != Ready {
        return if swapped.Failure? then Done(swapped.err) else Blocked;
      }
      AppendLocked(item);
      result := FinishOversized();
    }

    /** return f.waitForFlushLocked(ctx) */
    method FinishOversized() returns (result: Result)
      requires Owes(WaitForFlush(View(), Finish)) && active.Exact()
      modifies this`flushRunning, this`flushDone, this`flushErr, this`rest, this`env, this`trace
      ensures Good() && old(trace) <= trace && |env| <= |old(env)|
      ensures View().accepted == old(View()).accepted && View().active == old(View()).active
      ensures View().handed == old(View()).handed && (result == Done(Nil) ==> !flushRunning)
      ensures result == Blocked ==> env == [] && Stuck(View())
      ensures result.Done? ==> View().producer == Idle(result.err)
    {
      hide Run, Next;
      var waited := WaitForFlushLocked(Finish);
      if waited != Ready {
        return if waited.Failure? then Done(waited.err) else Blocked;
      }
      rest := rest.(producer := Idle(Nil));
      EndSection();
      result := Done(Nil);
    }

    /** The last branch of enqueue: the record fits. */
    method EnqueueFitting(item: Pending)
      requires Good() && View().producer == EnqBody(item) && EnqueueFits(item)
      modifies this`rest, this`trace, active
      ensures Good() && old(trace) <= trace && View().producer == Idle(Nil)
      ensures View().accepted == old(View()).accepted + [item]
      ensures View().active.items == old(View()).active.items + [item] && View().handed == old(View()).handed
    {
      hide Run, Bytes;
      AppendLocked(item);
      rest := rest.(producer := Idle(Nil));
      EndSection();
    }

    predicate EnqueueFits(item: Pending)
      reads active
    {
      cfg.maxBytes == 0
      || (|item.payload| <= cfg.maxBytes && (active.bytes == 0 || active.bytes + |item.payload| <= cfg.maxBytes))
    }

    /**
     What enqueue has done to buffer and hand-off when it returns: a record that fits behind the buffer joined it and
     nothing was handed over; otherwise the whole buffer was handed over first, unless the record was not accepted.
     */
    static predicate EnqueueEffect(cfg: Config, s: State, t: State, item: Pending) {
      if t.accepted == s.accepted then
        || (t.active.items == s.active.items && t.handed == s.handed)
        || (Overflows(cfg, s.active.items, item) && t.active.items == []
            && t.handed == s.handed + Whole(s.active.items))
      else if Overflows(cfg, s.active.items, item) then
        t.active.items == [item] && t.handed == s.handed + Whole(s.active.items)
      else
        t.active.items == s.active.items + [item] && t.handed == s.handed
    }

    /**
     enqueue.  A nil error means that the record was accepted, once, behind everything accepted before; an error
     means that it was not accepted, unless it is oversized and the wait after its append failed.  An oversized record
     is accepted only once no flush is running any more.  After shutdown nothing is accepted and the error is the
     context's, nil if it has not ended.
     */
    method Enqueue(item: Pending) returns (result: Result)
      requires Good() && View().producer.Idle?
      modifies this`flushRunning, this`flushDone, this`flushErr, this`rest, this`env, this`trace, active
      ensures Good() && old(trace) <= trace
      ensures result == Blocked ==> env == [] && Stuck(View())
      ensures result.Done? ==> View().producer == Idle(result.err)
      ensures shuttingDown ==>
                && result == Done(if old(View()).cancelled then CtxErr else Nil)
                && View() == old(View()).(producer := View().producer)
      ensures EnqueueEffect(cfg, old(View()), View(), item)
      ensures result == Done(Nil) && !shuttingDown ==> View().accepted == old(View()).accepted + [item]
      ensures result == Done(Nil) && !shuttingDown && 0 < cfg.maxBytes < |item.payload| ==> !flushRunning
      ensures View().accepted == old(View()).accepted || View().accepted == old(View()).accepted + [item]
      ensures result.Done? && result.err != Nil && !(cfg.maxBytes > 0 && |item.payload| > cfg.maxBytes)
              ==> View().accepted == old(View()).accepted
    {
      hide Run, Bytes;
      RunSnoc(cfg, wm, trace, CallEnqueue(item));
      rest := rest.(producer := EnqTop(item));
      trace := trace + [CallEnqueue(item)];
      if shuttingDown {
        RefuseShutDown(item);
        return Done(if rest.cancelled then CtxErr else Nil);
      }
      result := EnqueueLoop(item);
    }

    /** Between two rounds of enqueue's loop: nothing has happened yet, or the full buffer was handed over. */
    static predicate OnTheWay(cfg: Config, s: State, t: State, item: Pending) {
      || (t.active == s.active && t.handed == s.handed)
      || (Overflows(cfg, s.active.items, item) && |item.payload| <= cfg.maxBytes && t.active == Buffer([], 0)
          && t.handed == s.handed + Whole(s.active.items))
    }

    method RefuseShutDown(item: Pending)
      requires Good() && View().producer == EnqTop(item) && shuttingDown
      modifies this`rest, this`trace
      ensures Good() && old(trace) <= trace && View() == old(View()).(producer := Idle(CtxError(old(View()))))
    {
      hide Run, EnqueueBody;
      rest := rest.(producer := Idle(if rest.cancelled then CtxErr else Nil));
      EndSection();
    }

    method EnqueueLoop(item: Pending) returns (result: Result)
      requires Good() && View().producer == EnqTop(item) && !shuttingDown
      modifies this`flushRunning, this`flushDone, this`flushErr, this`rest, this`env, this`trace, active
      ensures Good() && old(trace) <= trace
      ensures result == Blocked ==> env == [] && Stuck(View())
      ensures result.Done? ==> View().producer == Idle(result.err)
      ensures result == Done(Nil) ==> View().accepted == old(View()).accepted + [item]
      ensures result == Done(Nil) && 0 < cfg.maxBytes < |item.payload| ==> !flushRunning
      ensures View().accepted == old(View()).accepted || View().accepted == old(View()).accepted + [item]
      ensures result.Done? && result.err != Nil && !(cfg.maxBytes > 0 && |item.payload| > cfg.maxBytes)
              ==> View().accepted == old(View()).accepted
      ensures EnqueueEffect(cfg, old(View()), View(), item)
    {
      hide Run, Next, Bytes;
      while true
        invariant Good() && old(trace) <= trace && View().producer == EnqTop(item) && !shuttingDown
        invariant View().accepted == old(View()).accepted
        invariant OnTheWay(cfg, old(View()), View(), item)
        decreases active.bytes > 0
      {
        var head := EnqueueHead(item);
        if head != Ready {
          return if head.Failure? then Done(head.err) else Blocked;
        }
        if cfg.maxBytes > 0 && |item.payload| > cfg.maxBytes {
          result := EnqueueOversized(item);
          return;
        }
        if EnqueueFits(item) {
          EnqueueFitting(item);
          return Done(Nil);
        }
        MustSwap(item);
        var swapped := SwapAndStartFlushLocked(Retry(item));
        if swapped != Ready {
          return if swapped.Failure? then Done(swapped.err) else Blocked;
        }
      }
    }

    /** With the record fitting alone but not behind the buffered ones, enqueue swaps. */
    lemma MustSwap(item: Pending)
      requires Valid() && View().producer == EnqBody(item) && |item.payload| <= cfg.maxBytes && !EnqueueFits(item)
      ensures Owes(WaitForFlush(View(), Retry(item))) && active.bytes > 0
    {
    }

    /** triggerFlush: nil with nothing left in the buffer, unless hibernation was on. */
    method TriggerFlush() returns (result: Result)
      requires Good() && View().producer.Idle?
      modifies this`flushRunning, this`flushDone, this`flushErr, this`rest, this`env, this`trace, active
      ensures Good() && old(trace) <= trace && View().accepted == old(View()).accepted
      ensures result == Blocked ==> env == [] && Stuck(View())
      ensures result.Done? ==> View().producer == Idle(result.err)
      ensures result == Done(Nil) && !old(View()).pipe.hibernating ==>
                View().active.items == [] && View().handed == old(View()).handed + Whole(old(View()).active.items)
      ensures result != Done(Nil) ==> View().active == old(View()).active && View().handed == old(View()).handed
      ensures old(View()).pipe.hibernating ==>
                result == Done(Nil) && View().active == old(View()).active && View().handed == old(View()).handed
    {
      hide Run, Next, Bytes;
      var nothing := BeginTrigger();
      if nothing {
        return Done(Nil);
      }
      TrigOwes();
      var swapped := SwapAndStartFlushLocked(Trigger);
      result := match swapped case Ready => Done(Nil) case Failure(err) => Done(err) case StillWaiting => Blocked;
    }

    method BeginTrigger() returns (nothing: bool)
      requires Good() && View().producer.Idle?
      modifies this`rest, this`trace
      ensures Good() && old(trace) <= trace && SameExceptProducer(old(View()), View())
      ensures nothing == (old(View()).pipe.hibernating || active.items == [])
      ensures if nothing then View().producer == Idle(Nil) else View().producer == TrigBody
    {
      CallTriggerStep(cfg, View());
      hide Run, Next;
      RunSnoc(cfg, wm, trace, CallTrigger);
      if rest.pipe.hibernating || |active.items| == 0 {
        rest := rest.(producer := Idle(Nil));
        nothing := true;
      } else {
        rest := rest.(producer := TrigBody);
        nothing := false;
      }
      trace := trace + [CallTrigger];
    }

    lemma TrigOwes()
      requires Valid() && View().producer == TrigBody
      ensures Owes(WaitForFlush(View(), Trigger))
    {
    }

    /** The flush that the producer runs itself, and its result. */
    method FlushInline(done: nat) returns (result: WaitResult)
      requires Good() && View().producer == SyncFlush(done) && done < |View().results|
      modifies this`flushRunning, this`flushDone, this`flushErr, this`rest, this`env, this`trace
      ensures Good() && old(trace) <= trace && SameExceptProducer(old(View()), View())
      ensures result == Ready ==> View().producer == SyncTop
      ensures result.Failure? ==> result.err != Nil && View().producer == Shut(result.err)
      ensures result == StillWaiting ==> env == [] && Stuck(View())
    {
      hide Run, Next;
      while rest.results[done].None?
        invariant Good() && old(trace) <= trace && SameForProducer(old(View()), View())
        decreases |env|
      {
        if env == [] {
          return StillWaiting;
        }
        Interfere();
      }
      result := FinishInline(done);
    }

    /** End the critical section by moving the producer on. */
    method MoveTo(producer: Producer)
      requires Owes(View().(producer := producer))
      modifies this`rest, this`trace
      ensures Valid() && trace == old(trace) + [ProducerNext] && View() == old(View()).(producer := producer)
    {
      rest := rest.(producer := producer);
      EndSection();
    }

    method FinishInline(done: nat) returns (result: WaitResult)
      requires Good() && View().producer == SyncFlush(done) && done < |View().results| && rest.results[done].Some?
      modifies this`rest, this`trace
      ensures Good() && old(trace) <= trace && SameExceptProducer(old(View()), View())
      ensures var err := old(rest).results[done].value;
              if err == Nil then result == Ready && View().producer == SyncTop
              else result == Failure(err) && View().producer == Shut(err)
    {
      hide Run, Next;
      var err := rest.results[done].value;
      InlineOwes(done);
      MoveTo(if err != Nil then Shut(err) else SyncTop);
      result := if err != Nil then Failure(err) else Ready;
    }

    lemma InlineOwes(done: nat)
      requires Valid() && View().producer == SyncFlush(done) && done < |View().results| && View().results[done].Some?
      ensures var err := View().results[done].value;
              Owes(View().(producer := if err != Nil then Shut(err) else SyncTop))
    {
    }

    /** One round of syncFlush; on Ready the buffer was flushed and the loop goes on. */
    method SyncFlushRound() returns (result: WaitResult, finished: bool)
      requires Good() && View().producer == SyncTop
      modifies this`flushRunning, this`flushDone, this`flushErr, this`rest, this`env, this`trace, active
      ensures Good() && old(trace) <= trace && View().accepted == old(View()).accepted
      ensures WholeOrNothing(old(View()), View())
      ensures result == Ready && finished ==> View().producer == Shut(flushErr) && active.items == []
      ensures result == Ready && !finished ==>
                View().producer == SyncTop && active.items == [] && old(active.items) != []
      ensures result.Failure? ==> result.err != Nil && View().producer == Shut(result.err)
      ensures result == StillWaiting ==> env == [] && Stuck(View())
    {
      hide Run, Bytes, Next, StartFlush;
      finished := false;
      SyncTopOwes();
      result := WaitForFlushLocked(Sync);
      if result != Ready {
        return;
      }
      if |active.items| == 0 {
        rest := rest.(producer := Shut(flushErr));
        EndSection();
        finished := true;
        return;
      }
      var done := |rest.closes|;
      ChannelsAgree(done);
      StartSync(done);
      result := FlushInline(done);
    }

    lemma SyncTopOwes()
      requires Valid() && View().producer == SyncTop
      ensures Owes(WaitForFlush(View(), Sync))
    {
    }

    /** There are as many results as channels. */
    lemma ChannelsAgree(done: nat)
      requires Owes(AfterWait(View(), Sync)) && done == |rest.closes|
      requires !flushRunning && active.items != []
      ensures |rest.results| == done
    {
      Reachable(cfg, wm, trace);
      NextKeeps(cfg, Run(cfg, wm, trace).value, ProducerNext);
    }

    method StartSync(done: nat)
      requires Owes(AfterWait(View(), Sync)) && active.Exact() && active.items != []
      requires done == |rest.closes| == |rest.results|
      modifies this`flushRunning, this`flushDone, this`flushErr, this`rest, this`trace, active
      ensures Good() && old(trace) <= trace && View().accepted == old(View()).accepted
      ensures View().producer == SyncFlush(done) && done < |View().results| && active.items == []
      ensures View().handed == old(View()).handed + Whole(old(active.items))
    {
      hide Run, Next, Bytes;
      StartLocked();
      rest := rest.(producer := SyncFlush(done));
      EndSection();
    }

    /** shutdown: nil only with an empty buffer and no flush in flight, all accepted records handed over. */
    method Shutdown() returns (result: Result)
      requires Good() && View().producer.Idle?
      modifies this, active
      ensures Good() && old(trace) <= trace && View().accepted == old(View()).accepted
      ensures result == Blocked ==> env == [] && Stuck(View())
      ensures result.Done? ==> View().producer == Shut(result.err)
      ensures result == Done(Nil) ==>
                && active.items == [] && View().flights == map[] && Flatten(View().handed) == View().accepted
                && View().handed == old(View()).handed + Whole(old(active.items))
      ensures WholeOrNothing(old(View()), View())
    {
      hide Run, Bytes;
      RunSnoc(cfg, wm, trace, CallShutdown);
      shuttingDown := true;
      rest := rest.(producer := SyncTop);
      trace := trace + [CallShutdown];
      result := SyncFlushLoop();
      if result == Done(Nil) {
        ShutdownLeavesNothing(cfg, wm, trace);
      }
    }

    /** syncFlush, then the result of the last flush. */
    method SyncFlushLoop() returns (result: Result)
      requires Good() && View().producer == SyncTop
      modifies this`flushRunning, this`flushDone, this`flushErr, this`rest, this`env, this`trace, active
      ensures Good() && old(trace) <= trace && View().accepted == old(View()).accepted
      ensures result == Blocked ==> env == [] && Stuck(View())
      ensures result.Done? ==> View().producer == Shut(result.err)
      ensures WholeOrNothing(old(View()), View()) && (result == Done(Nil) ==> active.items == [])
    {
      hide Run, Next, Bytes;
      while true
        invariant Good() && old(trace) <= trace && View().producer == SyncTop
        invariant View().accepted == old(View()).accepted && WholeOrNothing(old(View()), View())
        decreases |active.items|
      {
        var round, finished := SyncFlushRound();
        if round != Ready {
          return if round.Failure? then Done(round.err) else Blocked;
        }
        if finished {
          return Done(flushErr);
        }
      }
    }

    /** The invariant of the protocol at this point: the channel of a running flush is open. */
    lemma OpenWhileRunning()
      requires Valid() && View().flushRunning
      ensures flushDone < |rest.closes| && rest.closes[flushDone] == 0
    {
      Reachable(cfg, wm, trace);
    }

    method WaitCancelled(done: nat, cont: Cont)
      requires Valid() && rest.producer == Waiting(done, cont) && rest.cancelled
      modifies this`rest, this`trace
      ensures Valid() && old(trace) <= trace && SameExceptProducer(old(View()), View())
      ensures View().producer == (if cont.Sync? then Shut(CtxErr) else Idle(CtxErr)) && View().cancelled
    {
      hide Run;
      RunSnoc(cfg, wm, trace, ProducerCancel);
      rest := rest.(producer := if cont.Sync? then Shut(CtxErr) else Idle(CtxErr));
      trace := trace + [ProducerCancel];
    }
  }

  /** The buffer as the one batch that is handed over, if there is anything in it. */
  function Whole(items: seq<Pending>): seq<seq<Pending>> {
    if items == [] then [] else [items]
  }

  /** Either nothing was handed over, or the whole buffer as one batch. */
  predicate WholeOrNothing(s: State, t: State) {
    || (t.active.items == s.active.items && t.handed == s.handed)
    || (t.active.items == [] && t.handed == s.handed + Whole(s.active.items))
  }

  predicate SameExceptProducer(s: State, t: State) {
    && t.active == s.active && t.accepted == s.accepted && t.handed == s.handed
    && t.shuttingDown == s.shuttingDown
    && t.startedHib == s.startedHib && t.skipped == s.skipped
  }
}
