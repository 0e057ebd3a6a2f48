/**
 The methods of Pipeline that run a flush of the retained batch are stretches of the step system: the drain at
 shutdown and the rounds of the wake loop, when no other goroutine gets in between, lead where the methods lead.
 */
module Stretches {
  import opened Common
  import opened FlushProtocol
  import opened HandOff
  import opened HibernateMode
  import opened Pipeline

  lemma Snoc(cfg: Config, s: State, trace: seq<Step>, step: Step)
    requires Exec(cfg, s, trace).Some?
    ensures Exec(cfg, s, trace + [step]) == Next(cfg, Exec(cfg, s, trace).value, step)
  {
    hide Next;
    assert (trace + [step])[..|trace|] == trace;
  }

  // ---- The drain ------------------------------------------------------------------------------------------

  /** The drain's flush, run to its end. */
  lemma {:induction false} DrainRuns(cfg: Config, s: State, env: Env) returns (trace: seq<Step>)
    requires s.producer.Drain?
    ensures forall k :: 0 <= k < |trace| ==> trace[k].DrainNext?
    ensures var (p, err) := RunToEnd(cfg, s.pipe, s.producer.flight, env);
            Exec(cfg, s, trace)
            == Option.Some(s.(pipe := p, producer := Drain(s.producer.flight.(pc := Returned(err)))))
    decreases StepsLeft(s.producer.flight)
  {
    var f := s.producer.flight;
    if f.pc.Returned? {
      return [];
    }
    var (q, g) := FlushItemsStep(cfg, s.pipe, f, ChoiceAt(env, f.pc));
    var t := s.(pipe := q, producer := Drain(g));
    var step := DrainNext(ChoiceAt(env, f.pc));
    OneStep(cfg, s, step);
    OneStepLess(cfg, s.pipe, f, env);
    hide RunToEnd, FlushItemsStep, StepsLeft, Exec, Next;
    var rest := DrainRuns(cfg, t, env);
    ExecConcat(cfg, s, [step], rest);
    trace := [step] + rest;
  }

  /** The producer's step from one point of its shutdown to the next. */
  lemma ShutMove(cfg: Config, s: State, trace: seq<Step>, t: State, producer: Producer)
    requires Exec(cfg, s, trace) == Option.Some(t) && t.producer == producer
    requires producer.Shut? || producer == DrainSnap || (producer.Drain? && producer.flight.pc.Returned?)
    ensures Exec(cfg, s, trace + [ProducerNext]) == Option.Some(t.(producer :=
              if producer.Drain? then Stopped(producer.flight.pc.err)
              else if producer.Shut? then
                if producer.err == Nil && t.pipe.hibernating then DrainSnap else Stopped(producer.err)
              else if t.pipe.retained == [] then Stopped(Nil)
              else Drain(Flight(t.pipe.retained, Publishing))))
  {
    Snoc(cfg, s, trace, ProducerNext);
    hide Exec;
  }

  predicate OfProducer(trace: seq<Step>) {
    forall k :: 0 <= k < |trace| ==> trace[k].ProducerNext? || trace[k].DrainNext?
  }

  lemma DrainToStop(cfg: Config, s: State, before: seq<Step>, u: State, env: Env) returns (trace: seq<Step>)
    requires Exec(cfg, s, before) == Option.Some(u) && u.producer.Drain? && OfProducer(before)
    ensures OfProducer(trace)
    ensures var (p, err) := RunToEnd(cfg, u.pipe, u.producer.flight, env);
            Exec(cfg, s, trace) == Option.Some(u.(pipe := p, producer := Stopped(err)))
  {
    hide RunToEnd, Exec;
    var flush := DrainRuns(cfg, u, env);
    ExecConcat(cfg, s, before, flush);
    var (p, err) := RunToEnd(cfg, u.pipe, u.producer.flight, env);
    var producer := Drain(u.producer.flight.(pc := Returned(err)));
    ShutMove(cfg, s, before + flush, u.(pipe := p, producer := producer), producer);
    trace := before + flush + [ProducerNext];
  }

  /** An error of flusher.shutdown ends it; otherwise the producer looks at hibernation and at the retained batch. */
  lemma ToDrain(cfg: Config, s: State) returns (trace: seq<Step>)
    requires s.producer.Shut?
    ensures OfProducer(trace)
    ensures Exec(cfg, s, trace) == Option.Some(s.(producer :=
              if s.producer.err != Nil then Stopped(s.producer.err)
              else if s.pipe.hibernating && s.pipe.retained != [] then Drain(Flight(s.pipe.retained, Publishing))
              else Stopped(Nil)))
  {
    assert Exec(cfg, s, []) == Option.Some(s);
    hide Exec;
    ShutMove(cfg, s, [], s, s.producer);
    trace := [] + [ProducerNext];
    if s.producer.err == Nil && s.pipe.hibernating {
      ShutMove(cfg, s, trace, s.(producer := DrainSnap), DrainSnap);
      trace := trace + [ProducerNext];
    }
  }

  /** What Pipeline.shutdown makes of the result of flusher.shutdown: its error, or what drainHibernateBatch does. */
  function ShutdownEnd(cfg: Config, p: Pipe, err: Err, env: Env): (Pipe, Err) {
    if err != Nil then (p, err) else Retried(cfg, p, env)
  }

  /** Left alone, the producer goes on from the end of flusher.shutdown through drainHibernateBatch to its result. */
  lemma ShutdownIsAStretch(cfg: Config, s: State, env: Env) returns (trace: seq<Step>)
    requires s.producer.Shut?
    ensures OfProducer(trace)
    ensures var (p, err) := ShutdownEnd(cfg, s.pipe, s.producer.err, env);
            Exec(cfg, s, trace) == Option.Some(s.(pipe := p, producer := Stopped(err)))
  {
    hide RunToEnd, Exec, OfProducer;
    trace := ToDrain(cfg, s);
    if s.producer.err == Nil && s.pipe.hibernating && s.pipe.retained != [] {
      trace := DrainToStop(cfg, s, trace, s.(producer := Drain(Flight(s.pipe.retained, Publishing))), env);
    }
  }

  /**
   In hibernate mode a clean flusher shutdown with a batch retained goes on, left alone, to publish that batch: if the
   publish and the watermark updates succeed, its records are acknowledged once, their watermarks are set and
   hibernation is over; if the publish fails, the batch is retained as before.  Either way Run stops with nil.
   */
  lemma DrainDelivers(cfg: Config, wm: map<string, int>, trace: seq<Step>, env: Env) returns (rest: seq<Step>)
    requires cfg.mode == Hibernate && Run(cfg, wm, trace).Some?
    requires Run(cfg, wm, trace).value.producer == Shut(Nil) && Run(cfg, wm, trace).value.pipe.hibernating
    requires env.publishOk ==> env.failingSet >= |Run(cfg, wm, trace).value.pipe.retained|
    ensures Run(cfg, wm, trace + rest).Some?
    ensures var s, t := Run(cfg, wm, trace).value, Run(cfg, wm, trace + rest).value; var b := s.pipe.retained;
            && b != [] && t.producer == Stopped(Nil)
            && if env.publishOk then
                 && t.pipe.acked == s.pipe.acked + b && t.pipe.retained == [] && !t.pipe.hibernating
                 && t.pipe.watermarks == MarkAll(s.pipe.watermarks, b)
               else
                 && t.pipe.acked == s.pipe.acked && t.pipe.retained == b && t.pipe.hibernating
                 && t.pipe.watermarks == s.pipe.watermarks
  {
    var s := Run(cfg, wm, trace).value;
    HibernatingIffRetained(cfg, wm, trace);
    hide RunToEnd, MarkAll;
    rest := ShutdownIsAStretch(cfg, s, env);
    ExecConcat(cfg, Init(wm), trace, rest);
    PublishingFirst(cfg, s.pipe, s.pipe.retained, env);
    if env.publishOk {
      PublishedRun(cfg, s.pipe, s.pipe.retained, env);
    }
  }

  // ---- The wake loop --------------------------------------------------------------------------------------

  lemma HibernationIgnoresWakes(cfg: Config, p: Pipe, batch: seq<Pending>, wakes: map<nat, Wake>)
    requires p.wakeRunning
    ensures FlushProtocol.EnterHibernate(cfg, p.(wakes := wakes), batch)
            == FlushProtocol.EnterHibernate(cfg, p, batch).(wakes := wakes)
    ensures FlushProtocol.ExitHibernate(p.(wakes := wakes)) == FlushProtocol.ExitHibernate(p).(wakes := wakes)
    ensures FlushProtocol.EnterHibernate(cfg, p, batch).wakes == FlushProtocol.ExitHibernate(p).wakes == p.wakes
    ensures FlushProtocol.EnterHibernate(cfg, p, batch).wakeRunning && FlushProtocol.ExitHibernate(p).wakeRunning
  {
  }

  /** A flush takes no notice of where the wake loops stand, as long as one lives. */
  lemma StepIgnoresWakes(cfg: Config, p: Pipe, f: Flight, c: Choice, wakes: map<nat, Wake>)
    requires p.wakeRunning && !f.pc.Returned?
    ensures var (q, g) := FlushItemsStep(cfg, p, f, c);
            && FlushItemsStep(cfg, p.(wakes := wakes), f, c) == (q.(wakes := wakes), g)
            && q.wakes == p.wakes && q.wakeRunning
  {
    hide FlushProtocol.EnterHibernate, FlushProtocol.ExitHibernate;
    HibernationIgnoresWakes(cfg, p, f.batch, wakes);
    HibernationIgnoresWakes(cfg, p, [], wakes);
  }

  lemma {:induction false} RunIgnoresWakes(cfg: Config, p: Pipe, f: Flight, env: Env, wakes: map<nat, Wake>)
    requires p.wakeRunning
    ensures var (q, err) := RunToEnd(cfg, p, f, env);
            && RunToEnd(cfg, p.(wakes := wakes), f, env) == (q.(wakes := wakes), err)
            && q.wakes == p.wakes && q.wakeRunning
    decreases StepsLeft(f)
  {
    if !f.pc.Returned? {
      OneStepLess(cfg, p, f, env);
      OneStepLess(cfg, p.(wakes := wakes), f, env);
      StepIgnoresWakes(cfg, p, f, ChoiceAt(env, f.pc), wakes);
      var (q, g) := FlushItemsStep(cfg, p, f, ChoiceAt(env, f.pc));
      RunIgnoresWakes(cfg, q, g, env, wakes);
      hide FlushItemsStep;
    }
  }

  /** The state once the wake loop's flush has run to its end. */
  function WakeEnd(cfg: Config, s: State, id: nat, env: Env): State
    requires id in s.pipe.wakes && s.pipe.wakes[id].Flushing?
  {
    var f := s.pipe.wakes[id].flight;
    var (p, err) := RunToEnd(cfg, s.pipe, f, env);
    s.(pipe := p.(wakes := s.pipe.wakes[id := Flushing(f.(pc := Returned(err)))]))
  }

  /** One step of that flush leads on to the same end. */
  lemma WakeStepOn(cfg: Config, s: State, id: nat, env: Env)
    requires id in s.pipe.wakes && s.pipe.wakes[id].Flushing? && s.pipe.wakeRunning
    requires !s.pipe.wakes[id].flight.pc.Returned?
    ensures var c := ChoiceAt(env, s.pipe.wakes[id].flight.pc); var t := Next(cfg, s, WakeNext(id, c));
            && t.Some? && id in t.value.pipe.wakes && t.value.pipe.wakes[id].Flushing? && t.value.pipe.wakeRunning
            && StepsLeft(t.value.pipe.wakes[id].flight) < StepsLeft(s.pipe.wakes[id].flight)
            && WakeEnd(cfg, t.value, id, env) == WakeEnd(cfg, s, id, env)
  {
    var f := s.pipe.wakes[id].flight;
    var c := ChoiceAt(env, f.pc);
    var (q, g) := FlushItemsStep(cfg, s.pipe, f, c);
    var wakes := s.pipe.wakes[id := Flushing(g)];
    OneStepLess(cfg, s.pipe, f, env);
    StepIgnoresWakes(cfg, s.pipe, f, c, wakes);
    assert Next(cfg, s, WakeNext(id, c)) == Option.Some(s.(pipe := q.(wakes := wakes)));
    hide RunToEnd, FlushItemsStep, StepsLeft, Next;
    RunIgnoresWakes(cfg, q, g, env, wakes);
    var (p, err) := RunToEnd(cfg, q, g, env);
    assert wakes[id := Flushing(g.(pc := Returned(err)))] == s.pipe.wakes[id := Flushing(f.(pc := Returned(err)))];
  }

  /** The wake loop's flush, run to its end. */
  lemma {:induction false} WakeRuns(cfg: Config, s: State, id: nat, env: Env) returns (trace: seq<Step>)
    requires id in s.pipe.wakes && s.pipe.wakes[id].Flushing? && s.pipe.wakeRunning
    ensures forall k :: 0 <= k < |trace| ==> trace[k].WakeNext? && trace[k].id == id
    ensures Exec(cfg, s, trace) == Option.Some(WakeEnd(cfg, s, id, env))
    decreases StepsLeft(s.pipe.wakes[id].flight)
  {
    var f := s.pipe.wakes[id].flight;
    if f.pc.Returned? {
      assert s.pipe.wakes[id := Flushing(f)] == s.pipe.wakes;
      return [];
    }
    hide RunToEnd, StepsLeft, Exec, Next, WakeEnd;
    WakeStepOn(cfg, s, id, env);
    var step := WakeNext(id, ChoiceAt(env, f.pc));
    OneStep(cfg, s, step);
    var rest := WakeRuns(cfg, Next(cfg, s, step).value, id, env);
    ExecConcat(cfg, s, [step], rest);
    trace := [step] + rest;
  }

  /** Where the loop of `id` stands. */
  predicate Stands(s: State, id: nat, wake: Wake) {
    id in s.pipe.wakes && s.pipe.wakes[id] == wake && s.pipe.wakeRunning
  }

  function At(s: State, id: nat, wake: Wake): State {
    s.(pipe := s.pipe.(wakes := s.pipe.wakes[id := wake]))
  }

  lemma RetryMove(cfg: Config, s: State, trace: seq<Step>, t: State, id: nat, wake: Wake)
    requires Exec(cfg, s, trace) == Option.Some(t) && Stands(t, id, wake) && (wake == RetryCheck || wake == Snap)
    ensures Exec(cfg, s, trace + [WakeNext(id, Ok)]) == Option.Some(
              At(t, id, if wake == RetryCheck then if t.pipe.hibernating then Snap else Recheck
                        else if t.pipe.retained == [] then Recheck
                        else Flushing(Flight(t.pipe.retained, Publishing))))
  {
    Snoc(cfg, s, trace, WakeNext(id, Ok));
    hide Exec;
  }

  lemma AtAt(s: State, id: nat, wake: Wake, other: Wake)
    ensures At(At(s, id, wake), id, other) == At(s, id, other)
  {
    assert s.pipe.wakes[id := wake][id := other] == s.pipe.wakes[id := other];
  }

  /** retryHibernateBatch, left alone, is a stretch of the wake loop. */
  lemma RetryIsAStretch(cfg: Config, s: State, id: nat, env: Env) returns (trace: seq<Step>)
    requires Stands(s, id, RetryCheck)
    ensures forall k :: 0 <= k < |trace| ==> trace[k].WakeNext? && trace[k].id == id
    ensures Exec(cfg, s, trace)
            == Option.Some(s.(pipe := Retried(cfg, s.pipe, env).0.(wakes := s.pipe.wakes[id := Recheck])))
  {
    assert Exec(cfg, s, []) == Option.Some(s);
    hide RunToEnd, Exec;
    RetryMove(cfg, s, [], s, id, RetryCheck);
    trace := [] + [WakeNext(id, Ok)];
    if s.pipe.hibernating {
      RetryMove(cfg, s, trace, At(s, id, Snap), id, Snap);
      trace := trace + [WakeNext(id, Ok)];
      if s.pipe.retained == [] {
        AtAt(s, id, Snap, Recheck);
      } else {
        var f := Flight(s.pipe.retained, Publishing);
        AtAt(s, id, Snap, Flushing(f));
        trace := FlushAndRecheck(cfg, s, At(s, id, Flushing(f)), id, trace, env);
      }
    }
  }

  lemma FlushAndRecheck(cfg: Config, s: State, u: State, id: nat, before: seq<Step>, env: Env)
    returns (trace: seq<Step>)
    requires Exec(cfg, s, before) == Option.Some(u) && id in s.pipe.wakes && s.pipe.wakeRunning
    requires u == At(s, id, Flushing(Flight(s.pipe.retained, Publishing)))
    requires forall k :: 0 <= k < |before| ==> before[k].WakeNext? && before[k].id == id
    ensures forall k :: 0 <= k < |trace| ==> trace[k].WakeNext? && trace[k].id == id
    ensures var (p, err) := RunToEnd(cfg, s.pipe, Flight(s.pipe.retained, Publishing), env);
            Exec(cfg, s, trace) == Option.Some(s.(pipe := p.(wakes := s.pipe.wakes[id := Recheck])))
  {
    var f := Flight(s.pipe.retained, Publishing);
    hide RunToEnd, Exec;
    var flush := WakeRuns(cfg, u, id, env);
    ExecConcat(cfg, s, before, flush);
    RunIgnoresWakes(cfg, s.pipe, f, env, u.pipe.wakes);
    var (p, err) := RunToEnd(cfg, s.pipe, f, env);
    var wakes := u.pipe.wakes[id := Flushing(f.(pc := Returned(err)))];
    var v := s.(pipe := p.(wakes := wakes));
    assert Exec(cfg, s, before + flush) == Option.Some(v);
    Snoc(cfg, s, before + flush, WakeNext(id, Ok));
    assert wakes[id := Recheck] == s.pipe.wakes[id := Recheck];
    trace := before + flush + [WakeNext(id, Ok)];
  }

  /** One step of the loop outside its flush. */
  lemma Tick(cfg: Config, s: State, trace: seq<Step>, t: State, id: nat, wake: Wake)
    requires Exec(cfg, s, trace) == Option.Some(t) && Stands(t, id, wake)
    requires wake == Sleep || wake == Woke || wake == Recheck
    ensures Exec(cfg, s, trace + [WakeNext(id, Ok)]) == Option.Some(
              At(t, id, if wake == Sleep then Woke
                        else if !t.pipe.hibernating then Dying
                        else if wake == Woke then RetryCheck else Sleep))
  {
    Snoc(cfg, s, trace, WakeNext(id, Ok));
    hide Exec;
  }

  lemma RetriedIgnoresWakes(cfg: Config, p: Pipe, env: Env, wakes: map<nat, Wake>)
    requires p.wakeRunning
    ensures var (q, err) := Retried(cfg, p, env);
            && Retried(cfg, p.(wakes := wakes), env) == (q.(wakes := wakes), err)
            && q.wakes == p.wakes && q.wakeRunning
  {
    hide RunToEnd;
    RunIgnoresWakes(cfg, p, Flight(p.retained, Publishing), env, wakes);
  }

  lemma RetryJoins(cfg: Config, s: State, id: nat, env: Env) returns (retry: seq<Step>)
    requires Stands(s, id, Sleep)
    ensures forall k :: 0 <= k < |retry| ==> retry[k].WakeNext? && retry[k].id == id
    ensures Exec(cfg, At(s, id, RetryCheck), retry)
            == Option.Some(At(s.(pipe := Retried(cfg, s.pipe, env).0), id, Recheck))
    ensures Retried(cfg, s.pipe, env).0.wakes == s.pipe.wakes && Retried(cfg, s.pipe, env).0.wakeRunning
  {
    var t := At(s, id, RetryCheck);
    retry := RetryIsAStretch(cfg, t, id, env);
    RetriedIgnoresWakes(cfg, s.pipe, env, t.pipe.wakes);
    hide Exec, Retried;
    assert t.pipe.wakes[id := Recheck] == s.pipe.wakes[id := Recheck];
  }

  /** One round of the loop from the tick of its timer on: a retry if hibernating, then sleep or the end. */
  lemma RoundIsAStretch(cfg: Config, s: State, id: nat, env: Env) returns (trace: seq<Step>)
    requires Stands(s, id, Sleep)
    ensures forall k :: 0 <= k < |trace| ==> trace[k].WakeNext? && trace[k].id == id
    ensures var p := Retried(cfg, s.pipe, env).0;
            && p.wakeRunning && p.wakes == s.pipe.wakes
            && Exec(cfg, s, trace) == Option.Some(
                 if !s.pipe.hibernating then At(s, id, Dying)
                 else At(s.(pipe := p), id, if p.hibernating then Sleep else Dying))
  {
    assert Exec(cfg, s, []) == Option.Some(s);
    var p := Retried(cfg, s.pipe, env).0;
    hide Exec, Retried;
    Tick(cfg, s, [], s, id, Sleep);
    var step := WakeNext(id, Ok);
    trace := [] + [step];
    Tick(cfg, s, trace, At(s, id, Woke), id, Woke);
    trace := trace + [step];
    var retry := RetryJoins(cfg, s, id, env);
    if s.pipe.hibernating {
      AtAt(s, id, Woke, RetryCheck);
      ExecConcat(cfg, s, trace, retry);
      trace := trace + retry;
      var u := s.(pipe := p);
      Tick(cfg, s, trace, At(u, id, Recheck), id, Recheck);
      AtAt(u, id, Recheck, if p.hibernating then Sleep else Dying);
      trace := trace + [step];
    } else {
      AtAt(s, id, Woke, Dying);
    }
  }

  /** The loop is gone. */
  function Gone(s: State, id: nat): State {
    s.(pipe := s.pipe.(wakeRunning := false, wakes := s.pipe.wakes - {id}))
  }

  lemma DyingGoes(cfg: Config, s: State, trace: seq<Step>, t: State, id: nat)
    requires Exec(cfg, s, trace) == Option.Some(At(t, id, Dying)) && id in t.pipe.wakes
    ensures Exec(cfg, s, trace + [WakeNext(id, Ok)]) == Option.Some(Gone(t, id))
  {
    Snoc(cfg, s, trace, WakeNext(id, Ok));
    hide Exec;
    assert t.pipe.wakes[id := Dying] - {id} == t.pipe.wakes - {id};
  }

  lemma SleepCancelled(cfg: Config, s: State, id: nat) returns (trace: seq<Step>)
    requires Stands(s, id, Sleep)
    ensures forall k :: 0 <= k < |trace| ==> trace[k] == Cancel || OfLoop(trace[k], id)
    ensures Exec(cfg, s, trace) == Option.Some(Gone(s, id).(cancelled := true))
  {
    OneStep(cfg, s, Cancel);
    Snoc(cfg, s, [Cancel], WakeCancel(id));
    trace := [Cancel] + [WakeCancel(id)];
    var t := s.(cancelled := true);
    hide Exec;
    assert Exec(cfg, s, trace) == Option.Some(At(t, id, Dying));
    DyingGoes(cfg, s, trace, t, id);
    trace := trace + [WakeNext(id, Ok)];
  }

  /** A step of this wake loop. */
  predicate OfLoop(step: Step, id: nat) {
    (step.WakeNext? || step.WakeCancel?) && step.id == id
  }

  /**
   runHibernateWakeLoop, left alone, is a stretch of the step system that ends where the method ends: its rounds in
   order, then the deferred clear.  When the schedule is over the sleep is cancelled, which needs a cancelled context.
   */
  lemma {:induction false} WakeLoopIsAStretch(cfg: Config, s: State, id: nat, schedule: seq<Env>)
    returns (trace: seq<Step>, cancelled: bool)
    requires Stands(s, id, Sleep)
    ensures forall k :: 0 <= k < |trace| ==> trace[k] == Cancel || OfLoop(trace[k], id)
    ensures var q := WakeRounds(cfg, s.pipe, schedule);
            Exec(cfg, s, trace) == Option.Some(s.(cancelled := cancelled,
              pipe := q.(wakeRunning := false, wakes := s.pipe.wakes - {id})))
    decreases |schedule|
  {
    hide Retried, Exec;
    if schedule == [] {
      trace := SleepCancelled(cfg, s, id);
      cancelled := true;
    } else {
      trace := RoundIsAStretch(cfg, s, id, schedule[0]);
      var p := Retried(cfg, s.pipe, schedule[0]).0;
      if s.pipe.hibernating && p.hibernating {
        var t := s.(pipe := p);
        assert s.pipe.wakes[id := Sleep] == s.pipe.wakes;
        var rest;
        rest, cancelled := WakeLoopIsAStretch(cfg, t, id, schedule[1..]);
        ExecConcat(cfg, s, trace, rest);
        trace := trace + rest;
      } else {
        EndOfRounds(cfg, s.pipe, schedule);
        DyingGoes(cfg, s, trace, if s.pipe.hibernating then s.(pipe := p) else s, id);
        trace := trace + [WakeNext(id, Ok)];
        cancelled := s.cancelled;
      }
    }
  }

  lemma EndOfRounds(cfg: Config, p: Pipe, schedule: seq<Env>)
    requires schedule != []
    requires !p.hibernating || !Retried(cfg, p, schedule[0]).0.hibernating
    ensures WakeRounds(cfg, p, schedule) == if p.hibernating then Retried(cfg, p, schedule[0]).0 else p
  {
    hide Retried;
    if p.hibernating {
      assert WakeRounds(cfg, Retried(cfg, p, schedule[0]).0, schedule[1..]) == Retried(cfg, p, schedule[0]).0;
    }
  }
}
