/**
 The logs of the step system are honest: what they hold is read off the interleaving alone, from how each call into the
 sink, the dead-letter directory and the watermark store went.
 */
module Logs {
  import opened Common
  import opened FlushProtocol
  import opened HandOff
  import opened Forgetting

  /** How the call of this step went. */
  function ChoiceOf(step: Step): Choice {
    match step
    case FlushNext(_, c) => c
    case WakeNext(_, c) => c
    case DrainNext(c) => c
    case _ => Ok
  }

  /** The call that a step makes, and for which batch. */
  datatype Call =
    | NoCall
    | PublishCall(batch: seq<Pending>)
    | WriteCall(batch: seq<Pending>)
    | SetCall(path: string, offset: int)

  function CallOf(cfg: Config, s: State, step: Step): Call {
    match FlightOf(s, step)
    case None => if step.SkipLine? then SetCall(step.path, step.offset) else NoCall
    case Some(f) =>
      match f.pc
      case Publishing => PublishCall(f.batch)
      case Failed => if cfg.mode == DeadLetter then WriteCall(f.batch) else NoCall
      case Advancing(i, _) => if i < |f.batch| then SetCall(f.batch[i].path, f.batch[i].offset) else NoCall
      case _ => NoCall
  }

  /** What the world outside has seen of a run. */
  datatype Log = Log(acked: seq<Pending>, dead: seq<Pending>, lost: seq<Pending>, watermarks: map<string, int>)

  /** A publish or write that succeeds delivers the whole batch; memory takes a watermark even if persisting fails. */
  function After(log: Log, call: Call, c: Choice): Log {
    match call
    case NoCall => log
    case PublishCall(batch) => if c == Ok then log.(acked := log.acked + batch) else log
    case WriteCall(batch) =>
      if c == Ok then log.(dead := log.dead + batch) else log.(lost := log.lost + batch)
    case SetCall(path, offset) => log.(watermarks := log.watermarks[path := offset])
  }

  function LogOf(cfg: Config, wm: map<string, int>, trace: seq<Step>): Log
    requires Run(cfg, wm, trace).Some?
  {
    if trace == [] then Log([], [], [], wm)
    else
      var before, step := trace[..|trace| - 1], trace[|trace| - 1];
      After(LogOf(cfg, wm, before), CallOf(cfg, Run(cfg, wm, before).value, step), ChoiceOf(step))
  }

  function PipeLog(p: Pipe): Log {
    Log(p.acked, p.dead, p.lost, p.watermarks)
  }

  lemma FlushStepLogs(cfg: Config, s: State, step: Step, p: Pipe, f: Flight, c: Choice)
    requires FlightOf(s, step) == Some(f) && ChoiceOf(step) == c && !f.pc.Returned?
    ensures PipeLog(FlushItemsStep(cfg, p, f, c).0) == After(PipeLog(p), CallOf(cfg, s, step), c)
  {
  }

  lemma NextLogs(cfg: Config, s: State, step: Step)
    requires Next(cfg, s, step).Some?
    ensures PipeLog(Next(cfg, s, step).value.pipe) == After(PipeLog(s.pipe), CallOf(cfg, s, step), ChoiceOf(step))
  {
    hide FlushItemsStep, ProducerStep, CallOf;
    match step
    case ProducerNext => ProducerStepShape(cfg, s); NoFlight(cfg, s, step);
    case FlushNext(id, c) => FlushStepLogs(cfg, s, step, s.pipe, s.flights[id], c);
    case DrainNext(c) => FlushStepLogs(cfg, s, step, s.pipe, s.producer.flight, c);
    case WakeNext(id, c) =>
      if s.pipe.wakes[id].Flushing? && !s.pipe.wakes[id].flight.pc.Returned? {
        FlushStepLogs(cfg, s, step, s.pipe, s.pipe.wakes[id].flight, c);
      } else {
        NoFlight(cfg, s, step);
      }
    case SkipLine(path, offset) => SkipCalls(cfg, s, step);
    case _ => NoFlight(cfg, s, step);
  }

  lemma SkipCalls(cfg: Config, s: State, step: Step)
    requires step.SkipLine?
    ensures CallOf(cfg, s, step) == SetCall(step.path, step.offset)
  {
  }

  lemma NoFlight(cfg: Config, s: State, step: Step)
    requires !step.SkipLine? && (FlightOf(s, step).Some? ==> FlightOf(s, step).value.pc.Returned?)
    ensures CallOf(cfg, s, step) == NoCall
  {
  }

  /**
   In every run and both modes, acked holds exactly the batches whose publish succeeded, dead those whose dead-letter
   write did and lost those whose write failed, in order, and the watermarks are those that were set, in order.
   */
  lemma {:induction false} LogsAreHonest(cfg: Config, wm: map<string, int>, trace: seq<Step>)
    requires Run(cfg, wm, trace).Some?
    ensures var p := Run(cfg, wm, trace).value.pipe;
            LogOf(cfg, wm, trace) == Log(p.acked, p.dead, p.lost, p.watermarks)
  {
    if trace != [] {
      var before := trace[..|trace| - 1];
      LogsAreHonest(cfg, wm, before);
      NextLogs(cfg, Run(cfg, wm, before).value, trace[|trace| - 1]);
      hide Next, After, CallOf;
    }
  }
}
