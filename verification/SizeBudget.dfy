/**
 When every record offered to the flusher fits the batch budget, which marshalPublishPayload guarantees for
 0 < max_publish_bytes <= publish_batch.max_bytes, the oversized-record branch of enqueue is dead and the two
 buffers together never hold more than twice the budget.
 */
module SizeBudget {
  import opened Common
  import opened FlushProtocol
  import opened HandOff

  predicate Small(cfg: Config, item: Pending) {
    |item.payload| <= cfg.maxBytes
  }

  predicate SmallCont(cfg: Config, cont: Cont) {
    cont.Trigger? || cont.Sync? || (cont.Retry? && Small(cfg, cont.item))
  }

  /** The producer never stands on the branch for oversized records and holds a small record if any. */
  predicate SmallProducer(cfg: Config, producer: Producer) {
    match producer
    case EnqTop(item) => Small(cfg, item)
    case HibWait(item) => Small(cfg, item)
    case EnqBody(item) => Small(cfg, item)
    case OversizedAppend(_) => false
    case Waiting(_, cont) => SmallCont(cfg, cont)
    case _ => true
  }

  ghost predicate SmallState(cfg: Config, s: State) {
    SmallProducer(cfg, s.producer) && forall i :: 0 <= i < |s.accepted| ==> Small(cfg, s.accepted[i])
  }

  predicate SmallStep(cfg: Config, step: Step) {
    step.CallEnqueue? ==> Small(cfg, step.item)
  }

  lemma WaitForFlushSmall(cfg: Config, s: State, cont: Cont)
    requires SmallState(cfg, s) && SmallCont(cfg, cont)
    ensures SmallState(cfg, WaitForFlush(s, cont))
  {
  }

  lemma EnqueueBodySmall(cfg: Config, s: State, item: Pending)
    requires cfg.maxBytes > 0 && SmallState(cfg, s) && Small(cfg, item)
    ensures SmallState(cfg, EnqueueBody(cfg, s, item))
  {
    hide WaitForFlush;
    WaitForFlushSmall(cfg, s, Retry(item));
  }

  lemma ProducerStepSmall(cfg: Config, s: State)
    requires cfg.maxBytes > 0 && SmallState(cfg, s) && ProducerStep(cfg, s).Some?
    ensures SmallState(cfg, ProducerStep(cfg, s).value)
  {
    hide WaitForFlush, EnqueueBody;
    match s.producer
    case EnqBody(item) => EnqueueBodySmall(cfg, s, item);
    case TrigBody => WaitForFlushSmall(cfg, s, Trigger);
    case SyncTop => WaitForFlushSmall(cfg, s, Sync);
    case Waiting(done, cont) => WaitForFlushSmall(cfg, s, cont);
    case _ =>
  }

  lemma NextSmall(cfg: Config, s: State, step: Step)
    requires cfg.maxBytes > 0 && SmallState(cfg, s) && SmallStep(cfg, step) && Next(cfg, s, step).Some?
    ensures SmallState(cfg, Next(cfg, s, step).value)
  {
    hide ProducerStep, WakeStep, FlushItemsStep;
    if step.ProducerNext? {
      ProducerStepSmall(cfg, s);
    }
  }

  lemma {:induction false} SmallAlways(cfg: Config, wm: map<string, int>, trace: seq<Step>)
    requires cfg.maxBytes > 0 && (forall k :: 0 <= k < |trace| ==> SmallStep(cfg, trace[k]))
    requires Run(cfg, wm, trace).Some?
    ensures SmallState(cfg, Run(cfg, wm, trace).value)
  {
    if trace != [] {
      SmallAlways(cfg, wm, trace[..|trace| - 1]);
      NextSmall(cfg, Run(cfg, wm, trace[..|trace| - 1]).value, trace[|trace| - 1]);
    }
  }

  lemma FitsSmall(cfg: Config, batch: seq<Pending>)
    requires cfg.maxBytes > 0 && Fits(cfg, batch) && (|batch| == 1 ==> Small(cfg, batch[0]))
    ensures Bytes(batch) <= cfg.maxBytes
  {
    if |batch| == 1 {
      assert batch == [] + [batch[0]];
      BytesAppend([], batch[0]);
    }
  }

  /** The bytes of the flush under way. */
  function InFlightBytes(s: State): nat {
    if s.flushDone in s.flights then Bytes(s.flights[s.flushDone].batch) else 0
  }

  lemma TwoBuffersBudget(cfg: Config, wm: map<string, int>, trace: seq<Step>)
    requires cfg.maxBytes > 0 && Run(cfg, wm, trace).Some?
    requires forall k :: 0 <= k < |trace| ==> SmallStep(cfg, trace[k])
    ensures var s := Run(cfg, wm, trace).value;
            && s.active.bytes <= cfg.maxBytes && InFlightBytes(s) <= cfg.maxBytes
            && s.active.bytes + InFlightBytes(s) <= 2 * cfg.maxBytes
            && !s.producer.OversizedAppend?
            && (s.producer.EnqBody? ==> |s.producer.item.payload| <= cfg.maxBytes)
  {
    SmallAlways(cfg, wm, trace);
    Reachable(cfg, wm, trace);
    var s := Run(cfg, wm, trace).value;
    assert |s.active.items| == 1 ==> s.active.items[0] == s.accepted[|s.accepted| - 1];
    FitsSmall(cfg, s.active.items);
    if s.flushDone in s.flights {
      var batch := s.handed[s.flushDone];
      if |batch| == 1 {
        assert s.flushDone == |s.handed| - 1;
        assert Flatten(s.handed) == Flatten(s.handed[..|s.handed| - 1]) + batch;
        assert batch[0] == s.accepted[|Flatten(s.handed)| - 1];
      }
      FitsSmall(cfg, batch);
    }
  }
}
