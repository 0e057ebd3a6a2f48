/**
 What the size trigger hands over, in both failure modes: a record that fits behind the buffer is buffered and starts
 no flush, a batch is handed over only for a record that does not fit, and so no batch could have held the record
 after it.
 */
module Batches {
  import opened Common
  import opened FlushProtocol
  import opened HandOff

  /** The record does not fit behind these within the byte limit. */
  predicate Overflows(cfg: Config, items: seq<Pending>, item: Pending) {
    cfg.maxBytes > 0 && Bytes(items) + |item.payload| > cfg.maxBytes
  }

  /** enqueue appends the record and does nothing else. */
  predicate Buffered(s: State, t: State, item: Pending) {
    && t.active.items == s.active.items + [item] && t.accepted == s.accepted + [item] && t.producer == Idle(Nil)
    && t.handed == s.handed && t.flights == s.flights && t.closes == s.closes && t.flushRunning == s.flushRunning
    && t.pipe == s.pipe
  }

  /** enqueue keeps the record in hand: behind a running flush, or after handing the whole buffer over. */
  predicate HandedFirst(s: State, t: State, item: Pending) {
    && t.accepted == s.accepted && Hand(t.producer) == Some(item) && t.pipe == s.pipe
    && if s.flushRunning then
         t.producer.Waiting? && t.producer.done == s.flushDone && t.active == s.active && t.handed == s.handed
       else
         && !t.producer.Waiting? && t.active.items == []
         && t.handed == s.handed + (if s.active.items == [] then [] else [s.active.items])
  }

  lemma SwapHandsFirst(s: State, cont: Cont)
    requires cont.Retry? || cont.Oversized?
    ensures HandedFirst(s, WaitForFlush(s, cont), cont.item)
  {
  }

  lemma EnqueueBodyDecides(cfg: Config, s: State, item: Pending)
    requires s.active.bytes == Bytes(s.active.items)
    ensures var t := EnqueueBody(cfg, s, item);
            if Overflows(cfg, s.active.items, item) then HandedFirst(s, t, item) else Buffered(s, t, item)
  {
    hide Bytes, WaitForFlush, HandedFirst;
    SwapHandsFirst(s, Retry(item));
    SwapHandsFirst(s, Oversized(item));
  }

  /** In every reachable state enqueue buffers a record at once exactly when it fits behind the buffer. */
  lemma EnqueueDecides(cfg: Config, wm: map<string, int>, trace: seq<Step>, item: Pending)
    requires Run(cfg, wm, trace).Some? && Run(cfg, wm, trace).value.producer == EnqBody(item)
    ensures var s := Run(cfg, wm, trace).value; var t := Next(cfg, s, ProducerNext);
            && t.Some?
            && if Overflows(cfg, s.active.items, item) then HandedFirst(s, t.value, item)
               else Buffered(s, t.value, item)
  {
    Reachable(cfg, wm, trace);
    hide Run, Bytes, Flatten, Buffered, HandedFirst, Overflows, EnqueueBody;
    EnqueueBodyDecides(cfg, Run(cfg, wm, trace).value, item);
  }

  // ---- No batch is handed over too early ------------------------------------------------------------------

  /** A record that waits for a swap does not fit, and an oversized one never does. */
  predicate WaitsWhenFull(cfg: Config, s: State) {
    match s.producer
    case Waiting(_, Retry(item)) =>
      Overflows(cfg, s.active.items, item) && |item.payload| <= cfg.maxBytes && s.active.items != []
    case Waiting(_, Oversized(item)) => 0 < cfg.maxBytes < |item.payload|
    case OversizedAppend(item) => 0 < cfg.maxBytes < |item.payload|
    case _ => true
  }

  /** The producer runs a timer trigger or shutdown. */
  predicate Asked(producer: Producer) {
    || producer.TrigBody? || producer.SyncTop?
    || (producer.Waiting? && (producer.cont.Trigger? || producer.cont.Sync?))
  }

  /** The step handed the buffer over, for a record in hand that does not fit behind it. */
  predicate StartedFor(cfg: Config, s: State, t: State) {
    && t.handed == s.handed + [s.active.items] && s.active.items != [] && t.active.items == []
    && t.accepted == s.accepted && Hand(s.producer).Some? && Hand(t.producer) == Hand(s.producer)
    && Overflows(cfg, s.active.items, Hand(s.producer).value)
    && (t.producer.OversizedAppend? || (t.producer.EnqTop? && |t.producer.item.payload| <= cfg.maxBytes))
  }

  lemma NoBytes(items: seq<Pending>)
    ensures items == [] ==> Bytes(items) == 0
  {
  }

  lemma AfterWaitFull(cfg: Config, s: State, cont: Cont)
    requires cont.Retry? || cont.Oversized?
    requires cont.Retry? ==> |cont.item.payload| <= cfg.maxBytes && s.active.items != []
    requires cont.Oversized? ==> 0 < cfg.maxBytes < |cont.item.payload|
    requires Overflows(cfg, s.active.items, cont.item) && Hand(s.producer) == Some(cont.item)
    ensures var t := WaitForFlush(s, cont);
            && WaitsWhenFull(cfg, t)
            && ((t.handed == s.handed && t.active == s.active) || StartedFor(cfg, s, t))
            && Hand(t.producer) == Some(cont.item) && t.accepted == s.accepted
            && !t.producer.EnqBody? && !t.producer.HibWait?
            && (t.producer.EnqTop? ==> |cont.item.payload| <= cfg.maxBytes && t.handed != s.handed)
  {
    hide Bytes;
  }

  lemma EnqueueBodyFull(cfg: Config, s: State, item: Pending)
    requires s.active.bytes == Bytes(s.active.items) && s.producer == EnqBody(item)
    ensures FullStep(cfg, s, EnqueueBody(cfg, s, item))
  {
    hide Bytes, WaitForFlush, StartedFor;
    NoBytes(s.active.items);
    if cfg.maxBytes > 0 && |item.payload| > cfg.maxBytes {
      AfterWaitFull(cfg, s, Oversized(item));
    } else if cfg.maxBytes > 0 && s.active.bytes > 0 && s.active.bytes + |item.payload| > cfg.maxBytes {
      AfterWaitFull(cfg, s, Retry(item));
    }
  }

  predicate FullStep(cfg: Config, s: State, t: State) {
    WaitsWhenFull(cfg, t) && (t.handed != s.handed ==> Asked(s.producer) || StartedFor(cfg, s, t))
  }

  lemma WaitingFull(cfg: Config, s: State)
    requires s.producer.Waiting? && WaitsWhenFull(cfg, s) && ProducerStep(cfg, s).Some?
    ensures FullStep(cfg, s, ProducerStep(cfg, s).value)
  {
    hide Bytes, WaitForFlush, StartedFor, Overflows;
    var cont := s.producer.cont;
    if cont.Retry? || cont.Oversized? {
      StillOverflows(cfg, s, cont);
      AfterWaitFull(cfg, s, cont);
    } else {
      WaitForFlushPlain(s, cont);
    }
  }

  lemma StillOverflows(cfg: Config, s: State, cont: Cont)
    requires s.producer.Waiting? && s.producer.cont == cont && WaitsWhenFull(cfg, s)
    ensures cont.Retry? || cont.Oversized? ==> Overflows(cfg, s.active.items, cont.item)
  {
  }

  lemma ProducerStepFull(cfg: Config, s: State)
    requires s.active.bytes == Bytes(s.active.items) && WaitsWhenFull(cfg, s) && ProducerStep(cfg, s).Some?
    ensures FullStep(cfg, s, ProducerStep(cfg, s).value)
  {
    hide Bytes, WaitForFlush, StartedFor, EnqueueBody, Overflows;
    match s.producer
    case EnqBody(item) => EnqueueBodyFull(cfg, s, item);
    case Waiting(done, cont) => WaitingFull(cfg, s);
    case OversizedAppend(item) => WaitForFlushPlain(Append(s, item), Finish);
    case TrigBody => WaitForFlushPlain(s, Trigger);
    case SyncTop => WaitForFlushPlain(s, Sync);
    case _ =>
  }

  lemma WaitForFlushPlain(s: State, cont: Cont)
    ensures cont.Finish? || cont.Trigger? || cont.Sync? ==>
              var t := WaitForFlush(s, cont);
              Hand(t.producer).None? && (cont.Finish? ==> t.handed == s.handed && t.active == s.active)
  {
  }

  /** Steps that are not the producer's own hand nothing over. */
  lemma OtherStepFull(cfg: Config, s: State, step: Step)
    requires WaitsWhenFull(cfg, s) && Next(cfg, s, step).Some? && !step.ProducerNext?
    ensures var t := Next(cfg, s, step).value;
            WaitsWhenFull(cfg, t) && t.handed == s.handed && t.active == s.active && t.accepted == s.accepted
  {
    hide FlushItemsStep, WakeStep, Overflows;
  }

  lemma {:induction false} FullAlways(cfg: Config, wm: map<string, int>, trace: seq<Step>)
    requires Run(cfg, wm, trace).Some?
    ensures WaitsWhenFull(cfg, Run(cfg, wm, trace).value)
  {
    if trace != [] {
      var before, step := trace[..|trace| - 1], trace[|trace| - 1];
      FullAlways(cfg, wm, before);
      Reachable(cfg, wm, before);
      var s := Run(cfg, wm, before).value;
      hide WaitsWhenFull, ProducerStep, Bytes, Flatten;
      if step.ProducerNext? {
        ProducerStepFull(cfg, s);
      } else {
        OtherStepFull(cfg, s, step);
      }
    }
  }

  /**
   In every run the buffer is handed over whole, and only by a timer trigger, by shutdown, or for a record in hand
   that does not fit behind it.
   */
  lemma StartsOnlyWhenFull(cfg: Config, wm: map<string, int>, trace: seq<Step>, step: Step)
    requires Run(cfg, wm, trace).Some? && Next(cfg, Run(cfg, wm, trace).value, step).Some?
    ensures var s := Run(cfg, wm, trace).value; var t := Next(cfg, s, step).value;
            t.handed != s.handed ==> step.ProducerNext? && (Asked(s.producer) || StartedFor(cfg, s, t))
  {
    FullAlways(cfg, wm, trace);
    Reachable(cfg, wm, trace);
    var s := Run(cfg, wm, trace).value;
    hide WaitsWhenFull, ProducerStep, Bytes, Flatten, Run, StartedFor;
    if step.ProducerNext? {
      ProducerStepFull(cfg, s);
    } else {
      OtherStepFull(cfg, s, step);
    }
  }

  // ---- No batch could have held the next record -----------------------------------------------------------

  /** How many records the first `k + 1` batches hold together. */
  function HandedBy(s: State, k: nat): nat
    requires k < |s.handed|
  {
    |Flatten(s.handed[..k + 1])|
  }

  /** Some record that batch `items` could not hold was given up by enqueue while it waited for hibernation to end. */
  ghost predicate GivenUp(cfg: Config, wm: map<string, int>, trace: seq<Step>, items: seq<Pending>) {
    exists j, item :: 0 <= j < |trace| && GivesUp(cfg, wm, trace[..j], trace[j], item) && Overflows(cfg, items, item)
  }

  predicate GivesUp(cfg: Config, wm: map<string, int>, before: seq<Step>, step: Step, item: Pending) {
    step.ProducerCancel? && Run(cfg, wm, before).Some? && Run(cfg, wm, before).value.producer == HibWait(item)
  }

  /** The batch could not hold the record that was accepted next, or one that was given up. */
  ghost predicate BatchFull(cfg: Config, wm: map<string, int>, trace: seq<Step>, s: State, k: nat)
    requires k < |s.handed|
  {
    HandedBy(s, k) < |s.accepted| ==>
      Overflows(cfg, s.handed[k], s.accepted[HandedBy(s, k)]) || GivenUp(cfg, wm, trace, s.handed[k])
  }

  /** With the buffer empty, the record that the newest batch could not hold is in hand, or was given up. */
  ghost predicate NewestFull(cfg: Config, wm: map<string, int>, trace: seq<Step>, s: State) {
    s.handed != [] && s.active.items == [] ==>
      var last := s.handed[|s.handed| - 1];
      || GivenUp(cfg, wm, trace, last)
      || (Hand(s.producer).Some? && Overflows(cfg, last, Hand(s.producer).value)
          && (s.producer.OversizedAppend?
              || (!s.producer.Waiting? && |Hand(s.producer).value.payload| <= cfg.maxBytes)))
  }

  ghost predicate AllFull(cfg: Config, wm: map<string, int>, trace: seq<Step>, s: State) {
    && !s.shuttingDown && !Asked(s.producer)
    && (forall k :: 0 <= k < |s.handed| ==> BatchFull(cfg, wm, trace, s, k))
    && NewestFull(cfg, wm, trace, s)
  }

  predicate SizeOnly(trace: seq<Step>) {
    forall j :: 0 <= j < |trace| ==> !trace[j].CallTrigger? && !trace[j].CallShutdown?
  }

  lemma GivenUpStays(cfg: Config, wm: map<string, int>, trace: seq<Step>, step: Step, items: seq<Pending>)
    requires GivenUp(cfg, wm, trace, items)
    ensures GivenUp(cfg, wm, trace + [step], items)
  {
    var longer := trace + [step];
    var j, item :| 0 <= j < |trace| && GivesUp(cfg, wm, trace[..j], trace[j], item) && Overflows(cfg, items, item);
    assert longer[..j] == trace[..j] && longer[j] == trace[j];
  }

  lemma {:induction false} FlattenGrows(batches: seq<seq<Pending>>, n: nat)
    requires n < |batches| && forall c :: 0 <= c < |batches| ==> batches[c] != []
    ensures |Flatten(batches[..n])| < |Flatten(batches)|
  {
    var before := batches[..|batches| - 1];
    if n < |before| {
      FlattenGrows(before, n);
      assert before[..n] == batches[..n];
    }
  }

  /** Only behind the newest batch, and with an empty buffer, is the next record still to come. */
  lemma NextToCome(cfg: Config, s: State, k: nat)
    requires Inv(cfg, s) && k < |s.handed| && HandedBy(s, k) >= |s.accepted|
    ensures k == |s.handed| - 1 && s.active.items == []
  {
    if k + 1 < |s.handed| {
      FlattenGrows(s.handed, k + 1);
    } else {
      assert s.handed[..k + 1] == s.handed;
    }
  }

  /** What a step of a size-only run can do to buffer and hand-off. */
  datatype Change = Kept | Accepted(item: Pending) | HandedOver

  predicate Changed(cfg: Config, s: State, t: State, change: Change) {
    match change
    case Kept => t.handed == s.handed && t.active == s.active && t.accepted == s.accepted
    case Accepted(item) =>
      && t.handed == s.handed && t.accepted == s.accepted + [item] && t.active.items == s.active.items + [item]
      && Hand(s.producer) == Some(item)
    case HandedOver => StartedFor(cfg, s, t)
  }

  lemma ProducerChange(cfg: Config, s: State) returns (change: Change)
    requires Inv(cfg, s) && WaitsWhenFull(cfg, s) && !Asked(s.producer) && ProducerStep(cfg, s).Some?
    ensures Changed(cfg, s, ProducerStep(cfg, s).value, change)
  {
    var t := ProducerStep(cfg, s).value;
    ProducerStepFull(cfg, s);
    ProducerStepShape(cfg, s);
    HandStays(cfg, s);
    hide ProducerStep, Bytes, Flatten, StartedFor, Overflows;
    if Appended(s, t) {
      assert t.accepted == s.accepted + [Hand(s.producer).value];
      change := Accepted(Hand(s.producer).value);
    } else if Started(s, t) {
      assert |t.handed| == |s.handed| + 1;
      change := HandedOver;
    } else {
      change := Kept;
    }
  }

  lemma StepChange(cfg: Config, s: State, step: Step) returns (change: Change)
    requires Inv(cfg, s) && WaitsWhenFull(cfg, s) && !Asked(s.producer) && Next(cfg, s, step).Some?
    ensures Changed(cfg, s, Next(cfg, s, step).value, change)
    ensures step.ProducerNext? || change == Kept
  {
    hide ProducerStep, Changed, WaitsWhenFull;
    if step.ProducerNext? {
      change := ProducerChange(cfg, s);
    } else {
      change := Kept;
      KeptByOthers(cfg, s, step);
    }
  }

  lemma KeptByOthers(cfg: Config, s: State, step: Step)
    requires WaitsWhenFull(cfg, s) && Next(cfg, s, step).Some? && !step.ProducerNext?
    ensures Changed(cfg, s, Next(cfg, s, step).value, Kept)
  {
    OtherStepFull(cfg, s, step);
  }

  lemma BatchesStayFull(cfg: Config, wm: map<string, int>, trace: seq<Step>, step: Step, s: State, t: State,
                        change: Change, k: nat)
    requires Inv(cfg, s) && Inv(cfg, t) && AllFull(cfg, wm, trace, s) && Changed(cfg, s, t, change)
    requires k < |t.handed|
    ensures BatchFull(cfg, wm, trace + [step], t, k)
  {
    hide Bytes, Flatten, Overflows, GivenUp, Inv;
    if k == |s.handed| {
      assert t.handed[..k + 1] == t.handed;
      HandedAll(cfg, t);
    } else {
      assert t.handed[..k + 1] == s.handed[..k + 1];
      assert BatchFull(cfg, wm, trace, s, k);
      if GivenUp(cfg, wm, trace, s.handed[k]) {
        GivenUpStays(cfg, wm, trace, step, s.handed[k]);
      } else if HandedBy(s, k) >= |s.accepted| {
        NextToCome(cfg, s, k);
        NoMoreThanAccepted(cfg, s, k);
      }
    }
  }

  /** With an empty buffer everything accepted was handed over. */
  lemma HandedAll(cfg: Config, s: State)
    requires Inv(cfg, s)
    ensures s.active.items == [] ==> |Flatten(s.handed)| == |s.accepted|
  {
    hide Flatten, Bytes;
  }

  lemma NoMoreThanAccepted(cfg: Config, s: State, k: nat)
    requires Inv(cfg, s) && k == |s.handed| - 1
    ensures HandedBy(s, k) <= |s.accepted|
  {
    assert s.handed[..k + 1] == s.handed;
    hide Flatten, Bytes;
  }

  /** While the buffer is empty behind a batch, the producer's own steps keep the record in hand, or append it. */
  lemma MoveStaysFull(cfg: Config, wm: map<string, int>, trace: seq<Step>, s: State)
    requires Inv(cfg, s) && AllFull(cfg, wm, trace, s) && s.handed != [] && s.active.items == []
    requires !GivenUp(cfg, wm, trace, s.handed[|s.handed| - 1]) && ProducerStep(cfg, s).Some?
    ensures var t := ProducerStep(cfg, s).value;
            t.active.items == [] ==> Hand(t.producer) == Hand(s.producer) && !t.producer.Waiting?
                                     && (s.producer.OversizedAppend? ==> t.producer.OversizedAppend?)
  {
    hide Flatten, GivenUp, BatchFull, WaitForFlush, Overflows;
    NoBytes(s.active.items);
    hide Bytes;
    if s.producer.OversizedAppend? {
      WaitForFlushPlain(Append(s, s.producer.item), Finish);
    }
  }

  lemma NewestStaysFull(cfg: Config, wm: map<string, int>, trace: seq<Step>, step: Step, s: State, t: State,
                        change: Change)
    requires Inv(cfg, s) && AllFull(cfg, wm, trace, s) && Changed(cfg, s, t, change)
    requires Run(cfg, wm, trace) == Some(s) && Next(cfg, s, step) == Some(t)
    requires step.ProducerNext? || change == Kept
    ensures NewestFull(cfg, wm, trace + [step], t)
  {
    hide Bytes, Flatten, Overflows, GivenUp, Inv, BatchFull, Run, ProducerStep;
    if t.handed != [] && t.active.items == [] && change == Kept {
      var last := s.handed[|s.handed| - 1];
      if GivenUp(cfg, wm, trace, last) {
        GivenUpStays(cfg, wm, trace, step, last);
      } else if step.ProducerNext? {
        MoveStaysFull(cfg, wm, trace, s);
      } else if step.ProducerCancel? {
        CancelGivesUp(cfg, wm, trace, s, t, last);
      } else {
        OthersKeepHand(cfg, s, step);
      }
    }
  }

  lemma OthersKeepHand(cfg: Config, s: State, step: Step)
    requires Next(cfg, s, step).Some? && !step.ProducerNext? && !step.ProducerCancel? && Hand(s.producer).Some?
    ensures Next(cfg, s, step).value.producer == s.producer
  {
    hide ProducerStep, FlushItemsStep, WakeStep;
  }

  lemma CancelGivesUp(cfg: Config, wm: map<string, int>, trace: seq<Step>, s: State, t: State, last: seq<Pending>)
    requires Run(cfg, wm, trace) == Some(s) && CancelStep(s) == Some(t)
    requires Hand(s.producer).Some? && Overflows(cfg, last, Hand(s.producer).value) && !s.producer.Waiting?
    ensures GivenUp(cfg, wm, trace + [ProducerCancel], last)
  {
    var longer := trace + [ProducerCancel];
    assert longer[..|trace|] == trace && longer[|trace|] == ProducerCancel;
    assert GivesUp(cfg, wm, longer[..|trace|], longer[|trace|], Hand(s.producer).value);
  }

  lemma NotAsked(cfg: Config, s: State, step: Step)
    requires Inv(cfg, s) && !s.shuttingDown && !Asked(s.producer) && Next(cfg, s, step).Some?
    requires !step.CallTrigger? && !step.CallShutdown?
    ensures var t := Next(cfg, s, step).value; !t.shuttingDown && !Asked(t.producer)
  {
    hide FlushItemsStep, WakeStep, ProducerStep, Core;
    if step.ProducerNext? {
      ProducerNotAsked(cfg, s);
    }
  }

  lemma WaitNotAsked(s: State, cont: Cont)
    requires !cont.Trigger? && !cont.Sync?
    ensures var t := WaitForFlush(s, cont); t.shuttingDown == s.shuttingDown && !Asked(t.producer)
  {
  }

  lemma BodyNotAsked(cfg: Config, s: State, item: Pending)
    ensures var t := EnqueueBody(cfg, s, item); t.shuttingDown == s.shuttingDown && !Asked(t.producer)
  {
    hide WaitForFlush;
    WaitNotAsked(s, Retry(item));
    WaitNotAsked(s, Oversized(item));
  }

  lemma ProducerNotAsked(cfg: Config, s: State)
    requires !s.shuttingDown && !Asked(s.producer) && !OnShutdownPath(s.producer) && ProducerStep(cfg, s).Some?
    ensures var t := ProducerStep(cfg, s).value; !t.shuttingDown && !Asked(t.producer)
  {
    hide WaitForFlush, EnqueueBody;
    match s.producer
    case EnqBody(item) => BodyNotAsked(cfg, s, item);
    case OversizedAppend(item) => WaitNotAsked(Append(s, item), Finish);
    case Waiting(_, cont) => WaitNotAsked(s, cont);
    case _ =>
  }

  lemma {:induction false} AllFullAlways(cfg: Config, wm: map<string, int>, trace: seq<Step>)
    requires Run(cfg, wm, trace).Some? && SizeOnly(trace)
    ensures AllFull(cfg, wm, trace, Run(cfg, wm, trace).value)
  {
    if trace != [] {
      var before, step := trace[..|trace| - 1], trace[|trace| - 1];
      var s, t := Run(cfg, wm, before).value, Run(cfg, wm, trace).value;
      assert before + [step] == trace;
      AllFullAlways(cfg, wm, before);
      FullAlways(cfg, wm, before);
      Reachable(cfg, wm, before);
      Reachable(cfg, wm, trace);
      hide Next, Inv, Changed, BatchFull, NewestFull, WaitsWhenFull, Asked;
      var change := StepChange(cfg, s, step);
      NotAsked(cfg, s, step);
      forall k | 0 <= k < |t.handed| ensures BatchFull(cfg, wm, trace, t, k) {
        BatchesStayFull(cfg, wm, before, step, s, t, change, k);
      }
      NewestStaysFull(cfg, wm, before, step, s, t, change);
    }
  }

  /**
   Without timer triggers and shutdown, every batch is as full as it could be: it could not have held the record that
   was accepted after it, unless enqueue gave up one that it could not hold, cancelled in hibernation.
   */
  lemma BatchesAreMaximal(cfg: Config, wm: map<string, int>, trace: seq<Step>, k: nat)
    requires Run(cfg, wm, trace).Some? && SizeOnly(trace) && k < |Run(cfg, wm, trace).value.handed|
    ensures var s := Run(cfg, wm, trace).value; var n := |Flatten(s.handed[..k + 1])|;
            n < |s.accepted| ==>
              Bytes(s.handed[k]) + |s.accepted[n].payload| > cfg.maxBytes > 0
              || GivenUp(cfg, wm, trace, s.handed[k])
  {
    AllFullAlways(cfg, wm, trace);
    hide Run, Flatten, Bytes, GivenUp;
    assert BatchFull(cfg, wm, trace, Run(cfg, wm, trace).value, k);
  }

  /** In a run that is never cancelled none is given up. */
  lemma UncancelledBatchesAreMaximal(cfg: Config, wm: map<string, int>, trace: seq<Step>, k: nat)
    requires Run(cfg, wm, trace).Some? && SizeOnly(trace) && k < |Run(cfg, wm, trace).value.handed|
    requires forall j :: 0 <= j < |trace| ==> !trace[j].ProducerCancel?
    ensures var s := Run(cfg, wm, trace).value; var n := |Flatten(s.handed[..k + 1])|;
            n < |s.accepted| ==> Bytes(s.handed[k]) + |s.accepted[n].payload| > cfg.maxBytes > 0
  {
    hide Run, Flatten, Bytes;
    BatchesAreMaximal(cfg, wm, trace, k);
  }
}
