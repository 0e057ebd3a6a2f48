/**
 The Pipeline object: flushItems with its hibernate and dead-letter outcomes, run without interruption, is the
 step system's flush run to its end; and process, which publishes before it moves a watermark.
 */
module Pipeline {
  import opened Common
  import FP = FlushProtocol
  import opened FlushProtocol
  import R = Retry
  import S = SizeBudget
  import T = Truncate
  import W = Watermark

  /** What the environment decides about one flushItems call; `failingSet` is the watermark update that fails. */
  datatype Env = Env(publishOk: bool, writeOk: bool, failingSet: nat)

  function ChoiceAt(env: Env, pc: FlushPc): Choice {
    match pc
    case Publishing => if env.publishOk then Ok else Fail
    case Failed => if env.writeOk then Ok else Fail
    case Advancing(i, _) => if i == env.failingSet then Fail else Ok
    case _ => Ok
  }

  /** How many steps a flush can still make. */
  function StepsLeft(f: Flight): nat {
    match f.pc
    case Publishing => |f.batch| + 6
    case Failed => |f.batch| + 5
    case Advancing(i, _) => if i <= |f.batch| then |f.batch| - i + 4 else 3
    case Counting => 2
    case Resetting => 2
    case Limit(_) => 1
    case Exiting => 1
    case Returned(_) => 0
  }

  /** The flush run to its end: every step brings the end nearer, so flushItems always returns. */
  function RunToEnd(cfg: Config, p: Pipe, f: Flight, env: Env): (r: (Pipe, Err))
    decreases StepsLeft(f)
  {
    if f.pc.Returned? then (p, f.pc.err)
    else
      var (q, g) := FlushItemsStep(cfg, p, f, ChoiceAt(env, f.pc));
      RunToEnd(cfg, q, g, env)
  }

  function MarkAll(watermarks: map<string, int>, items: seq<Pending>): map<string, int> {
    if items == [] then watermarks
    else
      var last := items[|items| - 1];
      MarkAll(watermarks, items[..|items| - 1])[last.path := last.offset]
  }

  /** A flush that could not publish, in dead_letter mode. */
  lemma FailedFirst(cfg: Config, p: Pipe, items: seq<Pending>, env: Env)
    requires cfg.mode == DeadLetter
    ensures RunToEnd(cfg, p, Flight(items, Failed), env) ==
            if env.writeOk then RunToEnd(cfg, p.(dead := p.dead + items), Flight(items, Advancing(0, true)), env)
            else (p.(lost := p.lost + items, outcomes := p.outcomes + [Errored]), DeadLetterErr)
  {
  }

  lemma PublishingFirst(cfg: Config, p: Pipe, items: seq<Pending>, env: Env)
    ensures RunToEnd(cfg, p, Flight(items, Publishing), env) ==
            if env.publishOk then RunToEnd(cfg, p.(acked := p.acked + items), Flight(items, Advancing(0, false)), env)
            else if cfg.mode == DeadLetter then RunToEnd(cfg, p, Flight(items, Failed), env)
            else
              var q := FP.EnterHibernate(cfg, p, items);
              (q.(outcomes := q.outcomes + [Hibernated]), Nil)
  {
    hide FP.EnterHibernate;
    var c := ChoiceAt(env, Publishing);
    var (q, g) := FlushItemsStep(cfg, p, Flight(items, Publishing), c);
    assert RunToEnd(cfg, p, Flight(items, Publishing), env) == RunToEnd(cfg, q, g, env);
    if c == Fail && cfg.mode == Hibernate {
      var (q', g') := FlushItemsStep(cfg, q, g, ChoiceAt(env, Failed));
      assert RunToEnd(cfg, q, g, env) == RunToEnd(cfg, q', g', env);
    }
  }

  class Pipeline {
    const cfg: Config
    var hibernating: bool
    var hibernateBatch: seq<Pending>
    var hibernateWakeRunning: bool
    var wakes: map<nat, Wake>
    var spawned: nat
    var consecutiveDLQ: nat
    var watermarks: map<string, int>
    ghost var acked: seq<Pending>
    ghost var dead: seq<Pending>
    ghost var lost: seq<Pending>
    ghost var outcomes: seq<Outcome>

    ghost function View(): Pipe
      reads this
    {
      Pipe(hibernating, hibernateBatch, hibernateWakeRunning, wakes, spawned, consecutiveDLQ, watermarks,
           acked, dead, lost, outcomes)
    }

    constructor (cfg: Config, watermarks: map<string, int>)
      ensures this.cfg == cfg && View() == Init(watermarks).pipe
    {
      this.cfg := cfg;
      hibernating, hibernateBatch, hibernateWakeRunning := false, [], false;
      wakes, spawned, consecutiveDLQ := map[], 0, 0;
      this.watermarks := watermarks;
      acked, dead, lost, outcomes := [], [], [], [];
    }

    method EnterHibernate(batch: seq<Pending>)
      modifies this
      ensures View() == FP.EnterHibernate(cfg, old(View()), batch)
    {
      if |batch| > 0 {
        hibernateBatch := batch;
      }
      if hibernating {
        return;
      }
      hibernating := true;
      if cfg.wakeEnabled && !hibernateWakeRunning {
        hibernateWakeRunning := true;
        wakes := wakes[spawned := Sleep];
        spawned := spawned + 1;
      }
    }

    method ExitHibernate()
      modifies this
      ensures View() == FP.ExitHibernate(old(View()))
    {
      if !hibernating {
        return;
      }
      hibernating := false;
      hibernateBatch := [];
    }

    /** The update in memory happens even when persisting it fails. */
    method AdvanceWatermarks(items: seq<Pending>, failingSet: nat) returns (err: Err)
      modifies this`watermarks
      ensures err == if failingSet < |items| then WatermarkErr else Nil
      ensures watermarks == MarkAll(old(watermarks), if failingSet < |items| then items[..failingSet + 1] else items)
    {
      for i := 0 to |items|
        invariant i <= failingSet
        invariant watermarks == MarkAll(old(watermarks), items[..i])
      {
        assert items[..i + 1][..i] == items[..i];
        watermarks := watermarks[items[i].path := items[i].offset];
        if i == failingSet {
          return WatermarkErr;
        }
      }
      assert items[..|items|] == items;
      err := Nil;
    }

    method HandleDeadLetterFlush(items: seq<Pending>, env: Env) returns (err: Err)
      requires cfg.mode == DeadLetter && items != []
      modifies this
      ensures (View(), err) == RunToEnd(cfg, old(View()), Flight(items, Failed), env)
    {
      hide RunToEnd, FP.EnterHibernate, MarkAll, FlushItemsStep;
      ghost var before := View();
      FailedFirst(cfg, before, items, env);
      if !env.writeOk {
        lost, outcomes := lost + items, outcomes + [Errored];
        return DeadLetterErr;
      }
      dead := dead + items;
      err := AdvanceWatermarks(items, env.failingSet);
      FinishAdvancing(cfg, before.(dead := dead), items, 0, true, env);
      assert items[0..] == items;
      if err != Nil {
        outcomes := outcomes + [Errored];
        return;
      }
      consecutiveDLQ := consecutiveDLQ + 1;
      if consecutiveDLQ >= cfg.dlqLimit {
        EnterHibernate([]);
      }
      outcomes := outcomes + [DeadLettered];
    }

    /** flushItems: nothing for an empty batch, else the flush of the step system run to its end. */
    method FlushItems(items: seq<Pending>, env: Env) returns (err: Err)
      modifies this
      ensures items == [] ==> View() == old(View()) && err == Nil
      ensures items != [] ==> (View(), err) == RunToEnd(cfg, old(View()), Flight(items, Publishing), env)
    {
      if |items| == 0 {
        return Nil;
      }
      hide RunToEnd, FP.EnterHibernate, FP.ExitHibernate, MarkAll, FlushItemsStep;
      ghost var before := View();
      if !env.publishOk {
        PublishingFirst(cfg, before, items, env);
        if cfg.mode == Hibernate {
          EnterHibernate(items);
          outcomes := outcomes + [Hibernated];
          return Nil;
        }
        err := HandleDeadLetterFlush(items, env);
        return;
      }
      acked := acked + items;
      err := AdvanceWatermarks(items, env.failingSet);
      PublishedRun(cfg, before, items, env);
      assert View() == before.(acked := acked, watermarks := watermarks);
      if err != Nil {
        outcomes := outcomes + [Errored];
        return;
      }
      consecutiveDLQ := 0;
      assert View() == before.(acked := acked, watermarks := watermarks, dlq := 0);
      ExitHibernate();
      outcomes := outcomes + [Succeeded];
    }

    method RetryHibernateBatch(env: Env)
      modifies this
      ensures View() == Retried(cfg, old(View()), env).0
    {
      if !hibernating {
        return;
      }
      var batch := hibernateBatch;
      if |batch| == 0 {
        return;
      }
      var err := FlushItems(batch, env);
    }

    /** The flush of the retained batch at shutdown. */
    method DrainHibernateBatch(env: Env) returns (err: Err)
      modifies this
      ensures (View(), err) == Retried(cfg, old(View()), env)
    {
      if !hibernating {
        return Nil;
      }
      var batch := hibernateBatch;
      if |batch| == 0 {
        return Nil;
      }
      err := FlushItems(batch, env);
    }

    /** `schedule` has an entry for each tick of the timer; at its end the sleep is cancelled. */
    method RunHibernateWakeLoop(id: nat, schedule: seq<Env>)
      modifies this
      ensures var q := WakeRounds(cfg, old(View()), schedule);
              View() == q.(wakeRunning := false, wakes := q.wakes - {id})
    {
      hide Retried, MarkAll, RunToEnd;
      var round := 0;
      while round < |schedule| && hibernating
        invariant round <= |schedule|
        invariant WakeRounds(cfg, View(), schedule[round..]) == WakeRounds(cfg, old(View()), schedule)
      {
        assert schedule[round..][1..] == schedule[round + 1..];
        RetryHibernateBatch(schedule[round]);
        round := round + 1;
      }
      hibernateWakeRunning := false;
      wakes := wakes - {id};
    }
  }

  // ---- The wake loop, when nothing else runs ------------------------------------------------------------

  /** retryHibernateBatch */
  function Retried(cfg: Config, p: Pipe, env: Env): (Pipe, Err) {
    if !p.hibernating || p.retained == [] then (p, Nil)
    else RunToEnd(cfg, p, Flight(p.retained, Publishing), env)
  }

  /** The rounds of the wake loop, one environment each, until hibernation is over or the sleep is cancelled. */
  function WakeRounds(cfg: Config, p: Pipe, schedule: seq<Env>): Pipe
    decreases |schedule|
  {
    if schedule == [] || !p.hibernating then p
    else WakeRounds(cfg, Retried(cfg, p, schedule[0]).0, schedule[1..])
  }

  /**
   The wake loop publishes the retained batch once, in the first round whose publish and watermark updates
   succeed, and ends hibernation with it; while publishes fail it loses nothing and moves no watermark.
   */
  lemma {:induction false} WakeLoopDelivers(cfg: Config, p: Pipe, schedule: seq<Env>)
    requires cfg.mode == Hibernate && p.hibernating && p.retained != []
    requires forall k :: 0 <= k < |schedule| && schedule[k].publishOk ==> schedule[k].failingSet >= |p.retained|
    ensures var q := WakeRounds(cfg, p, schedule);
            if exists k :: 0 <= k < |schedule| && schedule[k].publishOk then
              && !q.hibernating && q.retained == [] && q.acked == p.acked + p.retained
              && q.watermarks == MarkAll(p.watermarks, p.retained)
            else
              && q.hibernating && q.retained == p.retained && q.acked == p.acked && q.watermarks == p.watermarks
    decreases |schedule|
  {
    hide RunToEnd;
    if schedule != [] {
      PublishingFirst(cfg, p, p.retained, schedule[0]);
      var q := Retried(cfg, p, schedule[0]).0;
      if schedule[0].publishOk {
        PublishedRun(cfg, p, p.retained, schedule[0]);
        assert WakeRounds(cfg, q, schedule[1..]) == q;
      } else {
        WakeLoopDelivers(cfg, q, schedule[1..]);
        assert forall k :: 0 < k < |schedule| ==> schedule[k] == schedule[1..][k - 1];
      }
    }
  }

  lemma MarkAllFirst(watermarks: map<string, int>, items: seq<Pending>)
    requires items != []
    ensures MarkAll(watermarks, items) == MarkAll(watermarks[items[0].path := items[0].offset], items[1..])
  {
    if |items| > 1 {
      MarkAllFirst(watermarks, items[..|items| - 1]);
      assert items[1..][..|items| - 2] == items[..|items| - 1][1..];
    }
  }

  /** What is left of a flush once its watermarks are set. */
  function AfterAdvancing(cfg: Config, p: Pipe, items: seq<Pending>, dead: bool): Pipe {
    if dead then
      var q := p.(dlq := p.dlq + 1);
      var r := if q.dlq >= cfg.dlqLimit then FP.EnterHibernate(cfg, q, []) else q;
      r.(outcomes := r.outcomes + [DeadLettered])
    else
      var q := FP.ExitHibernate(p.(dlq := 0));
      q.(outcomes := q.outcomes + [Succeeded])
  }

  /** The watermark steps of a flush, from item `i` on, in closed form. */
  lemma {:induction false} FinishAdvancing(cfg: Config, p: Pipe, items: seq<Pending>, i: nat, dead: bool, env: Env)
    requires i <= |items| && i <= env.failingSet
    ensures RunToEnd(cfg, p, Flight(items, Advancing(i, dead)), env) ==
            if env.failingSet < |items| then
              var marks := MarkAll(p.watermarks, items[i..env.failingSet + 1]);
              (p.(watermarks := marks, outcomes := p.outcomes + [Errored]), WatermarkErr)
            else (AfterAdvancing(cfg, p.(watermarks := MarkAll(p.watermarks, items[i..])), items, dead), Nil)
    decreases |items| - i
  {
    if i < |items| {
      var q := p.(watermarks := p.watermarks[items[i].path := items[i].offset]);
      if i < env.failingSet {
        FinishAdvancing(cfg, q, items, i + 1, dead, env);
        var rest := if env.failingSet < |items| then items[i..env.failingSet + 1] else items[i..];
        MarkAllFirst(p.watermarks, rest);
        assert rest[1..] == if env.failingSet < |items| then items[i + 1..env.failingSet + 1] else items[i + 1..];
      } else {
        assert items[i..i + 1] == [items[i]];
        assert MarkAll(p.watermarks, [items[i]]) == q.watermarks;
      }
    } else {
      assert items[i..] == [];
      FinishEnd(cfg, p, items, dead, env);
    }
  }

  /** A flush whose publish succeeds, in closed form. */
  lemma PublishedRun(cfg: Config, p: Pipe, items: seq<Pending>, env: Env)
    requires env.publishOk
    ensures var q := p.(acked := p.acked + items);
            RunToEnd(cfg, p, Flight(items, Publishing), env) ==
            if env.failingSet < |items| then
              (q.(watermarks := MarkAll(p.watermarks, items[..env.failingSet + 1]), outcomes := p.outcomes + [Errored]),
               WatermarkErr)
            else (AfterAdvancing(cfg, q.(watermarks := MarkAll(p.watermarks, items)), items, false), Nil)
  {
    hide RunToEnd, MarkAll, AfterAdvancing;
    PublishingFirst(cfg, p, items, env);
    FinishAdvancing(cfg, p.(acked := p.acked + items), items, 0, false, env);
    assert items[0..] == items;
  }

  lemma FinishEnd(cfg: Config, p: Pipe, items: seq<Pending>, dead: bool, env: Env)
    ensures RunToEnd(cfg, p, Flight(items, Advancing(|items|, dead)), env)
            == (AfterAdvancing(cfg, p, items, dead), Nil)
  {
    hide FP.EnterHibernate, FP.ExitHibernate;
    var f := Flight(items, if dead then Counting else Resetting);
    assert FlushItemsStep(cfg, p, Flight(items, Advancing(|items|, dead)), ChoiceAt(env, Advancing(|items|, dead)))
        == (p, f);
    var (q, g) := FlushItemsStep(cfg, p, f, ChoiceAt(env, f.pc));
    assert RunToEnd(cfg, p, f, env) == RunToEnd(cfg, q, g, env);
    var (q', g') := FlushItemsStep(cfg, q, g, ChoiceAt(env, g.pc));
    assert RunToEnd(cfg, q, g, env) == RunToEnd(cfg, q', g', env);
  }

  /**
   A flush that returns nil left every record of its batch acknowledged, dead-lettered or retained, with the
   watermarks moved exactly in the first two cases.
   */
  lemma NilMeansKept(cfg: Config, p: Pipe, items: seq<Pending>, env: Env)
    requires items != []
    ensures var (q, err) := RunToEnd(cfg, p, Flight(items, Publishing), env);
            err == Nil ==>
              || (q.acked == p.acked + items && q.watermarks == MarkAll(p.watermarks, items)
                  && q.dlq == 0 && !q.hibernating)
              || (q.dead == p.dead + items && q.watermarks == MarkAll(p.watermarks, items) && q.dlq == p.dlq + 1)
              || (q.retained == items && q.watermarks == p.watermarks && q.hibernating)
  {
    hide RunToEnd;
    assert items[0..] == items;
    PublishingFirst(cfg, p, items, env);
    if env.publishOk {
      FinishAdvancing(cfg, p.(acked := p.acked + items), items, 0, false, env);
    } else if cfg.mode == DeadLetter {
      FailedFirst(cfg, p, items, env);
      FinishAdvancing(cfg, p.(dead := p.dead + items), items, 0, true, env);
    }
  }

  lemma OneStep(cfg: Config, s: State, step: Step)
    ensures Exec(cfg, s, [step]) == Next(cfg, s, step)
  {
    hide Next;
    assert [step][..0] == [];
    assert Exec(cfg, s, [step][..0]) == Option.Some(s);
  }

  lemma OneStepLess(cfg: Config, p: Pipe, f: Flight, env: Env)
    requires !f.pc.Returned?
    ensures var (q, g) := FlushItemsStep(cfg, p, f, ChoiceAt(env, f.pc));
            g.batch == f.batch && StepsLeft(g) < StepsLeft(f) && RunToEnd(cfg, p, f, env) == RunToEnd(cfg, q, g, env)
  {
    hide FP.EnterHibernate, FP.ExitHibernate;
  }

  /** The uninterrupted flush is one interleaving of the step system: FlushNext steps of that flush alone. */
  lemma {:induction false} RunsInTheSystem(cfg: Config, s: State, id: nat, env: Env) returns (trace: seq<Step>)
    requires id in s.flights
    ensures forall k :: 0 <= k < |trace| ==> trace[k].FlushNext? && trace[k].id == id
    ensures var (p, err) := RunToEnd(cfg, s.pipe, s.flights[id], env);
            Exec(cfg, s, trace)
            == Option.Some(s.(pipe := p, flights := s.flights[id := s.flights[id].(pc := Returned(err))]))
    decreases StepsLeft(s.flights[id])
  {
    var f := s.flights[id];
    if f.pc.Returned? {
      assert s.flights[id := f] == s.flights;
      return [];
    }
    var (q, g) := FlushItemsStep(cfg, s.pipe, f, ChoiceAt(env, f.pc));
    var t := s.(pipe := q, flights := s.flights[id := g]);
    var step := FlushNext(id, ChoiceAt(env, f.pc));
    OneStep(cfg, s, step);
    OneStepLess(cfg, s.pipe, f, env);
    hide RunToEnd, FlushItemsStep, StepsLeft, Exec, Next;
    var rest := RunsInTheSystem(cfg, t, id, env);
    ExecConcat(cfg, s, [step], rest);
    trace := [step] + rest;
    var (p, err) := RunToEnd(cfg, q, g, env);
    assert t.flights[id := g.(pc := Returned(err))] == s.flights[id := f.(pc := Returned(err))];
  }

  // ---- process, with publish_batch off --------------------------------------------------------------------

  datatype OnError = DropLine | Wrap | FailRun

  /**
   A parser event with what transform, filter and enrichment make of it; `keys` is the order in which a range over
   its record would go.
   */
  datatype Event = Event(path: string, offset: int, inode: nat, transformed: Option<T.Fields>, wrapped: T.Fields,
                         matches: bool, keys: seq<string>)

  /** The record that would be published: the transformed or the wrapped one, with the path of its file. */
  function RecordOf(event: Event): T.Fields {
    (if event.transformed.Some? then event.transformed.value else event.wrapped)["_path" := T.Str(event.path)]
  }

  /** The record carries the path of the event's file and is otherwise what transform, or the wrapping, made of it. */
  predicate CarriesEvent(fields: T.Fields, event: Event) {
    var base := if event.transformed.Some? then event.transformed.value else event.wrapped;
    && "_path" in fields && fields["_path"] == T.Str(event.path)
    && fields.Keys == base.Keys + {"_path"}
    && forall key :: key in base && key != "_path" ==> fields[key] == base[key]
  }

  /** What is sent for an event: a record that carries it, or a cut of one. */
  ghost predicate SentFor(fields: T.Fields, event: Event, suffix: string) {
    CarriesEvent(fields, event) || exists whole :: CarriesEvent(whole, event) && T.CutSomewhere(fields, whole, suffix)
  }

  predicate Ranged(event: Event) {
    T.IsRange(RecordOf(event), event.keys)
  }

  /** How one event ends: on its way to the sink, or dropped, with or without an error. */
  datatype Fate = ToSink(payload: T.Payload) | Dropped | Rejected(err: Err)

  class Processor {
    const onError: OnError
    const maxPublishBytes: int
    const truncateField: string
    const truncateSuffix: string
    const initialBackoff: int
    const maxBackoff: int
    const maxAttempts: nat
    const sink: R.Sink
    const store: W.Store

    constructor (onError: OnError, maxPublishBytes: int, truncateField: string, truncateSuffix: string,
                 initialBackoff: int, maxBackoff: int, maxAttempts: nat, sink: R.Sink, store: W.Store)
      ensures this.sink == sink && this.store == store && this.onError == onError
      ensures this.maxPublishBytes == maxPublishBytes && this.truncateField == truncateField
      ensures this.truncateSuffix == truncateSuffix && this.initialBackoff == initialBackoff
      ensures this.maxBackoff == maxBackoff && this.maxAttempts == maxAttempts
    {
      this.onError, this.maxPublishBytes := onError, maxPublishBytes;
      this.truncateField, this.truncateSuffix := truncateField, truncateSuffix;
      this.initialBackoff, this.maxBackoff, this.maxAttempts := initialBackoff, maxBackoff, maxAttempts;
      this.sink, this.store := sink, store;
    }

    /** Marshalling within the size budget: as it is, cut as little as possible, or refused. */
    ghost predicate MarshalledTo(fields: T.Fields, keys: seq<string>, fate: Fate) {
      if maxPublishBytes <= 0 || T.JsonSize(fields) <= maxPublishBytes then
        fate == ToSink(T.Payload(fields, T.JsonSize(fields)))
      else
        match fate
        case ToSink(payload) =>
          && payload.size <= maxPublishBytes
          && T.CutOutcome(fields, maxPublishBytes, truncateField, truncateSuffix, keys, payload, true, Nil)
        case Rejected(err) =>
          && err == OversizeErr
          && exists payload ::
               T.CutOutcome(fields, maxPublishBytes, truncateField, truncateSuffix, keys, payload, false, err)
        case Dropped => false
    }

    ghost predicate PreparedAs(event: Event, fate: Fate) {
      if event.transformed.None? && onError == FailRun then fate == Rejected(TransformErr)
      else if (event.transformed.None? && onError == DropLine) || !event.matches then fate == Dropped
      else MarshalledTo(RecordOf(event), event.keys, fate)
    }

    /** Transform, filter and marshal: what is to become of the event. */
    method Prepare(event: Event) returns (fate: Fate)
      requires Ranged(event)
      ensures PreparedAs(event, fate)
    {
      var fields: T.Fields := map[];
      match event.transformed {
        case Some(f) => fields := f;
        case None =>
          match onError {
            case DropLine => return Dropped;
            case FailRun => return Rejected(TransformErr);
            case Wrap => fields := event.wrapped;
          }
      }
      if !event.matches {
        return Dropped;
      }
      var record := new T.Record(fields);
      record.Set("_path", T.Str(event.path));
      assert record.fields == RecordOf(event);
      hide T.JsonSize, T.CutOutcome;
      var payload, truncated, err :=
        T.MarshalPublishPayload(record, maxPublishBytes, truncateField, truncateSuffix, event.keys);
      if maxPublishBytes > 0 && T.JsonSize(record.fields) > maxPublishBytes {
        T.CutExactly(record.fields, maxPublishBytes, truncateField, truncateSuffix, event.keys, payload, truncated,
                     err);
      }
      if err != Nil {
        return Rejected(OversizeErr);
      }
      fate := ToSink(payload);
    }

    /** A record that fits is sent as it is; any other is sent cut. */
    lemma SentCarriesEvent(event: Event, payload: T.Payload)
      requires PreparedAs(event, ToSink(payload))
      ensures SentFor(payload.fields, event, truncateSuffix)
      ensures maxPublishBytes <= 0 || T.JsonSize(RecordOf(event)) <= maxPublishBytes ==>
                CarriesEvent(payload.fields, event)
    {
      hide T.JsonSize, T.Longest, T.TrialOrder, T.CutSomewhere;
      var fields := RecordOf(event);
      assert CarriesEvent(fields, event);
      if maxPublishBytes > 0 && T.JsonSize(fields) > maxPublishBytes {
        var order := T.TrialOrder(fields, truncateField, event.keys);
        var i: nat :| i < |order| && T.LongestCut(payload, fields, maxPublishBytes, order[i], truncateSuffix);
        T.LongestIsCut(payload, fields, maxPublishBytes, order[i], truncateSuffix);
      }
    }

    /** The item that process offers to the flusher for some event. */
    ghost predicate Offered(item: Pending, encode: T.Payload -> seq<byte>) {
      exists event, payload ::
        PreparedAs(event, ToSink(payload)) && item == Pending(encode(payload), event.path, event.offset, event.inode)
    }

    /** Marshalling keeps every offered record within max_publish_bytes. */
    lemma OfferedIsSmall(item: Pending, encode: T.Payload -> seq<byte>)
      requires maxPublishBytes > 0 && Offered(item, encode) && forall p :: |encode(p)| == p.size
      ensures |item.payload| <= maxPublishBytes
    {
      hide T.JsonSize, T.CutOutcome;
      var event, payload :|
        PreparedAs(event, ToSink(payload)) && item == Pending(encode(payload), event.path, event.offset, event.inode);
      assert |encode(payload)| == payload.size;
    }

    /**
     With 0 < max_publish_bytes <= max_bytes, and only process offering records, the flusher never takes the branch
     for oversized records and its two buffers never hold more than twice max_bytes.
     */
    lemma OfferedRunsFit(cfg: Config, wm: map<string, int>, trace: seq<Step>, encode: T.Payload -> seq<byte>)
      requires 0 < maxPublishBytes <= cfg.maxBytes && Run(cfg, wm, trace).Some? && forall p :: |encode(p)| == p.size
      requires forall k :: 0 <= k < |trace| && trace[k].CallEnqueue? ==> Offered(trace[k].item, encode)
      ensures var s := Run(cfg, wm, trace).value;
              && s.active.bytes + S.InFlightBytes(s) <= 2 * cfg.maxBytes
              && !s.producer.OversizedAppend?
    {
      hide Offered, Run;
      forall k | 0 <= k < |trace| && trace[k].CallEnqueue? ensures S.SmallStep(cfg, trace[k]) {
        OfferedIsSmall(trace[k].item, encode);
      }
      S.TwoBuffersBudget(cfg, wm, trace);
    }

    /** The line is skipped after a transform error, or filtered out. */
    predicate Drops(event: Event) {
      if event.transformed.None? && onError != Wrap then onError == DropLine else !event.matches
    }

    /** The event's record goes to the sink, in full or cut. */
    ghost predicate Sends(event: Event) {
      && !Drops(event) && (event.transformed.Some? || onError == Wrap)
      && var fields := RecordOf(event);
         || maxPublishBytes <= 0 || T.JsonSize(fields) <= maxPublishBytes
         || T.CanBeCut(fields, maxPublishBytes, truncateField, truncateSuffix, event.keys)
    }

    /** What becomes of an event is decided before it is processed. */
    lemma FateExactly(event: Event, fate: Fate)
      requires PreparedAs(event, fate)
      ensures fate.Dropped? <==> Drops(event)
      ensures fate.ToSink? <==> Sends(event)
      ensures fate.Rejected? ==> fate.err != Nil
    {
      hide T.JsonSize, T.CutOutcome, T.CanBeCut;
      var fields := RecordOf(event);
      forall payload, truncated, err |
        maxPublishBytes > 0 && T.CutOutcome(fields, maxPublishBytes, truncateField, truncateSuffix, event.keys, payload,
                                            truncated, err)
        ensures (err == Nil <==> T.CanBeCut(fields, maxPublishBytes, truncateField, truncateSuffix, event.keys))
      {
        T.CutExactly(fields, maxPublishBytes, truncateField, truncateSuffix, event.keys, payload, truncated, err);
      }
    }

    /** The event sets its watermark: it is dropped, or some attempt within max_attempts reaches the sink. */
    ghost predicate GetsThrough(event: Event, script: seq<R.Attempt>) {
      Drops(event) || (Sends(event) && R.OneReaches(maxAttempts, script))
    }

    /**
     process: the watermark moves only behind a complete publish or for a dropped line, an error before that
     leaves it where it was, and the sink receives nothing but deliveries of the event's own payload.  A script
     that ends before the publish does leaves the run there, `Unfinished`.
     */
    method Process(event: Event, encode: T.Payload -> seq<byte>, script: seq<R.Attempt>, persistOk: bool)
      returns (err: Err, fate: Fate, result: R.Result, attempts: nat)
      requires sink as object != store as object && Ranged(event)
      modifies sink, store
      ensures PreparedAs(event, fate) && attempts <= |script|
      ensures if fate.ToSink? then
                && R.EndsAs(sink.batching, [encode(fate.payload)], maxAttempts, script, result, attempts)
                && sink.log == old(sink.log) + R.DeliveredBy(sink.batching, [encode(fate.payload)], script[..attempts])
              else
                result == R.Unfinished && attempts == 0 && sink.log == old(sink.log)
      ensures if GetsThrough(event, script) then
                store.View() == W.SetTo(store.opts, old(store.View()),
                                        W.Update(event.path, W.Entry(event.offset, event.inode)), persistOk)
              else
                store.View() == old(store.View()) && err != Nil
      ensures fate.ToSink? ==> SentFor(fate.payload.fields, event, truncateSuffix)
      ensures GetsThrough(event, script) <==> fate.Dropped? || result == R.Published
      ensures err ==
              if fate.Rejected? then fate.err
              else if fate.ToSink? && result != R.Published then PublishErr
              else if W.ShouldPersist(store.opts, old(store.updatesSinceFlush) + 1) && !persistOk then WatermarkErr
              else Nil
    {
      hide PreparedAs, Drops, Sends, R.OneReaches, R.EndsAs, R.DeliveredBy, SentFor;
      result, attempts := R.Unfinished, 0;
      fate := Prepare(event);
      FateExactly(event, fate);
      if fate.Rejected? {
        return fate.err, fate, result, attempts;
      }
      if fate.ToSink? {
        SentCarriesEvent(event, fate.payload);
        var payload := encode(fate.payload);
        var waits;
        result, attempts, waits := R.PublishBatchWithRetry(sink, [payload], initialBackoff, maxBackoff, maxAttempts,
                                                           script);
        R.OneReachesExactly(sink.batching, payload, maxAttempts, script, result, attempts);
        R.EndsInside(sink.batching, [payload], maxAttempts, script, result, attempts);
        if result != R.Published {
          return PublishErr, fate, result, attempts;
        }
      }
      err := store.Set(event.path, event.offset, event.inode, persistOk);
    }

    /** The k-th event gets through, as all before it did, and its watermark is persisted if the policy asks for it. */
    ghost predicate Finishes(held: seq<Trial>, updates: nat, k: nat)
      requires k < |held|
    {
      && GetsThrough(held[k].event, held[k].script)
      && (W.ShouldPersist(store.opts, UpdatesAfter(store.opts, updates, k) + 1) ==> held[k].persistOk)
    }

    /** The k-th event sets its watermark: it gets through, and none before it ends the loop with an error. */
    ghost predicate Sets(held: seq<Trial>, updates: nat, k: nat)
      requires k < |held|
    {
      GetsThrough(held[k].event, held[k].script) && forall j :: 0 <= j < k ==> Finishes(held, updates, j)
    }

    /** When the first `n` events finish they all set their watermarks, and the next decides the rest. */
    lemma SetsUpTo(held: seq<Trial>, updates: nat, n: nat)
      requires n <= |held| && forall k :: 0 <= k < n ==> Finishes(held, updates, k)
      ensures forall k :: 0 <= k < n ==> Sets(held, updates, k)
      ensures n < |held| ==> (Sets(held, updates, n) <==> GetsThrough(held[n].event, held[n].script))
      ensures n < |held| && !Finishes(held, updates, n) ==> forall k :: n < k < |held| ==> !Sets(held, updates, k)
    {
      hide GetsThrough;
      forall k | 0 <= k < n ensures Sets(held, updates, k) {
        assert Finishes(held, updates, k);
      }
    }

    lemma OnlyFromNone(log: seq<seq<byte>>, held: seq<Trial>, encode: T.Payload -> seq<byte>)
      ensures OnlyFrom(log, log, held, encode)
    {
    }

    /** What the sink received since it held `before` is payloads of these events. */
    ghost predicate OnlyFrom(before: seq<seq<byte>>, after: seq<seq<byte>>, held: seq<Trial>,
                             encode: T.Payload -> seq<byte>)
    {
      before <= after && forall i :: |before| <= i < |after| ==> ComesFrom(after[i], held, encode)
    }

    ghost predicate ComesFrom(payload: seq<byte>, held: seq<Trial>, encode: T.Payload -> seq<byte>) {
      exists k, p :: 0 <= k < |held| && PreparedAs(held[k].event, ToSink(p)) && payload == encode(p)
    }

    lemma OnlyFromOne(before: seq<seq<byte>>, log: seq<seq<byte>>, after: seq<seq<byte>>, held: seq<Trial>, k: nat,
                      encode: T.Payload -> seq<byte>, p: T.Payload, script: seq<R.Attempt>)
      requires k < |held| && PreparedAs(held[k].event, ToSink(p)) && OnlyFrom(before, log, held, encode)
      requires after == log + R.DeliveredBy(sink.batching, [encode(p)], script)
      ensures OnlyFrom(before, after, held, encode)
    {
      hide PreparedAs;
      R.DeliversOnly(sink.batching, encode(p), script);
      assert ComesFrom(encode(p), held, encode);
      hide R.DeliveredBy, ComesFrom;
    }

    /**
     The loop of flushParser: events are processed in order up to the first error.  `marked` counts those whose
     watermark was set, which is decided before the call.
     */
    method ProcessAll(held: seq<Trial>, encode: T.Payload -> seq<byte>) returns (err: Err, marked: nat)
      requires sink as object != store as object
      requires forall k :: 0 <= k < |held| ==> Ranged(held[k].event)
      modifies sink, store
      ensures marked <= |held| && store.files == Marked(old(store.files), held[..marked])
      ensures forall k :: 0 <= k < |held| ==> (k < marked <==> Sets(held, old(store.updatesSinceFlush), k))
      ensures err == Nil <==> forall k :: 0 <= k < |held| ==> Finishes(held, old(store.updatesSinceFlush), k)
      ensures OnlyFrom(old(sink.log), sink.log, held, encode)
    {
      hide PreparedAs, GetsThrough, Ranged, R.EndsAs, R.DeliveredBy, Sets, OnlyFrom;
      OnlyFromNone(sink.log, held, encode);
      ghost var updates := store.updatesSinceFlush;
      err, marked := Nil, 0;
      for i := 0 to |held|
        invariant marked == i && err == Nil
        invariant store.files == Marked(old(store.files), held[..i])
        invariant store.updatesSinceFlush == UpdatesAfter(store.opts, updates, i)
        invariant forall k :: 0 <= k < i ==> Finishes(held, updates, k)
        invariant OnlyFrom(old(sink.log), sink.log, held, encode)
      {
        assert held[..i + 1][..i] == held[..i];
        ghost var log := sink.log;
        var fate, result, attempts;
        err, fate, result, attempts := Process(held[i].event, encode, held[i].script, held[i].persistOk);
        if fate.ToSink? {
          OnlyFromOne(old(sink.log), log, sink.log, held, i, encode, fate.payload, held[i].script[..attempts]);
        }
        if fate.Dropped? || result == R.Published {
          marked := marked + 1;
        }
        SetsUpTo(held, updates, i);
        assert err == Nil <==> Finishes(held, updates, i);
        if err != Nil {
          return;
        }
      }
      assert held[..|held|] == held;
      SetsUpTo(held, updates, |held|);
    }

    /**
     exitErr after the publish of `failed` failed: what the parser still holds is processed all the same.  The
     watermark passes the failed record exactly when a later record of its file gets through and none of the
     records held before it ends the loop with an error.
     */
    method ExitErr(failed: Event, runErr: Err, held: seq<Trial>, encode: T.Payload -> seq<byte>) returns (err: Err)
      requires sink as object != store as object
      requires runErr != Nil && !Passed(store.files, failed.path, failed.offset)
      requires forall k :: 0 <= k < |held| ==> Ranged(held[k].event)
      requires forall k :: 0 <= k < |held| && held[k].event.path == failed.path ==> failed.offset < held[k].event.offset
      modifies sink, store
      ensures err == runErr && OnlyFrom(old(sink.log), sink.log, held, encode)
      ensures Passed(store.files, failed.path, failed.offset) <==>
              exists k :: 0 <= k < |held| && held[k].event.path == failed.path
                          && Sets(held, old(store.updatesSinceFlush), k)
    {
      hide Sets, Finishes, OnlyFrom, Ranged;
      ghost var before := store.files;
      var shutErr, marked := ProcessAll(held, encode);
      MarkedPasses(before, held[..marked], failed.path, failed.offset);
      assert forall k :: 0 <= k < marked ==> held[k] == held[..marked][k];
      err := if shutErr != Nil && runErr == Nil then shutErr else runErr;
    }
  }

  // ---- exitErr --------------------------------------------------------------------------------------------

  /** An event and what the environment does while it is processed. */
  datatype Trial = Trial(event: Event, script: seq<R.Attempt>, persistOk: bool)

  /** updatesSinceFlush after `n` more updates of which every one that had to be persisted was. */
  function UpdatesAfter(opts: W.Options, updates: nat, n: nat): nat {
    if n == 0 then updates
    else
      var u := UpdatesAfter(opts, updates, n - 1) + 1;
      if W.ShouldPersist(opts, u) then 0 else u
  }

  /** The watermarks once these events have set theirs, in order. */
  function Marked(files: W.Files, held: seq<Trial>): W.Files {
    if held == [] then files
    else
      var last := held[|held| - 1].event;
      Marked(files, held[..|held| - 1])[last.path := W.Entry(last.offset, last.inode)]
  }

  /** A restart would not read the record at this offset again. */
  predicate Passed(files: W.Files, path: string, offset: int) {
    path in files && offset <= files[path].offset
  }

  /** Events behind `offset` on its path move the watermark past it exactly when one of them is on that path. */
  lemma {:induction false} MarkedPasses(files: W.Files, held: seq<Trial>, path: string, offset: int)
    requires !Passed(files, path, offset)
    requires forall k :: 0 <= k < |held| && held[k].event.path == path ==> offset < held[k].event.offset
    ensures Passed(Marked(files, held), path, offset) <==> exists k :: 0 <= k < |held| && held[k].event.path == path
  {
    if held != [] {
      var before := held[..|held| - 1];
      MarkedPasses(files, before, path, offset);
      if exists k :: 0 <= k < |before| && before[k].event.path == path {
        var k :| 0 <= k < |before| && before[k].event.path == path;
        assert held[k].event.path == path;
      }
    }
  }

  /** An attempt that fails and whose wait is cancelled, and one that succeeds. */
  const FAILING := [R.Attempt(0, true)]
  const SUCCEEDING := [R.Attempt(1, false)]

  /** With these attempts the first of two records does not get through and the second, held one does. */
  lemma ExitErrOutcome(p: Processor, failed: Event, next: Event, updates: nat)
    requires p.Sends(failed) && p.Sends(next)
    ensures !p.GetsThrough(failed, FAILING)
    ensures p.Sets([Trial(next, SUCCEEDING, true)], updates, 0)
  {
    hide T.JsonSize, T.CanBeCut;
    assert SUCCEEDING[0].failAt > 0;
    assert R.OneReaches(p.maxAttempts, SUCCEEDING);
  }

  /**
   A run that loses a record in this way, in any pipeline and for any two records of a file that are to be sent: the
   publish of the first fails, process returns the error, exitErr publishes the second, and the watermark is past
   the first although the sink received payloads of the second only.
   */
  method ExitErrCanPass(p: Processor, failed: Event, next: Event, encode: T.Payload -> seq<byte>) returns (err: Err)
    requires p.sink as object != p.store as object && Ranged(failed) && Ranged(next)
    requires p.Sends(failed) && p.Sends(next) && !Passed(p.store.files, failed.path, failed.offset)
    requires failed.path == next.path && failed.offset < next.offset
    modifies p.sink, p.store
    ensures err == PublishErr && Passed(p.store.files, failed.path, failed.offset)
    ensures p.OnlyFrom(old(p.sink.log), p.sink.log, [Trial(next, SUCCEEDING, true)], encode)
  {
    hide T.JsonSize, T.CanBeCut, Ranged, Processor.Sends, Processor.GetsThrough, Processor.PreparedAs;
    var fate, result, attempts;
    ghost var log := p.sink.log;
    err, fate, result, attempts := p.Process(failed, encode, FAILING, true);
    ExitErrOutcome(p, failed, next, p.store.updatesSinceFlush);
    p.FateExactly(failed, fate);
    NothingDelivered(p, encode, fate, attempts);
    assert p.sink.log == log;
    var held := [Trial(next, SUCCEEDING, true)];
    assert held[0].event.path == failed.path;
    err := p.ExitErr(failed, err, held, encode);
  }

  lemma NothingDelivered(p: Processor, encode: T.Payload -> seq<byte>, fate: Fate, attempts: nat)
    requires fate.ToSink? && attempts <= 1
    ensures R.DeliveredBy(p.sink.batching, [encode(fate.payload)], FAILING[..attempts]) == []
  {
    if attempts == 1 {
      assert FAILING[..1] == FAILING && FAILING[..0] == [];
    }
  }
}
