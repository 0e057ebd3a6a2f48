/**
 Delivery across crashes and restarts with publish_batch on, in both failure modes: the watcher and the line parser
 feed the flusher, its step system runs concurrently, the watermarks in memory may be persisted at any moment, and the
 process may crash between any two steps.  Log files only grow, by whole lines; no line is filtered or skipped.
 */
module BatchedDelivery {
  import opened Common
  import opened FlushProtocol
  import opened HandOff
  import opened Safety
  import D = DeadLetterMode
  import H = HibernateMode
  import W = Watcher

  datatype Setup = Setup(flush: Config, inodes: string -> nat)

  /**
   `base` holds the watermarks that this run started with, `tails` the watcher's read positions, `flush` the flusher
   and the pipeline, `run` its steps so far, `fed` the records offered to enqueue.  `delivered` and `lost` log the
   records acknowledged or dead-lettered, and those of failed dead-letter writes, in earlier runs; `overlapped` that
   a flush of an earlier run started while hibernating.
   */
  datatype World = World(
    content: map<string, seq<byte>>,
    disk: map<string, int>,
    base: map<string, int>,
    tails: map<string, int>,
    flush: State,
    run: seq<Step>,
    fed: seq<Pending>,
    delivered: seq<Pending>,
    lost: seq<Pending>,
    overlapped: bool)

  datatype Move =
    | Write(path: string, chunk: seq<byte>)
    | Feed(path: string, payload: seq<byte>)
    | Flusher(step: Step)
    | Persist
    | Crash

  function Start(content: map<string, seq<byte>>): World {
    World(content, map[], map[], map[], Init(map[]), [], [], [], [], false)
  }

  function FileOf(w: World, path: string): seq<byte> {
    if path in w.content then w.content[path] else []
  }

  function MarkAt(marks: map<string, int>, path: string): int {
    if path in marks then marks[path] else 0
  }

  /** Where the watcher reads on: a file not opened yet starts at its watermark in memory. */
  function TailOf(w: World, path: string): int {
    if path in w.tails then w.tails[path] else MarkAt(w.flush.pipe.watermarks, path)
  }

  /** The moves of the flusher that Run makes: after an error nothing but shutdown, and no line is skipped. */
  predicate RunMakes(w: World, step: Step) {
    !step.CallEnqueue? && !step.SkipLine? && (step.CallTrigger? ==> w.flush.producer == Idle(Nil))
  }

  /** One physical line is read and, unless it is blank, offered to enqueue. */
  function FeedLine(cfg: Setup, w: World, path: string, payload: seq<byte>): World
    requires 0 <= TailOf(w, path) < |FileOf(w, path)|
  {
    var at := TailOf(w, path);
    var n := W.LineLength(FileOf(w, path)[at..]);
    var read := w.(tails := w.tails[path := at + n]);
    if W.TrimRight(FileOf(w, path)[at..][..n]) == [] then read
    else
      var item := Pending(payload, path, at + n, cfg.inodes(path));
      read.(flush := w.flush.(producer := EnqTop(item)), run := w.run + [CallEnqueue(item)], fed := w.fed + [item])
  }

  function Next(cfg: Setup, w: World, move: Move): Option<World> {
    match move
    case Write(path, chunk) =>
      if W.EndsLine(chunk) then Some(w.(content := w.content[path := FileOf(w, path) + chunk])) else None
    case Feed(path, payload) =>
      if w.flush.producer == Idle(Nil) && 0 <= TailOf(w, path) < |FileOf(w, path)| then
        Some(FeedLine(cfg, w, path, payload))
      else None
    case Flusher(step) =>
      if !RunMakes(w, step) then None
      else
        var s := FlushProtocol.Next(cfg.flush, w.flush, step);
        if s.None? then None else Some(w.(flush := s.value, run := w.run + [step]))
    case Persist => Some(w.(disk := w.flush.pipe.watermarks))
    case Crash =>
      var p := w.flush.pipe;
      Some(World(w.content, w.disk, w.disk, map[], Init(w.disk), [], [], w.delivered + p.acked + p.dead,
                 w.lost + p.lost, w.overlapped || w.flush.startedHib))
  }

  function Exec(cfg: Setup, content: map<string, seq<byte>>, moves: seq<Move>): Option<World> {
    if moves == [] then Some(Start(content))
    else
      match Exec(cfg, content, moves[..|moves| - 1])
      case None => None
      case Some(w) => Next(cfg, w, moves[|moves| - 1])
  }

  // ---- The invariant --------------------------------------------------------------------------------------

  /** Some run acknowledged or dead-lettered the record that ends here, or failed to dead-letter it. */
  ghost predicate Dealt(w: World, path: string, e: int) {
    exists x :: (x in w.delivered || x in w.lost || Resolved(w.flush.pipe, x)) && x.path == path && x.offset == e
  }

  predicate Boundary(data: seq<byte>, at: int) {
    0 <= at <= |data| && (at == 0 || data[at - 1] == NEWLINE)
  }

  /** The position is a line boundary and every non-blank line up to it was dealt with. */
  ghost predicate Covered(w: World, path: string, at: int) {
    && Boundary(FileOf(w, path), at)
    && forall e :: e <= at && W.LineAt(FileOf(w, path), e) != [] ==> Dealt(w, path, e)
  }

  ghost predicate IsFed(w: World, path: string, e: int) {
    exists k :: 0 <= k < |w.fed| && w.fed[k].path == path && w.fed[k].offset == e
  }

  /** What has been fed of a file: exactly its non-blank lines from the mark of the run to the read position. */
  ghost predicate FedOk(w: World, path: string) {
    var data := FileOf(w, path);
    var from := MarkAt(w.base, path);
    && (path in w.tails ==> Boundary(data, w.tails[path]) && from <= w.tails[path])
    && (forall k :: 0 <= k < |w.fed| && w.fed[k].path == path ==>
          path in w.tails && from < w.fed[k].offset <= w.tails[path] && Boundary(data, w.fed[k].offset))
    && (path in w.tails ==>
          forall e :: from < e <= w.tails[path] && W.LineAt(data, e) != [] ==> IsFed(w, path, e))
  }

  ghost predicate PathOk(w: World, path: string) {
    && W.EndsLine(FileOf(w, path))
    && Covered(w, path, MarkAt(w.base, path)) && Covered(w, path, MarkAt(w.disk, path))
    && FedOk(w, path)
  }

  predicate Rising(items: seq<Pending>) {
    forall i, j :: 0 <= i < j < |items| && items[i].path == items[j].path ==> items[i].offset < items[j].offset
  }

  /** The records accepted and the one in hand. */
  function Taken(s: State): seq<Pending> {
    s.accepted + if Hand(s.producer).Some? then [Hand(s.producer).value] else []
  }

  ghost predicate RunOk(cfg: Setup, w: World) {
    && Run(cfg.flush, w.base, w.run) == Some(w.flush) && !w.flush.skipped
    && Taken(w.flush) <= w.fed && (!Failing(w.flush.producer) ==> Taken(w.flush) == w.fed)
    && Rising(w.fed) && w.base.Keys <= w.flush.pipe.watermarks.Keys
  }

  ghost predicate WorldOk(cfg: Setup, w: World) {
    RunOk(cfg, w) && forall path: string :: PathOk(w, path)
  }

  /** In hibernate mode the promise is for runs in which no flusher-owned flush started while hibernating. */
  predicate Sound(cfg: Setup, w: World) {
    cfg.flush.mode == DeadLetter || (!w.overlapped && !w.flush.startedHib)
  }

  // ---- The watermarks in memory ---------------------------------------------------------------------------

  lemma MemorySourced(cfg: Setup, w: World)
    requires RunOk(cfg, w) && Sound(cfg, w)
    ensures Sourced(w.flush.accepted, w.flush.pipe, w.base)
  {
    hide Run, Sourced;
    if cfg.flush.mode == DeadLetter {
      D.SafeAlways(cfg.flush, w.base, w.run);
    } else {
      H.KeptAlways(cfg.flush, w.base, w.run);
    }
  }

  /** A watermark set in this run covers its file: everything fed up to it is resolved. */
  lemma SourceCovered(cfg: Setup, w: World, path: string, i: nat)
    requires RunOk(cfg, w) && PathOk(w, path) && Source(w.flush.accepted, w.flush.pipe, path, i)
    ensures Covered(w, path, w.flush.pipe.watermarks[path])
  {
    hide Run, W.LineAt, W.EndsLine;
    var at := w.flush.pipe.watermarks[path];
    assert w.fed[i] == w.flush.accepted[i];
    forall e | e <= at && W.LineAt(FileOf(w, path), e) != [] ensures Dealt(w, path, e) {
      if e > MarkAt(w.base, path) {
        assert IsFed(w, path, e);
        var k :| 0 <= k < |w.fed| && w.fed[k].path == path && w.fed[k].offset == e;
        assert k <= i;
        assert w.flush.accepted[k] == w.fed[k];
      }
    }
  }

  lemma MemoryCovered(cfg: Setup, w: World, path: string)
    requires RunOk(cfg, w) && PathOk(w, path) && Sourced(w.flush.accepted, w.flush.pipe, w.base)
    ensures Covered(w, path, MarkAt(w.flush.pipe.watermarks, path))
  {
    hide Run, Covered, FedOk, Source, Taken;
    if path in w.flush.pipe.watermarks && !(path in w.base && w.base[path] == w.flush.pipe.watermarks[path]) {
      var i :| Source(w.flush.accepted, w.flush.pipe, path, i);
      SourceIndex(w.flush.accepted, w.flush.pipe, path, i);
      SourceCovered(cfg, w, path, i);
    }
  }

  lemma SourceIndex(accepted: seq<Pending>, p: Pipe, path: string, i: int)
    requires Source(accepted, p, path, i)
    ensures 0 <= i < |accepted| && accepted[i].path == path
  {
  }

  lemma SourceIsFed(cfg: Setup, w: World, path: string, i: nat)
    requires RunOk(cfg, w) && FedOk(w, path) && Source(w.flush.accepted, w.flush.pipe, path, i)
    ensures path in w.tails
  {
    hide Run;
    assert w.fed[i] == w.flush.accepted[i];
  }

  /** As long as nothing of a file was fed, its watermark in memory is the one that the run started with. */
  lemma UnfedMark(cfg: Setup, w: World, path: string)
    requires RunOk(cfg, w) && FedOk(w, path) && Sourced(w.flush.accepted, w.flush.pipe, w.base)
    ensures path in w.tails || MarkAt(w.flush.pipe.watermarks, path) == MarkAt(w.base, path)
  {
    hide Run, FedOk, Source, Taken;
    if path in w.flush.pipe.watermarks && !(path in w.base && w.base[path] == w.flush.pipe.watermarks[path]) {
      var i :| Source(w.flush.accepted, w.flush.pipe, path, i);
      SourceIndex(w.flush.accepted, w.flush.pipe, path, i);
      SourceIsFed(cfg, w, path, i);
    }
  }

  // ---- The steps of the flusher ---------------------------------------------------------------------------

  lemma FlushItemsStepGrows(cfg: Config, p: Pipe, f: Flight, c: Choice)
    requires !f.pc.Returned?
    ensures var q := FlushItemsStep(cfg, p, f, c).0; Grows(p, q) && p.watermarks.Keys <= q.watermarks.Keys
  {
    if Unresolved(f.pc) {
      ResolveStepLogs(cfg, p, f, c);
      hide FlushItemsStep;
    } else if !f.pc.Advancing? || f.pc.i >= |f.batch| {
      EndStepLogs(cfg, p, f, c);
      hide FlushItemsStep;
    }
  }

  lemma WakeStepGrows(cfg: Config, p: Pipe, id: nat, c: Choice)
    requires id in p.wakes
    ensures var q := WakeStep(cfg, p, id, c); Grows(p, q) && p.watermarks.Keys <= q.watermarks.Keys
  {
    hide FlushItemsStep;
    if p.wakes[id].Flushing? && !p.wakes[id].flight.pc.Returned? {
      FlushItemsStepGrows(cfg, p, p.wakes[id].flight, c);
    }
  }

  /** No step takes anything out of the logs or the watermarks. */
  lemma NextGrows(cfg: Config, s: State, step: Step)
    requires FlushProtocol.Next(cfg, s, step).Some?
    ensures var t := FlushProtocol.Next(cfg, s, step).value;
            Grows(s.pipe, t.pipe) && s.pipe.watermarks.Keys <= t.pipe.watermarks.Keys
  {
    hide ProducerStep, FlushItemsStep, WakeStep, CompleteFlush;
    match step
    case ProducerNext => ProducerStepShape(cfg, s);
    case FlushNext(id, c) => FlushItemsStepGrows(cfg, s.pipe, s.flights[id], c);
    case DrainNext(c) => FlushItemsStepGrows(cfg, s.pipe, s.producer.flight, c);
    case WakeNext(id, c) => WakeStepGrows(cfg, s.pipe, id, c);
    case Complete(id) => assert CompleteFlush(s, id).pipe == s.pipe by { CompleteKeepsPipe(s, id); }
    case _ =>
  }

  lemma CompleteKeepsPipe(s: State, id: nat)
    requires id in s.flights && s.flights[id].pc.Returned? && id < |s.closes| && id < |s.results|
    ensures CompleteFlush(s, id).pipe == s.pipe
  {
  }

  /** What was fed is taken in order, and in full unless an error was returned. */
  ghost predicate TakenOk(s: State, fed: seq<Pending>) {
    Taken(s) <= fed && (!Failing(s.producer) ==> Taken(s) == fed)
  }

  lemma ProducerStepTaken(cfg: Config, s: State, fed: seq<Pending>)
    requires Inv(cfg, s) && TakenOk(s, fed) && ProducerStep(cfg, s).Some?
    ensures TakenOk(ProducerStep(cfg, s).value, fed)
  {
    HandStays(cfg, s);
    ProducerStepKeeps(cfg, s);
    FailingStays(cfg, s);
    hide ProducerStep, Core;
  }

  /** A producer that returned an error has no step, and one that is shutting down goes on with that. */
  lemma FailingStays(cfg: Config, s: State)
    requires Inv(cfg, s) && ProducerStep(cfg, s).Some?
    ensures Failing(s.producer) ==> Failing(ProducerStep(cfg, s).value.producer)
    ensures s.shuttingDown ==> Failing(s.producer)
  {
    ProducerStepShape(cfg, s);
    ProducerStepKeeps(cfg, s);
    hide Core, WaitForFlush, EnqueueBody;
  }

  lemma OtherStepTaken(cfg: Config, s: State, step: Step, fed: seq<Pending>)
    requires Inv(cfg, s) && TakenOk(s, fed) && FlushProtocol.Next(cfg, s, step).Some?
    requires !step.ProducerNext? && !step.CallEnqueue? && (step.CallTrigger? ==> s.producer == Idle(Nil))
    ensures TakenOk(FlushProtocol.Next(cfg, s, step).value, fed)
  {
    hide ProducerStep, FlushItemsStep, WakeStep, Core;
  }

  // ---- Lines of a growing file ----------------------------------------------------------------------------

  lemma LineAtAppend(data: seq<byte>, chunk: seq<byte>, e: int)
    requires W.EndsLine(data) && e <= |data|
    ensures W.LineAt(data + chunk, e) == W.LineAt(data, e)
  {
    if W.IsLineEnd(data, e) {
      var s := W.LineStart(data, e);
      W.LineStartUnique(data + chunk, e, s);
      assert (data + chunk)[s..e] == data[s..e];
    }
  }

  /** From one boundary to the next there is one line, and it ends at the second. */
  lemma LineRead(data: seq<byte>, at: nat)
    requires W.EndsLine(data) && Boundary(data, at) && at < |data|
    ensures var n := W.LineLength(data[at..]);
            && n > 0 && at + n <= |data| && Boundary(data, at + n)
            && W.LineAt(data, at + n) == W.TrimRight(data[at..][..n])
            && forall e :: at < e < at + n ==> W.LineAt(data, e) == []
  {
    hide W.TrimRight, W.LineLength;
    var rest := data[at..];
    var n := W.LineLength(rest);
    W.LineLengthFirst(rest);
    assert data[at + n - 1] == rest[n - 1];
    assert forall i :: at <= i < at + n - 1 ==> data[i] == rest[i - at];
    W.LineStartUnique(data, at + n, at);
    assert rest[..n] == data[at..at + n];
  }

  // ---- Every move keeps the invariant ---------------------------------------------------------------------

  lemma CoveredStays(w: World, t: World, path: string, at: int)
    requires Covered(w, path, at) && W.EndsLine(FileOf(w, path))
    requires FileOf(w, path) <= FileOf(t, path) && forall e :: Dealt(w, path, e) ==> Dealt(t, path, e)
    ensures Covered(t, path, at)
  {
    hide W.LineAt, W.EndsLine, Dealt;
    var data := FileOf(w, path);
    var chunk := FileOf(t, path)[|data|..];
    assert FileOf(t, path) == data + chunk;
    forall e | e <= at && W.LineAt(FileOf(t, path), e) != [] ensures Dealt(t, path, e) {
      LineAtAppend(data, chunk, e);
    }
  }

  lemma DealtGrows(w: World, t: World, path: string, e: int)
    requires Dealt(w, path, e)
    requires forall x :: x in w.delivered || x in w.lost || Resolved(w.flush.pipe, x) ==>
               x in t.delivered || x in t.lost || Resolved(t.flush.pipe, x)
    ensures Dealt(t, path, e)
  {
    hide Resolved;
  }

  lemma WriteKeeps(w: World, path: string, chunk: seq<byte>, p: string)
    requires PathOk(w, p) && W.EndsLine(chunk)
    ensures PathOk(w.(content := w.content[path := FileOf(w, path) + chunk]), p)
  {
    var t := w.(content := w.content[path := FileOf(w, path) + chunk]);
    var more := if p == path then chunk else [];
    assert FileOf(t, p) == FileOf(w, p) + more;
    assert forall e :: Dealt(w, p, e) ==> Dealt(t, p, e);
    CoveredStays(w, t, p, MarkAt(w.base, p));
    CoveredStays(w, t, p, MarkAt(w.disk, p));
    hide Covered, W.LineAt, IsFed, Dealt;
    forall e | p in w.tails && MarkAt(w.base, p) < e <= w.tails[p] && W.LineAt(FileOf(t, p), e) != []
      ensures IsFed(t, p, e)
    {
      LineAtAppend(FileOf(w, p), more, e);
      FedStays(w, t, p, e);
    }
  }

  lemma FedStays(w: World, t: World, path: string, e: int)
    requires IsFed(w, path, e) && w.fed <= t.fed
    ensures IsFed(t, path, e)
  {
    var k :| 0 <= k < |w.fed| && w.fed[k].path == path && w.fed[k].offset == e;
    assert t.fed[k] == w.fed[k];
  }

  /** A line of another file changes nothing for this one. */
  lemma FeedOther(cfg: Setup, w: World, path: string, payload: seq<byte>, p: string)
    requires PathOk(w, p) && p != path && 0 <= TailOf(w, path) < |FileOf(w, path)|
    ensures PathOk(FeedLine(cfg, w, path, payload), p)
  {
    hide W.LineAt, W.LineLength, W.TrimRight, W.EndsLine;
    var t := FeedLine(cfg, w, path, payload);
    forall e | Dealt(w, p, e) ensures Dealt(t, p, e) {
      DealtGrows(w, t, p, e);
    }
    assert FileOf(t, p) == FileOf(w, p);
    CoveredStays(w, t, p, MarkAt(w.base, p));
    CoveredStays(w, t, p, MarkAt(w.disk, p));
    hide Covered, Dealt, IsFed;
    forall e | IsFed(w, p, e) ensures IsFed(t, p, e) {
      FedStays(w, t, p, e);
    }
  }

  /** What reading one line of a file changes. */
  lemma FeedShape(cfg: Setup, w: World, path: string, payload: seq<byte>)
    requires W.EndsLine(FileOf(w, path)) && Boundary(FileOf(w, path), TailOf(w, path))
    requires TailOf(w, path) < |FileOf(w, path)|
    ensures var t := FeedLine(cfg, w, path, payload); var data, at := FileOf(w, path), TailOf(w, path);
            && t.content == w.content && t.base == w.base && path in t.tails
            && t.tails == w.tails[path := t.tails[path]] && at < t.tails[path] && Boundary(data, t.tails[path])
            && (forall e :: at < e < t.tails[path] ==> W.LineAt(data, e) == [])
            && if W.LineAt(data, t.tails[path]) == [] then t.fed == w.fed
               else |t.fed| == |w.fed| + 1 && t.fed[..|w.fed|] == w.fed
                    && t.fed[|w.fed|].path == path && t.fed[|w.fed|].offset == t.tails[path]
  {
    var data, at := FileOf(w, path), TailOf(w, path);
    LineRead(data, at);
    hide W.LineAt, W.LineLength, W.TrimRight, W.EndsLine, Boundary;
    var end := at + W.LineLength(data[at..]);
    var t := FeedLine(cfg, w, path, payload);
    hide FileOf, TailOf;
    if W.LineAt(data, end) == [] {
      assert t == w.(tails := w.tails[path := end]);
    } else {
      var item := Pending(payload, path, end, cfg.inodes(path));
      assert t.fed == w.fed + [item] && t.tails == w.tails[path := end];
    }
  }

  /** The line that was read is fed, or blank. */
  lemma FeedOwnFed(cfg: Setup, w: World, path: string, payload: seq<byte>)
    requires W.EndsLine(FileOf(w, path)) && FedOk(w, path) && Boundary(FileOf(w, path), MarkAt(w.base, path))
    requires 0 <= TailOf(w, path) < |FileOf(w, path)|
    requires path in w.tails || TailOf(w, path) == MarkAt(w.base, path)
    ensures FedOk(FeedLine(cfg, w, path, payload), path)
  {
    var t := FeedLine(cfg, w, path, payload);
    var data, at := FileOf(w, path), TailOf(w, path);
    FeedShape(cfg, w, path, payload);
    hide W.LineAt, W.EndsLine, FeedLine;
    var from := MarkAt(w.base, path);
    assert forall k :: 0 <= k < |w.fed| ==> t.fed[k] == w.fed[k];
    forall e | from < e <= t.tails[path] && W.LineAt(data, e) != [] ensures IsFed(t, path, e) {
      if e <= at {
        FedStays(w, t, path, e);
      } else {
        assert t.fed[|w.fed|].offset == e;
      }
    }
    hide IsFed;
  }

  lemma FeedOwn(cfg: Setup, w: World, path: string, payload: seq<byte>)
    requires PathOk(w, path) && 0 <= TailOf(w, path) < |FileOf(w, path)|
    requires path in w.tails || TailOf(w, path) == MarkAt(w.base, path)
    ensures PathOk(FeedLine(cfg, w, path, payload), path)
  {
    var t := FeedLine(cfg, w, path, payload);
    FeedOwnFed(cfg, w, path, payload);
    hide W.LineAt, W.LineLength, W.TrimRight, W.EndsLine, FedOk;
    forall e | Dealt(w, path, e) ensures Dealt(t, path, e) {
      DealtGrows(w, t, path, e);
    }
    CoveredStays(w, t, path, MarkAt(w.base, path));
    CoveredStays(w, t, path, MarkAt(w.disk, path));
  }

  lemma RunAppend(cfg: Config, wm: map<string, int>, run: seq<Step>, step: Step)
    requires Run(cfg, wm, run).Some?
    ensures Run(cfg, wm, run + [step]) == FlushProtocol.Next(cfg, Run(cfg, wm, run).value, step)
  {
    hide FlushProtocol.Next;
    assert (run + [step])[..|run|] == run;
  }

  lemma FeedRun(cfg: Setup, w: World, path: string, payload: seq<byte>)
    requires RunOk(cfg, w) && FedOk(w, path) && Next(cfg, w, Feed(path, payload)).Some?
    ensures RunOk(cfg, Next(cfg, w, Feed(path, payload)).value)
  {
    var t := FeedLine(cfg, w, path, payload);
    var at := TailOf(w, path);
    if t.fed != w.fed {
      RunAppend(cfg.flush, w.base, w.run, t.run[|w.run|]);
    }
    hide Run, W.TrimRight, W.LineAt;
  }

  lemma FlusherRun(cfg: Setup, w: World, step: Step)
    requires RunOk(cfg, w) && Next(cfg, w, Flusher(step)).Some?
    ensures RunOk(cfg, Next(cfg, w, Flusher(step)).value)
  {
    HandOff.Reachable(cfg.flush, w.base, w.run);
    RunAppend(cfg.flush, w.base, w.run, step);
    FlagsStep(cfg.flush, w.flush, step);
    NextGrows(cfg.flush, w.flush, step);
    hide Run, Inv;
    if step.ProducerNext? {
      ProducerStepTaken(cfg.flush, w.flush, w.fed);
    } else {
      OtherStepTaken(cfg.flush, w.flush, step, w.fed);
    }
    hide FlushProtocol.Next, Taken;
  }

  /** Nothing that was dealt with is undone. */
  lemma LogsKeep(w: World, t: World, p: string)
    requires PathOk(w, p)
    requires t.content == w.content && t.base == w.base && t.disk == w.disk && t.tails == w.tails && t.fed == w.fed
    requires forall x :: x in w.delivered || x in w.lost || Resolved(w.flush.pipe, x) ==>
               x in t.delivered || x in t.lost || Resolved(t.flush.pipe, x)
    ensures PathOk(t, p)
  {
    forall e | Dealt(w, p, e) ensures Dealt(t, p, e) {
      DealtGrows(w, t, p, e);
    }
    hide Dealt, Resolved, W.LineAt, W.EndsLine;
    CoveredStays(w, t, p, MarkAt(w.base, p));
    CoveredStays(w, t, p, MarkAt(w.disk, p));
    hide Covered;
  }

  lemma FlusherKeeps(cfg: Setup, w: World, step: Step, p: string)
    requires PathOk(w, p) && Next(cfg, w, Flusher(step)).Some?
    ensures PathOk(Next(cfg, w, Flusher(step)).value, p)
  {
    NextGrows(cfg.flush, w.flush, step);
    hide FlushProtocol.Next, PathOk;
    var t := Next(cfg, w, Flusher(step)).value;
    GrowsResolved(w.flush.pipe, t.flush.pipe);
    LogsKeep(w, t, p);
  }

  lemma PersistKeeps(cfg: Setup, w: World, p: string)
    requires RunOk(cfg, w) && Sound(cfg, w) && PathOk(w, p)
    ensures PathOk(w.(disk := w.flush.pipe.watermarks), p)
  {
    hide Run, Sourced, RunOk;
    MemorySourced(cfg, w);
    MemoryCovered(cfg, w, p);
    hide W.LineAt, W.EndsLine;
    var t := w.(disk := w.flush.pipe.watermarks);
    assert forall e :: Dealt(w, p, e) ==> Dealt(t, p, e);
    hide Dealt;
    CoveredStays(w, t, p, MarkAt(w.base, p));
    CoveredStays(w, t, p, MarkAt(t.disk, p));
  }

  lemma CrashKeeps(cfg: Setup, w: World, p: string)
    requires PathOk(w, p)
    ensures PathOk(Next(cfg, w, Crash).value, p)
  {
    hide W.LineAt, W.EndsLine;
    var t := Next(cfg, w, Crash).value;
    forall e | Dealt(w, p, e) ensures Dealt(t, p, e) {
      DealtGrows(w, t, p, e);
    }
    hide Dealt;
    CoveredStays(w, t, p, MarkAt(w.disk, p));
  }

  lemma NextPathOk(cfg: Setup, w: World, move: Move, p: string)
    requires WorldOk(cfg, w) && Sound(cfg, w) && Next(cfg, w, move).Some?
    ensures PathOk(Next(cfg, w, move).value, p)
  {
    hide RunOk, PathOk, FlushProtocol.Next;
    assert PathOk(w, p);
    match move
    case Write(path, chunk) => WriteKeeps(w, path, chunk, p);
    case Feed(path, payload) =>
      if p != path {
        FeedOther(cfg, w, path, payload, p);
      } else {
        FeedMark(cfg, w, path);
        FeedOwn(cfg, w, path, payload);
      }
    case Flusher(step) => FlusherKeeps(cfg, w, step, p);
    case Persist => PersistKeeps(cfg, w, p);
    case Crash => CrashKeeps(cfg, w, p);
  }

  /** A file is opened at the mark that the run started with. */
  lemma FeedMark(cfg: Setup, w: World, path: string)
    requires RunOk(cfg, w) && Sound(cfg, w) && PathOk(w, path)
    ensures path in w.tails || TailOf(w, path) == MarkAt(w.base, path)
  {
    hide RunOk, FedOk;
    MemorySourced(cfg, w);
    UnfedMark(cfg, w, path);
  }

  lemma NextRunOk(cfg: Setup, w: World, move: Move)
    requires WorldOk(cfg, w) && Next(cfg, w, move).Some?
    ensures RunOk(cfg, Next(cfg, w, move).value)
  {
    match move
    case Feed(path, payload) => assert PathOk(w, path); FeedRun(cfg, w, path, payload);
    case Flusher(step) => FlusherRun(cfg, w, step);
    case _ => hide FlushProtocol.Next;
  }

  lemma SoundBefore(cfg: Setup, w: World, move: Move)
    requires Next(cfg, w, move).Some? && Sound(cfg, Next(cfg, w, move).value)
    ensures Sound(cfg, w)
  {
    if move.Flusher? {
      FlagsStep(cfg.flush, w.flush, move.step);
    }
    hide FlushProtocol.Next;
  }

  lemma {:induction false} WorldAlways(cfg: Setup, content: map<string, seq<byte>>, moves: seq<Move>)
    requires forall p :: p in content ==> W.EndsLine(content[p])
    requires Exec(cfg, content, moves).Some? && Sound(cfg, Exec(cfg, content, moves).value)
    ensures WorldOk(cfg, Exec(cfg, content, moves).value)
  {
    hide RunOk, PathOk, Next, Sound;
    var t := Exec(cfg, content, moves).value;
    if moves == [] {
      StartOk(cfg, content);
    } else {
      var before, move := moves[..|moves| - 1], moves[|moves| - 1];
      var w := Exec(cfg, content, before).value;
      SoundBefore(cfg, w, move);
      WorldAlways(cfg, content, before);
      NextRunOk(cfg, w, move);
      forall p: string ensures PathOk(t, p) {
        NextPathOk(cfg, w, move, p);
      }
    }
  }

  lemma StartOk(cfg: Setup, content: map<string, seq<byte>>)
    requires forall p :: p in content ==> W.EndsLine(content[p])
    ensures WorldOk(cfg, Start(content))
  {
  }

  // ---- The theorem ----------------------------------------------------------------------------------------

  /**
   At least once with batching: over any number of crashes and restarts, and any interleaving of the producer, the
   flushes and the wake loops, every non-blank line that ends at or before its file's mark on disk was acknowledged
   or dead-lettered in some run, or its dead-letter write failed.
   */
  lemma NothingBehindTheDiskIsLost(cfg: Setup, content: map<string, seq<byte>>, moves: seq<Move>, path: string, e: int)
    requires forall p :: p in content ==> W.EndsLine(content[p])
    requires Exec(cfg, content, moves).Some? && Sound(cfg, Exec(cfg, content, moves).value)
    ensures var w := Exec(cfg, content, moves).value; var p := w.flush.pipe;
            W.LineAt(FileOf(w, path), e) != [] && e <= MarkAt(w.disk, path) ==>
              exists x: Pending :: x.path == path && x.offset == e
                && (x in w.delivered || x in w.lost || x in p.acked || x in p.dead || x in p.lost)
  {
    WorldAlways(cfg, content, moves);
    hide Exec, W.LineAt, RunOk;
    var w := Exec(cfg, content, moves).value;
    assert PathOk(w, path);
    if W.LineAt(FileOf(w, path), e) != [] && e <= MarkAt(w.disk, path) {
      assert Dealt(w, path, e);
    }
  }

  /** If no dead-letter write failed in any run, every such line was acknowledged or dead-lettered. */
  lemma WithoutLossesAllDelivered(cfg: Setup, content: map<string, seq<byte>>, moves: seq<Move>, path: string, e: int)
    requires forall p :: p in content ==> W.EndsLine(content[p])
    requires Exec(cfg, content, moves).Some? && Sound(cfg, Exec(cfg, content, moves).value)
    requires var w := Exec(cfg, content, moves).value; w.lost == [] && w.flush.pipe.lost == []
    ensures var w := Exec(cfg, content, moves).value; var p := w.flush.pipe;
            W.LineAt(FileOf(w, path), e) != [] && e <= MarkAt(w.disk, path) ==>
              exists x: Pending :: x.path == path && x.offset == e && (x in w.delivered || x in p.acked || x in p.dead)
  {
    hide Exec, W.LineAt;
    NothingBehindTheDiskIsLost(cfg, content, moves, path, e);
  }

  // ---- The logs of earlier runs are honest ----------------------------------------------------------------

  /** The run that this crash ended. */
  predicate EndsRun(cfg: Setup, content: map<string, seq<byte>>, before: seq<Move>, move: Move) {
    move == Crash && Exec(cfg, content, before).Some?
  }

  ghost predicate DeliveredEarlier(cfg: Setup, content: map<string, seq<byte>>, moves: seq<Move>, x: Pending) {
    exists j :: 0 <= j < |moves| && EndsRun(cfg, content, moves[..j], moves[j])
      && var p := Exec(cfg, content, moves[..j]).value.flush.pipe; x in p.acked || x in p.dead
  }

  ghost predicate LostEarlier(cfg: Setup, content: map<string, seq<byte>>, moves: seq<Move>, x: Pending) {
    exists j :: 0 <= j < |moves| && EndsRun(cfg, content, moves[..j], moves[j])
      && x in Exec(cfg, content, moves[..j]).value.flush.pipe.lost
  }

  ghost predicate OverlappedEarlier(cfg: Setup, content: map<string, seq<byte>>, moves: seq<Move>) {
    exists j :: 0 <= j < |moves| && EndsRun(cfg, content, moves[..j], moves[j])
      && Exec(cfg, content, moves[..j]).value.flush.startedHib
  }

  lemma EarlierStays(cfg: Setup, content: map<string, seq<byte>>, moves: seq<Move>, move: Move, x: Pending)
    ensures DeliveredEarlier(cfg, content, moves, x) ==> DeliveredEarlier(cfg, content, moves + [move], x)
    ensures LostEarlier(cfg, content, moves, x) ==> LostEarlier(cfg, content, moves + [move], x)
    ensures OverlappedEarlier(cfg, content, moves) ==> OverlappedEarlier(cfg, content, moves + [move])
  {
    hide Exec;
    var longer := moves + [move];
    forall j | 0 <= j < |moves| ensures longer[..j] == moves[..j] && longer[j] == moves[j] {
    }
    if DeliveredEarlier(cfg, content, moves, x) {
      var j :| 0 <= j < |moves| && EndsRun(cfg, content, moves[..j], moves[j])
        && var p := Exec(cfg, content, moves[..j]).value.flush.pipe; x in p.acked || x in p.dead;
      assert EndsRun(cfg, content, longer[..j], longer[j]);
    }
    if LostEarlier(cfg, content, moves, x) {
      var j :| 0 <= j < |moves| && EndsRun(cfg, content, moves[..j], moves[j])
        && x in Exec(cfg, content, moves[..j]).value.flush.pipe.lost;
      assert EndsRun(cfg, content, longer[..j], longer[j]);
    }
    if OverlappedEarlier(cfg, content, moves) {
      var j :| 0 <= j < |moves| && EndsRun(cfg, content, moves[..j], moves[j])
        && Exec(cfg, content, moves[..j]).value.flush.startedHib;
      assert EndsRun(cfg, content, longer[..j], longer[j]);
    }
  }

  lemma CrashEnds(cfg: Setup, content: map<string, seq<byte>>, moves: seq<Move>, x: Pending)
    requires Exec(cfg, content, moves).Some?
    ensures var s := Exec(cfg, content, moves).value.flush; var longer := moves + [Crash];
            && (x in s.pipe.acked || x in s.pipe.dead ==> DeliveredEarlier(cfg, content, longer, x))
            && (x in s.pipe.lost ==> LostEarlier(cfg, content, longer, x))
            && (s.startedHib ==> OverlappedEarlier(cfg, content, longer))
  {
    hide Exec;
    var longer := moves + [Crash];
    assert longer[..|moves|] == moves && longer[|moves|] == Crash;
    assert EndsRun(cfg, content, longer[..|moves|], longer[|moves|]);
  }

  /** Only a crash touches the logs of earlier runs. */
  lemma EarlierStep(cfg: Setup, w: World, move: Move)
    requires Next(cfg, w, move).Some? && move != Crash
    ensures var t := Next(cfg, w, move).value;
            t.delivered == w.delivered && t.lost == w.lost && t.overlapped == w.overlapped
  {
    hide FlushProtocol.Next, W.LineLength, W.TrimRight;
  }

  /**
   What the logs of earlier runs hold happened in one of them: a record counts as delivered only if the sink or a
   dead-letter file took it, as lost only if its dead-letter write failed, and the flag is set only if a flush started
   while hibernating.
   */
  lemma {:induction false} EarlierIsHonest(cfg: Setup, content: map<string, seq<byte>>, moves: seq<Move>, x: Pending)
    requires Exec(cfg, content, moves).Some?
    ensures var w := Exec(cfg, content, moves).value;
            && (x in w.delivered ==> DeliveredEarlier(cfg, content, moves, x))
            && (x in w.lost ==> LostEarlier(cfg, content, moves, x))
            && (w.overlapped ==> OverlappedEarlier(cfg, content, moves))
  {
    if moves != [] {
      var before, move := moves[..|moves| - 1], moves[|moves| - 1];
      assert before + [move] == moves;
      EarlierIsHonest(cfg, content, before, x);
      EarlierStays(cfg, content, before, move, x);
      hide DeliveredEarlier, LostEarlier, OverlappedEarlier;
      if move == Crash {
        CrashEnds(cfg, content, before, x);
      } else {
        EarlierStep(cfg, Exec(cfg, content, before).value, move);
        hide Next;
      }
    }
  }
}
