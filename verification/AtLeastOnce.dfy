/**
 Delivery across crashes and restarts with publish_batch off, the line parser and on_full: block.  Log files
 only grow, by whole lines; the watcher reads line by line into the channel; the pipeline takes one event at a
 time, publishes or drops it, then sets its watermark; the process may crash between any two steps.
 */
module AtLeastOnce {
  import opened Common
  import opened Watermark
  import opened Watcher

  /** `inodes` gives the inode of each path's file. */
  datatype Config = Config(opts: Options, inodes: string -> nat)

  /**
   `base` is what the store held when this run started; `tails` and `starts` are the watcher's read positions
   and where it opened each file; `current` is the event inside process, `acked` that it was published, filtered
   or skipped, `stopped` that Run returned an error.  `sent` and `handled` log this run, `history` all runs and
   `earlier` all runs before this one, of which there were `crashes`.
   */
  datatype World = World(
    content: map<string, seq<byte>>,
    store: StoreState,
    base: Files,
    tails: map<string, nat>,
    starts: map<string, nat>,
    queue: seq<LineEvent>,
    current: Option<LineEvent>,
    acked: bool,
    stopped: bool,
    sent: seq<LineEvent>,
    handled: seq<LineEvent>,
    history: set<(string, int)>,
    earlier: set<(string, int)>,
    crashes: nat)

  datatype Step =
    | Write(path: string, chunk: seq<byte>)
    | Open(path: string)
    | ReadLine(path: string)
    | Take
    | Publish(ok: bool)
    | Drop
    | SetWatermark
    | FlushStore
    | Crash

  function Start(content: map<string, seq<byte>>): World {
    World(content, StoreState(map[], false, 0, Missing), map[], map[], map[], [], None, false, false, [], [], {}, {}, 0)
  }

  function FileOf(w: World, path: string): seq<byte> {
    if path in w.content then w.content[path] else []
  }

  /** The read position that a set of watermarks gives a file. */
  function Mark(cfg: Config, files: Files, path: string): int {
    StartOf(files, path, cfg.inodes(path)).0
  }

  function Handle(w: World): World
    requires w.current.Some?
  {
    var e := w.current.value;
    w.(acked := true, handled := w.handled + [e], history := w.history + {(e.path, e.offset)})
  }

  function Next(cfg: Config, w: World, step: Step): Option<World> {
    match step
    case Write(path, chunk) =>
      if EndsLine(chunk) then Some(w.(content := w.content[path := FileOf(w, path) + chunk])) else None
    case Open(path) =>
      var at := Mark(cfg, w.store.files, path);
      if path in w.content && path !in w.tails && at >= 0 then
        Some(w.(tails := w.tails[path := at], starts := w.starts[path := at]))
      else None
    case ReadLine(path) =>
      if path in w.tails && w.tails[path] < |FileOf(w, path)| then
        var at := w.tails[path];
        var rest := FileOf(w, path)[at..];
        var n := LineLength(rest);
        var events := EventsOfLine(path, cfg.inodes(path), rest[..n], at + n);
        Some(w.(tails := w.tails[path := at + n], queue := w.queue + events, sent := w.sent + events))
      else None
    case Take =>
      if w.current.None? && !w.stopped && w.queue != [] then
        Some(w.(current := Some(w.queue[0]), acked := false, queue := w.queue[1..]))
      else None
    case Publish(ok) =>
      if w.current.Some? && !w.acked && !w.stopped then Some(if ok then Handle(w) else w.(stopped := true)) else None
    case Drop => if w.current.Some? && !w.acked && !w.stopped then Some(Handle(w)) else None
    case SetWatermark =>
      if w.current.Some? && w.acked then
        var e := w.current.value;
        Some(w.(store := SetTo(cfg.opts, w.store, Update(e.path, Entry(e.offset, e.inode)), true),
                current := None, acked := false))
      else None
    case FlushStore => Some(w.(store := FlushTo(w.store, true)))
    case Crash =>
      var loaded := Loaded(w.store.disk);
      Some(w.(store := StoreState(loaded, false, 0, w.store.disk), base := loaded, tails := map[], starts := map[],
              queue := [], current := None, acked := false, stopped := false, sent := [], handled := [],
              earlier := w.history, crashes := w.crashes + 1))
  }

  function Exec(cfg: Config, content: map<string, seq<byte>>, trace: seq<Step>): Option<World> {
    if trace == [] then Some(Start(content))
    else
      match Exec(cfg, content, trace[..|trace| - 1])
      case None => None
      case Some(w) => Next(cfg, w, trace[|trace| - 1])
  }

  // ---- Events between two positions of a file -------------------------------------------------------------

  predicate Boundary(data: seq<byte>, at: int) {
    0 <= at <= |data| && (at == 0 || data[at - 1] == NEWLINE)
  }

  function Between(cfg: Config, path: string, data: seq<byte>, a: int, b: int): seq<LineEvent>
    requires 0 <= a <= b <= |data|
  {
    Events(path, cfg.inodes(path), data[a..b], a)
  }

  lemma BetweenSplit(cfg: Config, path: string, data: seq<byte>, a: int, b: int, c: int)
    requires Boundary(data, b) && 0 <= a <= b <= c <= |data|
    ensures Between(cfg, path, data, a, c) == Between(cfg, path, data, a, b) + Between(cfg, path, data, b, c)
  {
    hide Events;
    assert data[a..c] == data[a..b] + data[b..c];
    assert EndsLine(data[a..b]);
    SplitInvariant(path, cfg.inodes(path), data[a..b], data[b..c], a);
  }

  /** The events behind the first one are those after its offset, and that is a line boundary. */
  lemma BetweenTail(cfg: Config, path: string, data: seq<byte>, a: int, b: int)
    requires Boundary(data, a) && Boundary(data, b) && a <= b && Between(cfg, path, data, a, b) != []
    ensures var at := Between(cfg, path, data, a, b)[0].offset;
            && a < at <= b && Boundary(data, at)
            && Between(cfg, path, data, at, b) == Between(cfg, path, data, a, b)[1..]
            && Between(cfg, path, data, a, at) == Between(cfg, path, data, a, b)[..1]
            && Between(cfg, path, data, a, b)[0].path == path
            && Between(cfg, path, data, a, b)[0].inode == cfg.inodes(path)
  {
    hide Events;
    var part := data[a..b];
    var events := Between(cfg, path, data, a, b);
    var at := events[0].offset;
    EventsOrdered(path, cfg.inodes(path), part, a);
    EventEndsLine(path, cfg.inodes(path), part, a, 0);
    ResumeExact(path, cfg.inodes(path), part, a, 0);
    assert part[at - a..] == data[at..b];
    BetweenSplit(cfg, path, data, a, at, b);
    assert events == Between(cfg, path, data, a, at) + events[1..];
    assert |Between(cfg, path, data, a, at)| == 1;
  }

  /** In a range that ends on a newline, so does every event. */
  lemma EventEndsLine(path: string, inode: nat, data: seq<byte>, base: int, k: nat)
    requires EndsLine(data) && k < |Events(path, inode, data, base)|
    ensures var at := Events(path, inode, data, base)[k].offset - base; 0 < at <= |data| && data[at - 1] == NEWLINE
  {
    hide Events, TrimRight;
    var events := Events(path, inode, data, base);
    var at := events[k].offset - base;
    assert EndsAt(events, base + at);
    EventsExact(path, inode, data, base, at);
    assert IsLineEnd(data, at);
  }

  // ---- The invariant --------------------------------------------------------------------------------------

  function OnPath(events: seq<LineEvent>, path: string): seq<LineEvent> {
    if events == [] then []
    else
      var last := events[|events| - 1];
      OnPath(events[..|events| - 1], path) + if last.path == path then [last] else []
  }

  lemma {:induction false} OnPathConcat(a: seq<LineEvent>, b: seq<LineEvent>, path: string)
    ensures OnPath(a + b, path) == OnPath(a, path) + OnPath(b, path)
  {
    if b == [] {
      assert a + b == a;
    } else {
      OnPathConcat(a, b[..|b| - 1], path);
      assert (a + b)[..|a + b| - 1] == a + b[..|b| - 1];
    }
  }

  lemma {:induction false} OnPathAll(events: seq<LineEvent>, path: string, other: string)
    requires forall k :: 0 <= k < |events| ==> events[k].path == path
    ensures OnPath(events, other) == if other == path then events else []
  {
    if events != [] {
      OnPathAll(events[..|events| - 1], path, other);
    }
  }

  /** The events read but without a watermark yet: the one in process, then the channel. */
  function Pending(w: World): seq<LineEvent> {
    (if w.current.Some? then [w.current.value] else []) + w.queue
  }

  /** Every non-blank line of the file that ends at or before `at` was handled in some run. */
  ghost predicate HandledUpTo(cfg: Config, w: World, path: string, at: int) {
    var data := FileOf(w, path);
    forall k :: 0 <= k < |Events(path, cfg.inodes(path), data, 0)| ==>
      var e := Events(path, cfg.inodes(path), data, 0)[k];
      e.offset <= at ==> (path, e.offset) in w.history
  }

  /** Memory and disk watermarks are line boundaries up to which all was handled. */
  ghost predicate MarkOk(cfg: Config, w: World, path: string, files: Files) {
    var at := Mark(cfg, files, path);
    Boundary(FileOf(w, path), at) && HandledUpTo(cfg, w, path, at)
  }

  /** What the watcher has read and the pipeline has not finished is exactly the part after the watermark. */
  ghost predicate TailOk(cfg: Config, w: World, path: string) {
    var data := FileOf(w, path);
    var mark := Mark(cfg, w.store.files, path);
    if path in w.tails then
      && path in w.starts && w.starts[path] == Mark(cfg, w.base, path)
      && Boundary(data, w.starts[path]) && Boundary(data, w.tails[path]) && Boundary(data, mark)
      && w.starts[path] <= mark <= w.tails[path]
      && OnPath(Pending(w), path) == Between(cfg, path, data, mark, w.tails[path])
      && OnPath(w.sent, path) == Between(cfg, path, data, w.starts[path], w.tails[path])
    else
      OnPath(Pending(w), path) == [] && OnPath(w.sent, path) == [] && mark == Mark(cfg, w.base, path)
  }

  ghost predicate PathOk(cfg: Config, w: World, path: string) {
    && EndsLine(FileOf(w, path))
    && MarkOk(cfg, w, path, w.store.files)
    && MarkOk(cfg, w, path, Loaded(w.store.disk))
    && TailOk(cfg, w, path)
  }

  /** The watermark updates that a list of handled events stands for. */
  function Updates(events: seq<LineEvent>): seq<Update> {
    if events == [] then []
    else
      var last := events[|events| - 1];
      Updates(events[..|events| - 1]) + [Update(last.path, Entry(last.offset, last.inode))]
  }

  /** The handled events whose watermark is set: all but the one in process. */
  function Done(w: World): seq<LineEvent> {
    if w.acked && w.handled != [] then w.handled[..|w.handled| - 1] else w.handled
  }

  ghost predicate LogOk(cfg: Config, w: World) {
    && (w.acked ==> w.current.Some? && w.handled != [] && w.handled[|w.handled| - 1] == w.current.value)
    && (w.acked ==> (w.current.value.path, w.current.value.offset) in w.history)
    && Consistent(w.base, w.store, Updates(Done(w)))
    && (cfg.opts.flushEvery > 0 ==> w.store.updatesSinceFlush < cfg.opts.flushEvery)
    && (cfg.opts.flushEvery == 0 && cfg.opts.flushInterval == 0 ==> w.store.updatesSinceFlush == 0)
    && (forall k :: 0 <= k < |w.handled| ==> w.handled[k].inode == cfg.inodes(w.handled[k].path))
    && (forall i, j :: 0 <= i < j < |w.handled| && w.handled[i].path == w.handled[j].path ==>
          w.handled[i].offset < w.handled[j].offset)
  }

  ghost predicate Inv(cfg: Config, w: World) {
    (forall path: string :: PathOk(cfg, w, path)) && LogOk(cfg, w)
  }

  // ---- Every step keeps it --------------------------------------------------------------------------------

  lemma InitOk(cfg: Config, content: map<string, seq<byte>>, path: string)
    requires forall p :: p in content ==> EndsLine(content[p])
    ensures PathOk(cfg, Start(content), path)
  {
    EventsOrdered(path, cfg.inodes(path), FileOf(Start(content), path), 0);
  }

  /** Appending whole lines adds events behind the old end only. */
  lemma WriteEvents(cfg: Config, path: string, data: seq<byte>, chunk: seq<byte>, at: int, k: nat)
    requires EndsLine(data) && at <= |data| && k < |Events(path, cfg.inodes(path), data + chunk, 0)|
    requires Events(path, cfg.inodes(path), data + chunk, 0)[k].offset <= at
    ensures k < |Events(path, cfg.inodes(path), data, 0)|
    ensures Events(path, cfg.inodes(path), data, 0)[k] == Events(path, cfg.inodes(path), data + chunk, 0)[k]
  {
    hide Events;
    SplitInvariant(path, cfg.inodes(path), data, chunk, 0);
    EventsOrdered(path, cfg.inodes(path), chunk, |data|);
    var before, added := Events(path, cfg.inodes(path), data, 0), Events(path, cfg.inodes(path), chunk, |data|);
    assert forall j :: |before| <= j < |before + added| ==> (before + added)[j] == added[j - |before|];
  }

  lemma WriteMark(cfg: Config, w: World, t: World, path: string, files: Files, chunk: seq<byte>)
    requires EndsLine(FileOf(w, path)) && MarkOk(cfg, w, path, files)
    requires FileOf(t, path) == FileOf(w, path) + chunk && t.history == w.history
    ensures MarkOk(cfg, t, path, files)
  {
    hide Events;
    var data := FileOf(w, path);
    var at := Mark(cfg, files, path);
    forall k | 0 <= k < |Events(path, cfg.inodes(path), data + chunk, 0)|
             && Events(path, cfg.inodes(path), data + chunk, 0)[k].offset <= at
      ensures (path, Events(path, cfg.inodes(path), data + chunk, 0)[k].offset) in w.history
    {
      WriteEvents(cfg, path, data, chunk, at, k);
    }
  }

  lemma SliceStays(data: seq<byte>, chunk: seq<byte>, a: int, b: int)
    requires 0 <= a <= b <= |data|
    ensures (data + chunk)[a..b] == data[a..b]
  {
  }

  lemma WriteTail(cfg: Config, w: World, t: World, p: string, more: seq<byte>)
    requires TailOk(cfg, w, p) && FileOf(t, p) == FileOf(w, p) + more
    requires t == w.(content := t.content)
    ensures TailOk(cfg, t, p)
  {
    hide Events, OnPath, Mark, FileOf;
    assert Pending(t) == Pending(w);
    if p in w.tails {
      SliceStays(FileOf(w, p), more, Mark(cfg, w.store.files, p), w.tails[p]);
      SliceStays(FileOf(w, p), more, w.starts[p], w.tails[p]);
    }
  }

  lemma WriteKeeps(cfg: Config, w: World, path: string, chunk: seq<byte>, p: string)
    requires PathOk(cfg, w, p) && EndsLine(chunk)
    ensures PathOk(cfg, w.(content := w.content[path := FileOf(w, path) + chunk]), p)
  {
    hide MarkOk, TailOk;
    var t := w.(content := w.content[path := FileOf(w, path) + chunk]);
    var more := if p == path then chunk else [];
    assert FileOf(t, p) == FileOf(w, p) + more;
    WriteMark(cfg, w, t, p, w.store.files, more);
    WriteMark(cfg, w, t, p, Loaded(w.store.disk), more);
    WriteTail(cfg, w, t, p, more);
  }

  lemma OpenKeeps(cfg: Config, w: World, path: string, p: string)
    requires PathOk(cfg, w, p) && Next(cfg, w, Open(path)).Some?
    ensures PathOk(cfg, Next(cfg, w, Open(path)).value, p)
  {
    hide MarkOk, Events, OnPath;
    var t := Next(cfg, w, Open(path)).value;
    SameFiles(cfg, w, t, p);
    assert Pending(t) == Pending(w);
    var at := Mark(cfg, w.store.files, p);
    if p == path {
      BoundaryOfMark(cfg, w, p, w.store.files);
      EventsEmpty(p, cfg.inodes(p), at);
      assert FileOf(w, p)[at..at] == [];
    }
  }

  lemma BoundaryOfMark(cfg: Config, w: World, p: string, files: Files)
    requires MarkOk(cfg, w, p, files)
    ensures Boundary(FileOf(w, p), Mark(cfg, files, p))
  {
  }

  /** Steps that change neither the logs nor the files and the store keep the marks. */
  lemma SameFiles(cfg: Config, w: World, t: World, p: string)
    requires t.content == w.content && w.history <= t.history
    ensures forall files :: MarkOk(cfg, w, p, files) ==> MarkOk(cfg, t, p, files)
  {
    hide Events, Mark;
  }

  lemma ReadLineKeeps(cfg: Config, w: World, path: string, p: string)
    requires PathOk(cfg, w, p) && PathOk(cfg, w, path) && Next(cfg, w, ReadLine(path)).Some?
    ensures PathOk(cfg, Next(cfg, w, ReadLine(path)).value, p)
  {
    hide MarkOk, Events, OnPath, Mark, LineLength, EventsOfLine;
    var t := Next(cfg, w, ReadLine(path)).value;
    SameFiles(cfg, w, t, p);
    var at := w.tails[path];
    var data := FileOf(w, path);
    var n := LineLength(data[at..]);
    var events := EventsOfLine(path, cfg.inodes(path), data[at..][..n], at + n);
    assert Pending(t) == Pending(w) + events;
    OnPathConcat(Pending(w), events, p);
    OnPathConcat(w.sent, events, p);
    LineEvents(cfg, path, data, at);
    OnPathAll(events, path, p);
    if p == path {
      BetweenSplit(cfg, path, data, Mark(cfg, w.store.files, p), at, at + n);
      BetweenSplit(cfg, path, data, w.starts[p], at, at + n);
    }
  }

  /** One physical line, from a boundary to the next. */
  lemma LineEvents(cfg: Config, path: string, data: seq<byte>, at: nat)
    requires EndsLine(data) && at < |data|
    ensures var n := LineLength(data[at..]);
            var events := EventsOfLine(path, cfg.inodes(path), data[at..][..n], at + n);
            && at + n <= |data| && Boundary(data, at + n)
            && Between(cfg, path, data, at, at + n) == events
            && (forall k :: 0 <= k < |events| ==> events[k].path == path)
  {
    var n := LineLength(data[at..]);
    LineLengthFirst(data[at..]);
    assert data[at..][n - 1] == data[at + n - 1];
    var line := data[at..at + n];
    assert data[at..][..n] == line;
    LineLengthWhole(line);
    assert line[..n] == line && line[n..] == [];
    EventsEmpty(path, cfg.inodes(path), at + n);
  }

  lemma {:induction false} LineLengthWhole(line: seq<byte>)
    requires line != [] && line[|line| - 1] == NEWLINE && forall i :: 0 <= i < |line| - 1 ==> line[i] != NEWLINE
    ensures LineLength(line) == |line|
  {
    if |line| > 1 {
      LineLengthWhole(line[1..]);
    }
  }

  lemma QuietStepKeeps(cfg: Config, w: World, t: World, p: string)
    requires PathOk(cfg, w, p)
    requires t.content == w.content && w.history <= t.history && t.store == w.store && t.base == w.base
    requires t.tails == w.tails && t.starts == w.starts && t.sent == w.sent && Pending(t) == Pending(w)
    ensures PathOk(cfg, t, p)
  {
    hide MarkOk, Events, OnPath, Mark;
    SameFiles(cfg, w, t, p);
  }

  lemma FlushKeeps(cfg: Config, w: World, t: World, p: string)
    requires PathOk(cfg, w, p)
    requires t == w.(store := t.store) && t.store.files == w.store.files
    requires t.store.disk == w.store.disk || t.store.disk == Saved(w.store.files)
    ensures PathOk(cfg, t, p)
  {
    hide MarkOk, Events, OnPath, Mark;
    SameFiles(cfg, w, t, p);
    assert Pending(t) == Pending(w);
  }

  lemma CrashKeeps(cfg: Config, w: World, p: string)
    requires PathOk(cfg, w, p)
    ensures PathOk(cfg, Next(cfg, w, Step.Crash).value, p)
  {
    hide MarkOk, Events, Mark;
    var t := Next(cfg, w, Step.Crash).value;
    SameFiles(cfg, w, t, p);
  }

  /** The event in process is the first one after its path's watermark. */
  lemma CurrentIsNext(cfg: Config, w: World)
    requires w.current.Some? && PathOk(cfg, w, w.current.value.path)
    ensures var e := w.current.value; var data := FileOf(w, e.path); var mark := Mark(cfg, w.store.files, e.path);
            && e.path in w.tails && Boundary(data, mark) && Boundary(data, w.tails[e.path])
            && mark < e.offset <= w.tails[e.path] && Boundary(data, e.offset) && e.inode == cfg.inodes(e.path)
            && Between(cfg, e.path, data, mark, e.offset) == [e]
            && Between(cfg, e.path, data, e.offset, w.tails[e.path]) == OnPath(w.queue, e.path)
  {
    hide MarkOk, Events, Mark;
    var e := w.current.value;
    OnPathConcat([e], w.queue, e.path);
    OnPathAll([e], e.path, e.path);
    var data := FileOf(w, e.path);
    var mark := Mark(cfg, w.store.files, e.path);
    assert OnPath(Pending(w), e.path) == [e] + OnPath(w.queue, e.path);
    BetweenTail(cfg, e.path, data, mark, w.tails[e.path]);
  }

  /** Handling the event in process extends what is handled from its path's watermark to its offset. */
  lemma HandledExtends(cfg: Config, w: World)
    requires w.current.Some? && PathOk(cfg, w, w.current.value.path)
    requires (w.current.value.path, w.current.value.offset) in w.history
    ensures HandledUpTo(cfg, w, w.current.value.path, w.current.value.offset)
  {
    hide Events, Mark;
    var e := w.current.value;
    var data := FileOf(w, e.path);
    var mark := Mark(cfg, w.store.files, e.path);
    CurrentIsNext(cfg, w);
    var all, before := Events(e.path, cfg.inodes(e.path), data, 0), Between(cfg, e.path, data, 0, mark);
    var after := Between(cfg, e.path, data, e.offset, |data|);
    assert data[0..|data|] == data;
    BetweenSplit(cfg, e.path, data, 0, mark, |data|);
    BetweenSplit(cfg, e.path, data, mark, e.offset, |data|);
    assert all == before + ([e] + after);
    EventsOrdered(e.path, cfg.inodes(e.path), data[0..mark], 0);
    EventsOrdered(e.path, cfg.inodes(e.path), data[e.offset..|data|], e.offset);
    assert forall k :: |before| < k < |all| ==> all[k] == after[k - |before| - 1];
    forall k | 0 <= k < |all| && all[k].offset <= e.offset ensures (e.path, all[k].offset) in w.history {
      if k < |before| {
        assert all[k] == before[k];
      } else {
        assert k == |before|;
      }
    }
  }

  lemma SetOtherKeeps(cfg: Config, w: World, t: World, p: string)
    requires w.current.Some? && PathOk(cfg, w, p) && p != w.current.value.path
    requires var e := w.current.value;
             && t == w.(store := t.store, current := None, acked := false)
             && t.store.files == w.store.files[e.path := Entry(e.offset, e.inode)]
             && (t.store.disk == w.store.disk || t.store.disk == Saved(t.store.files))
    ensures PathOk(cfg, t, p)
  {
    hide Events;
    SameFiles(cfg, w, t, p);
    OnPathConcat([w.current.value], w.queue, p);
    OnPathAll([w.current.value], w.current.value.path, p);
    OnPathConcat([], w.queue, p);
    assert Mark(cfg, t.store.files, p) == Mark(cfg, w.store.files, p);
    hide MarkOk, Mark, OnPath;
    MarkByMark(cfg, t, p, w.store.files, t.store.files);
  }

  lemma MarkByMark(cfg: Config, t: World, p: string, files: Files, same: Files)
    requires MarkOk(cfg, t, p, files) && Mark(cfg, files, p) == Mark(cfg, same, p)
    ensures MarkOk(cfg, t, p, same)
  {
    hide Mark, Events;
  }

  lemma SetOwnKeeps(cfg: Config, w: World, t: World)
    requires w.current.Some? && PathOk(cfg, w, w.current.value.path)
    requires (w.current.value.path, w.current.value.offset) in w.history
    requires var e := w.current.value;
             && t == w.(store := t.store, current := None, acked := false)
             && t.store.files == w.store.files[e.path := Entry(e.offset, e.inode)]
             && (t.store.disk == w.store.disk || t.store.disk == Saved(t.store.files))
    ensures PathOk(cfg, t, w.current.value.path)
  {
    hide Events;
    var e := w.current.value;
    CurrentIsNext(cfg, w);
    HandledExtends(cfg, w);
    SameFiles(cfg, w, t, e.path);
    assert Mark(cfg, t.store.files, e.path) == e.offset;
    assert Pending(t) == w.queue;
    assert MarkOk(cfg, t, e.path, t.store.files);
    hide MarkOk, Mark, OnPath;
  }

  lemma NextPathOk(cfg: Config, w: World, step: Step, p: string)
    requires (forall path: string :: PathOk(cfg, w, path)) && LogOk(cfg, w) && Next(cfg, w, step).Some?
    ensures PathOk(cfg, Next(cfg, w, step).value, p)
  {
    hide PathOk, Events, LineLength, EventsOfLine, Consistent;
    var t := Next(cfg, w, step).value;
    match step
    case Write(path, chunk) => WriteKeeps(cfg, w, path, chunk, p);
    case Open(path) => OpenKeeps(cfg, w, path, p);
    case ReadLine(path) => assert PathOk(cfg, w, path); ReadLineKeeps(cfg, w, path, p);
    case Take => QuietStepKeeps(cfg, w, t, p);
    case Publish(ok) => QuietStepKeeps(cfg, w, t, p);
    case Drop => QuietStepKeeps(cfg, w, t, p);
    case SetWatermark =>
      if p == w.current.value.path {
        SetOwnKeeps(cfg, w, t);
      } else {
        SetOtherKeeps(cfg, w, t, p);
      }
    case FlushStore => FlushKeeps(cfg, w, t, p);
    case Crash => CrashKeeps(cfg, w, p);
  }

  // ---- The log of handled events --------------------------------------------------------------------------

  lemma UpdatesAppend(events: seq<LineEvent>, e: LineEvent)
    ensures Updates(events + [e]) == Updates(events) + [Update(e.path, Entry(e.offset, e.inode))]
  {
    assert (events + [e])[..|events|] == events;
  }

  lemma {:induction false} UpdatesPrefix(events: seq<LineEvent>, n: nat)
    requires n <= |events|
    ensures |Updates(events)| == |events| && Updates(events[..n]) == Updates(events)[..n]
  {
    if events != [] {
      var before := events[..|events| - 1];
      if n < |events| {
        UpdatesPrefix(before, n);
        assert events[..n] == before[..n];
      } else {
        UpdatesPrefix(before, |before|);
        assert events[..n] == events;
      }
    }
  }

  predicate RisingPerPath(events: seq<LineEvent>) {
    forall i, j :: 0 <= i < j < |events| && events[i].path == events[j].path ==> events[i].offset < events[j].offset
  }

  /** After replaying rising updates, no event is beyond its path's mark. */
  lemma {:induction false} ReplayCovers(cfg: Config, base: Files, events: seq<LineEvent>)
    requires RisingPerPath(events) && forall k :: 0 <= k < |events| ==> events[k].inode == cfg.inodes(events[k].path)
    ensures forall k :: 0 <= k < |events| ==>
              events[k].offset <= Mark(cfg, Replay(base, Updates(events)), events[k].path)
  {
    if events != [] {
      var before, last := events[..|events| - 1], events[|events| - 1];
      hide Mark, Replay, Updates;
      ReplayCovers(cfg, base, before);
      assert before + [last] == events;
      ReplayAppend(cfg, base, before, last);
    }
  }

  lemma ReplayAppend(cfg: Config, base: Files, before: seq<LineEvent>, last: LineEvent)
    requires last.inode == cfg.inodes(last.path)
    ensures forall path: string :: Mark(cfg, Replay(base, Updates(before + [last])), path) ==
              if path == last.path then last.offset else Mark(cfg, Replay(base, Updates(before)), path)
  {
    var u := Update(last.path, Entry(last.offset, last.inode));
    UpdatesAppend(before, last);
    assert (Updates(before) + [u])[..|Updates(before)|] == Updates(before);
    assert Replay(base, Updates(before) + [u]) == Replay(base, Updates(before))[u.path := u.entry];
  }

  lemma HandleKeepsLog(cfg: Config, w: World)
    requires LogOk(cfg, w) && w.current.Some? && !w.acked && PathOk(cfg, w, w.current.value.path)
    ensures LogOk(cfg, Handle(w))
  {
    hide Replay, Mark, MarkOk, TailOk;
    var t := Handle(w);
    CurrentAhead(cfg, w);
    assert Done(t) == w.handled == Done(w);
  }

  /** The event in process is beyond all handled events of its path. */
  lemma CurrentAhead(cfg: Config, w: World)
    requires LogOk(cfg, w) && w.current.Some? && !w.acked && PathOk(cfg, w, w.current.value.path)
    ensures w.current.value.inode == cfg.inodes(w.current.value.path)
    ensures forall k :: 0 <= k < |w.handled| && w.handled[k].path == w.current.value.path ==>
              w.handled[k].offset < w.current.value.offset
  {
    hide Mark, MarkOk, TailOk;
    CurrentIsNext(cfg, w);
    ReplayCovers(cfg, w.base, w.handled);
  }

  lemma SetConsistent(cfg: Config, w: World)
    requires LogOk(cfg, w) && w.current.Some? && w.acked
    ensures Consistent(w.base, Next(cfg, w, SetWatermark).value.store, Updates(w.handled))
  {
    hide Replay, Consistent, Updates;
    var e := w.current.value;
    assert w.handled == Done(w) + [e];
    UpdatesAppend(Done(w), e);
    ApplyConsistent(cfg.opts, w.base, w.store, Updates(Done(w)), DoSet(Update(e.path, Entry(e.offset, e.inode)), true));
  }

  lemma SetKeepsLog(cfg: Config, w: World)
    requires LogOk(cfg, w) && w.current.Some? && w.acked
    ensures LogOk(cfg, Next(cfg, w, SetWatermark).value)
  {
    hide Consistent;
    SetConsistent(cfg, w);
  }

  lemma NextLogOk(cfg: Config, w: World, step: Step)
    requires (forall path: string :: PathOk(cfg, w, path)) && LogOk(cfg, w) && Next(cfg, w, step).Some?
    ensures LogOk(cfg, Next(cfg, w, step).value)
  {
    hide PathOk, Events, LineLength, EventsOfLine, Consistent;
    match step
    case Publish(ok) => if ok { assert PathOk(cfg, w, w.current.value.path); HandleKeepsLog(cfg, w); }
    case Drop => assert PathOk(cfg, w, w.current.value.path); HandleKeepsLog(cfg, w);
    case SetWatermark => SetKeepsLog(cfg, w);
    case FlushStore => ApplyConsistent(cfg.opts, w.base, w.store, Updates(Done(w)), DoFlush(true));
    case Crash => FreshConsistent(w.store.disk);
    case _ =>
  }

  lemma FreshConsistent(disk: Disk)
    ensures Consistent(Loaded(disk), StoreState(Loaded(disk), false, 0, disk), [])
  {
  }

  lemma {:induction false} Reachable(cfg: Config, content: map<string, seq<byte>>, trace: seq<Step>)
    requires forall p :: p in content ==> EndsLine(content[p])
    requires Exec(cfg, content, trace).Some?
    ensures Inv(cfg, Exec(cfg, content, trace).value)
  {
    hide PathOk, LogOk, Next;
    var t := Exec(cfg, content, trace).value;
    if trace == [] {
      forall path: string ensures PathOk(cfg, t, path) {
        InitOk(cfg, content, path);
      }
      InitLogOk(cfg, content);
    } else {
      var before := trace[..|trace| - 1];
      var w := Exec(cfg, content, before).value;
      Reachable(cfg, content, before);
      forall path: string ensures PathOk(cfg, t, path) {
        NextPathOk(cfg, w, trace[|trace| - 1], path);
      }
      NextLogOk(cfg, w, trace[|trace| - 1]);
    }
  }

  lemma InitLogOk(cfg: Config, content: map<string, seq<byte>>)
    ensures LogOk(cfg, Start(content))
  {
  }

  // ---- The theorems ---------------------------------------------------------------------------------------

  lemma DiskCovers(cfg: Config, w: World, path: string, e: int)
    requires PathOk(cfg, w, path)
    requires LineAt(FileOf(w, path), e) != [] && e <= Mark(cfg, Loaded(w.store.disk), path)
    ensures (path, e) in w.history
  {
    hide Events, LineAt, Mark, TailOk;
    EventsExact(path, cfg.inodes(path), FileOf(w, path), 0, e);
  }

  /**
   At least once: over any number of crashes and restarts, every non-blank line that ends at or before its file's
   on-disk watermark was published, filtered or skipped in some run.
   */
  lemma NothingBehindTheDiskIsLost(cfg: Config, content: map<string, seq<byte>>, trace: seq<Step>, path: string, e: int)
    requires (forall p :: p in content ==> EndsLine(content[p])) && Exec(cfg, content, trace).Some?
    ensures var w := Exec(cfg, content, trace).value;
            LineAt(FileOf(w, path), e) != [] && e <= Mark(cfg, Loaded(w.store.disk), path)
            ==> (path, e) in w.history
  {
    hide Exec, LineAt;
    Reachable(cfg, content, trace);
    var w := Exec(cfg, content, trace).value;
    assert PathOk(cfg, w, path);
    if LineAt(FileOf(w, path), e) != [] && e <= Mark(cfg, Loaded(w.store.disk), path) {
      DiskCovers(cfg, w, path, e);
    }
  }

  /**
   Restart is exact: in every run, what the watcher has sent for a file is the events from the watermark that the
   store was loaded with up to its read position, nothing missing and nothing twice.
   */
  lemma RestartIsExact(cfg: Config, content: map<string, seq<byte>>, trace: seq<Step>, path: string)
    requires (forall p :: p in content ==> EndsLine(content[p])) && Exec(cfg, content, trace).Some?
    requires path in Exec(cfg, content, trace).value.tails
    ensures var w := Exec(cfg, content, trace).value;
            var from, to := Mark(cfg, w.base, path), w.tails[path];
            0 <= from <= to <= |FileOf(w, path)|
            && OnPath(w.sent, path) == Events(path, cfg.inodes(path), FileOf(w, path)[from..to], from)
  {
    Reachable(cfg, content, trace);
    assert PathOk(cfg, Exec(cfg, content, trace).value, path);
  }

  /** What a crash now would make the next run deliver again: handled events beyond the on-disk watermarks. */
  function Redelivered(cfg: Config, disk: Files, handled: seq<LineEvent>): nat {
    if handled == [] then 0
    else
      var last := handled[|handled| - 1];
      Redelivered(cfg, disk, handled[..|handled| - 1]) + if last.offset > Mark(cfg, disk, last.path) then 1 else 0
  }

  lemma {:induction false} RedeliveredBound(cfg: Config, disk: Files, handled: seq<LineEvent>, covered: nat)
    requires covered <= |handled|
    requires forall k :: 0 <= k < covered ==> handled[k].offset <= Mark(cfg, disk, handled[k].path)
    ensures Redelivered(cfg, disk, handled) <= |handled| - covered
  {
    if handled != [] {
      RedeliveredBound(cfg, disk, handled[..|handled| - 1], if covered < |handled| then covered else covered - 1);
    }
  }

  lemma FewRedelivered(cfg: Config, w: World)
    requires LogOk(cfg, w)
    ensures Redelivered(cfg, Loaded(w.store.disk), w.handled)
            <= w.store.updatesSinceFlush + if w.acked then 1 else 0
  {
    hide Replay, Mark, Updates, Redelivered;
    var done := Done(w);
    var covered := |done| - w.store.updatesSinceFlush;
    UpdatesPrefix(done, |done|);
    UpdatesPrefix(done, covered);
    assert forall k :: 0 <= k < covered ==> w.handled[k] == done[..covered][k];
    assert RisingPerPath(done[..covered]);
    ReplayCovers(cfg, w.base, done[..covered]);
    RedeliveredBound(cfg, Loaded(w.store.disk), w.handled, covered);
  }

  /**
   A crash re-delivers at most flush_every of the lines handled in the crashed run when flush_every is positive,
   and at most one when both flush settings are zero, across all files.
   */
  lemma CrashRedeliversFew(cfg: Config, content: map<string, seq<byte>>, trace: seq<Step>)
    requires (forall p :: p in content ==> EndsLine(content[p])) && Exec(cfg, content, trace).Some?
    ensures var w := Exec(cfg, content, trace).value;
            var again := Redelivered(cfg, Loaded(w.store.disk), w.handled);
            && (cfg.opts.flushEvery > 0 ==> again <= cfg.opts.flushEvery)
            && (cfg.opts.flushEvery == 0 && cfg.opts.flushInterval == 0 ==> again <= 1)
  {
    hide Exec, PathOk;
    Reachable(cfg, content, trace);
    var w := Exec(cfg, content, trace).value;
    FewRedelivered(cfg, w);
  }

  // ---- Several crashes ------------------------------------------------------------------------------------

  function Marks(events: seq<LineEvent>): set<(string, int)> {
    if events == [] then {}
    else Marks(events[..|events| - 1]) + {(events[|events| - 1].path, events[|events| - 1].offset)}
  }

  /** The lines that lie beyond their file's mark. */
  function Beyond(cfg: Config, files: Files, lines: set<(string, int)>): set<(string, int)> {
    set line | line in lines && line.1 > Mark(cfg, files, line.0)
  }

  lemma {:induction false} BeyondRedelivered(cfg: Config, files: Files, events: seq<LineEvent>)
    ensures |Beyond(cfg, files, Marks(events))| <= Redelivered(cfg, files, events)
  {
    if events != [] {
      var before, last := events[..|events| - 1], events[|events| - 1];
      BeyondRedelivered(cfg, files, before);
      var line := (last.path, last.offset);
      hide Mark;
      if last.offset > Mark(cfg, files, last.path) {
        assert Beyond(cfg, files, Marks(events)) == Beyond(cfg, files, Marks(before)) + {line};
      } else {
        assert Beyond(cfg, files, Marks(events)) == Beyond(cfg, files, Marks(before));
      }
    }
  }

  lemma SubsetSize<T>(a: set<T>, b: set<T>)
    requires a <= b
    ensures |a| <= |b|
  {
    assert b == a + (b - a);
  }

  lemma UnionSize<T>(a: set<T>, b: set<T>)
    ensures |a + b| <= |a| + |b|
  {
    assert a + b == a + (b - a);
    SubsetSize(b - a, b);
  }

  /** Replaying updates beyond the marks never moves a mark back. */
  lemma {:induction false} ReplayAbove(cfg: Config, base: Files, events: seq<LineEvent>, path: string)
    requires forall k :: 0 <= k < |events| ==>
               events[k].inode == cfg.inodes(events[k].path) && events[k].offset > Mark(cfg, base, events[k].path)
    ensures Mark(cfg, Replay(base, Updates(events)), path) >= Mark(cfg, base, path)
  {
    if events != [] {
      var before, last := events[..|events| - 1], events[|events| - 1];
      hide Mark, Replay, Updates;
      ReplayAbove(cfg, base, before, path);
      assert before + [last] == events;
      ReplayAppend(cfg, base, before, last);
    } else {
      assert Updates(events) == [];
    }
  }

  /** The persist policy bounds how far the file lags. */
  predicate Bounded(opts: Options) {
    opts.flushEvery > 0 || (opts.flushEvery == 0 && opts.flushInterval == 0)
  }

  function PerCrash(opts: Options): nat
    requires Bounded(opts)
  {
    if opts.flushEvery > 0 then opts.flushEvery else 1
  }

  ghost predicate HistoryOk(cfg: Config, w: World)
    requires Bounded(cfg.opts)
  {
    && w.history == w.earlier + Marks(w.handled)
    && (forall k :: 0 <= k < |w.handled| ==> w.handled[k].offset > Mark(cfg, w.base, w.handled[k].path))
    && |Beyond(cfg, w.base, w.earlier)| <= w.crashes * PerCrash(cfg.opts)
  }

  lemma BeyondUnion(cfg: Config, base: Files, disk: Files, earlier: set<(string, int)>, lines: set<(string, int)>)
    requires forall path: string :: Mark(cfg, disk, path) >= Mark(cfg, base, path)
    ensures |Beyond(cfg, disk, earlier + lines)| <= |Beyond(cfg, base, earlier)| + |Beyond(cfg, disk, lines)|
  {
    hide Mark;
    assert Beyond(cfg, disk, earlier + lines) == Beyond(cfg, disk, earlier) + Beyond(cfg, disk, lines);
    assert Beyond(cfg, disk, earlier) <= Beyond(cfg, base, earlier);
    UnionSize(Beyond(cfg, disk, earlier), Beyond(cfg, disk, lines));
    SubsetSize(Beyond(cfg, disk, earlier), Beyond(cfg, base, earlier));
  }

  lemma OneMore(crashes: nat, each: nat)
    ensures (crashes + 1) * each == crashes * each + each
  {
  }

  /** What the next run would deliver again, of all runs so far. */
  lemma BeyondDisk(cfg: Config, w: World)
    requires Bounded(cfg.opts) && LogOk(cfg, w) && HistoryOk(cfg, w)
    ensures |Beyond(cfg, Loaded(w.store.disk), w.history)| <= (w.crashes + 1) * PerCrash(cfg.opts)
  {
    var disk := Loaded(w.store.disk);
    DiskAbove(cfg, w);
    FewRedelivered(cfg, w);
    hide LogOk, Mark, Marks, Redelivered, Beyond;
    BeyondRedelivered(cfg, disk, w.handled);
    BeyondUnion(cfg, w.base, disk, w.earlier, Marks(w.handled));
    OneMore(w.crashes, PerCrash(cfg.opts));
  }

  /** The marks on disk are never behind those that the run started with; a crash loses few of the handled lines. */
  lemma DiskAbove(cfg: Config, w: World)
    requires Bounded(cfg.opts) && LogOk(cfg, w) && HistoryOk(cfg, w)
    ensures forall path: string :: Mark(cfg, Loaded(w.store.disk), path) >= Mark(cfg, w.base, path)
    ensures w.store.updatesSinceFlush + (if w.acked then 1 else 0) <= PerCrash(cfg.opts)
  {
    hide Replay, Mark, Updates, Beyond, Marks;
    var done := Done(w);
    var covered := |done| - w.store.updatesSinceFlush;
    UpdatesPrefix(done, |done|);
    UpdatesPrefix(done, covered);
    assert forall k :: 0 <= k < covered ==> w.handled[k] == done[..covered][k];
    forall path: string ensures Mark(cfg, Loaded(w.store.disk), path) >= Mark(cfg, w.base, path) {
      ReplayAbove(cfg, w.base, done[..covered], path);
    }
  }

  lemma HandleKeepsHistory(cfg: Config, w: World)
    requires Bounded(cfg.opts) && HistoryOk(cfg, w)
    requires w.current.Some? && PathOk(cfg, w, w.current.value.path)
    ensures HistoryOk(cfg, Handle(w))
  {
    var e := w.current.value;
    CurrentIsNext(cfg, w);
    assert e.offset > Mark(cfg, w.base, e.path);
    hide PathOk, Mark;
    assert (w.handled + [e])[..|w.handled|] == w.handled;
    assert Marks(w.handled + [e]) == Marks(w.handled) + {(e.path, e.offset)};
  }

  lemma NextHistoryOk(cfg: Config, w: World, step: Step)
    requires Bounded(cfg.opts) && Inv(cfg, w) && HistoryOk(cfg, w) && Next(cfg, w, step).Some?
    ensures HistoryOk(cfg, Next(cfg, w, step).value)
  {
    match step
    case Publish(ok) => if ok { HandleKeepsHistory(cfg, w); }
    case Drop => HandleKeepsHistory(cfg, w);
    case Crash => CrashKeepsHistory(cfg, w);
    case _ => hide PathOk, Mark, LineLength, EventsOfLine, SetTo, FlushTo, Beyond, Marks;
  }

  lemma CrashKeepsHistory(cfg: Config, w: World)
    requires Bounded(cfg.opts) && LogOk(cfg, w) && HistoryOk(cfg, w)
    ensures HistoryOk(cfg, Next(cfg, w, Step.Crash).value)
  {
    BeyondDisk(cfg, w);
    var t := Next(cfg, w, Step.Crash).value;
    assert t.handled == [] && t.earlier == w.history && t.history == w.history && t.crashes == w.crashes + 1;
    assert t.base == Loaded(w.store.disk);
    hide Next, LogOk, Mark, Beyond, PerCrash;
  }

  lemma {:induction false} HistoryAlways(cfg: Config, content: map<string, seq<byte>>, trace: seq<Step>)
    requires Bounded(cfg.opts) && forall p :: p in content ==> EndsLine(content[p])
    requires Exec(cfg, content, trace).Some?
    ensures HistoryOk(cfg, Exec(cfg, content, trace).value)
  {
    hide Next, Inv, Mark;
    if trace == [] {
      assert Beyond(cfg, map[], {}) == {};
    } else {
      var before := trace[..|trace| - 1];
      HistoryAlways(cfg, content, before);
      Reachable(cfg, content, before);
      hide HistoryOk;
      NextHistoryOk(cfg, Exec(cfg, content, before).value, trace[|trace| - 1]);
    }
  }

  /**
   Over any number of crashes, a crash now would make the next run deliver again at most flush_every lines for each
   run so far, and at most one for each in synchronous mode, of all lines handled in any run and across all files.
   */
  lemma CrashesRedeliverFew(cfg: Config, content: map<string, seq<byte>>, trace: seq<Step>)
    requires Bounded(cfg.opts) && forall p :: p in content ==> EndsLine(content[p])
    requires Exec(cfg, content, trace).Some?
    ensures var w := Exec(cfg, content, trace).value;
            |Beyond(cfg, Loaded(w.store.disk), w.history)| <= (w.crashes + 1) * PerCrash(cfg.opts)
  {
    HistoryAlways(cfg, content, trace);
    Reachable(cfg, content, trace);
    hide Exec, PathOk, LogOk, HistoryOk;
    BeyondDisk(cfg, Exec(cfg, content, trace).value);
  }

  // ---- The history is honest ------------------------------------------------------------------------------

  /** The step publishes, filters or skips the line that ends here. */
  predicate HandlesAt(cfg: Config, content: map<string, seq<byte>>, before: seq<Step>, step: Step,
                      line: (string, int))
  {
    && (step == Publish(true) || step == Step.Drop)
    && Exec(cfg, content, before).Some? && Exec(cfg, content, before).value.current.Some?
    && var e := Exec(cfg, content, before).value.current.value; line == (e.path, e.offset)
  }

  ghost predicate HandledBy(cfg: Config, content: map<string, seq<byte>>, trace: seq<Step>, line: (string, int)) {
    exists j :: 0 <= j < |trace| && HandlesAt(cfg, content, trace[..j], trace[j], line)
  }

  lemma HandledBySnoc(cfg: Config, content: map<string, seq<byte>>, trace: seq<Step>, step: Step, line: (string, int))
    ensures HandledBy(cfg, content, trace, line) || HandlesAt(cfg, content, trace, step, line) ==>
              HandledBy(cfg, content, trace + [step], line)
  {
    hide HandlesAt;
    var longer := trace + [step];
    assert longer[..|trace|] == trace && longer[|trace|] == step;
    if HandledBy(cfg, content, trace, line) {
      var j :| 0 <= j < |trace| && HandlesAt(cfg, content, trace[..j], trace[j], line);
      assert longer[..j] == trace[..j] && longer[j] == trace[j];
    }
  }

  lemma HistoryStep(cfg: Config, w: World, step: Step, line: (string, int))
    requires Next(cfg, w, step).Some? && line in Next(cfg, w, step).value.history
    ensures line in w.history
            || ((step == Publish(true) || step == Step.Drop) && w.current.Some?
                && line == (w.current.value.path, w.current.value.offset))
  {
    hide SetTo, FlushTo, LineLength, EventsOfLine, Mark;
  }

  /** A line is in the history only if some run published, filtered or skipped it. */
  lemma {:induction false} HistoryIsHonest(cfg: Config, content: map<string, seq<byte>>, trace: seq<Step>,
                                           line: (string, int))
    requires Exec(cfg, content, trace).Some? && line in Exec(cfg, content, trace).value.history
    ensures HandledBy(cfg, content, trace, line)
  {
    if trace != [] {
      var before, step := trace[..|trace| - 1], trace[|trace| - 1];
      var w := Exec(cfg, content, before).value;
      assert before + [step] == trace;
      HistoryStep(cfg, w, step, line);
      HandledBySnoc(cfg, content, before, step, line);
      if line in w.history {
        HistoryIsHonest(cfg, content, before, line);
      }
      hide Next, HandledBy;
    }
  }
}
