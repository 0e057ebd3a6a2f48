/**
 The two ends of the at-least-once system are the methods of the watcher and of process: reading a file to its end, and
 what process does to one event, are stretches of an interleaving and leave watcher and watermark store where that
 interleaving leads.
 */
module Consumer {
  import opened Common
  import opened AtLeastOnce
  import P = Pipeline
  import T = Watcher
  import R = Retry
  import W = Watermark

  /** The steps that one call of process stands for, once it has come to its end. */
  function StepsOf(fate: P.Fate, result: R.Result): seq<Step> {
    if fate.Dropped? then [Drop, SetWatermark]
    else if fate.Rejected? then [Publish(false)]
    else
      match result
      case Published => [Publish(true), SetWatermark]
      case Unfinished => []
      case _ => [Publish(false)]
  }

  lemma ExecAppend(cfg: Config, content: map<string, seq<byte>>, trace: seq<Step>, step: Step)
    requires Exec(cfg, content, trace).Some?
    ensures Exec(cfg, content, trace + [step]) == Next(cfg, Exec(cfg, content, trace).value, step)
  {
    hide Next;
    assert (trace + [step])[..|trace|] == trace;
  }

  lemma StepsOfExec(cfg: Config, content: map<string, seq<byte>>, trace: seq<Step>, fate: P.Fate, result: R.Result)
    requires Exec(cfg, content, trace).Some?
    requires var w := Exec(cfg, content, trace).value; w.current.Some? && !w.acked && !w.stopped
    ensures var w := Exec(cfg, content, trace).value; var e := w.current.value;
            var after := Exec(cfg, content, trace + StepsOf(fate, result));
            && after.Some?
            && (if fate.Dropped? || (fate.ToSink? && result == R.Published) then
                  && after.value.current.None? && !after.value.stopped && (e.path, e.offset) in after.value.history
                  && after.value.store == W.SetTo(cfg.opts, w.store, W.Update(e.path, W.Entry(e.offset, e.inode)), true)
                else
                  after.value.store == w.store && after.value.current == w.current
                  && (after.value.stopped <==> fate.Rejected? || result != R.Unfinished))
  {
    hide Exec;
    var steps := StepsOf(fate, result);
    if steps == [] {
      assert trace + [] == trace;
    } else {
      ExecAppend(cfg, content, trace, steps[0]);
      if |steps| == 2 {
        ExecAppend(cfg, content, trace + [steps[0]], steps[1]);
        assert trace + [steps[0]] + [steps[1]] == trace + steps;
      }
    }
  }

  /** process on the event that the interleaving has in process, its persists succeeding. */
  method Consume(p: P.Processor, event: P.Event, encode: P.T.Payload -> seq<byte>, script: seq<R.Attempt>,
                 ghost cfg: Config, ghost content: map<string, seq<byte>>, ghost trace: seq<Step>)
    returns (err: Err, ghost longer: seq<Step>)
    requires p.sink as object != p.store as object && P.Ranged(event)
    requires Exec(cfg, content, trace).Some?
    requires var w := Exec(cfg, content, trace).value;
             && w.current.Some? && w.current.value.path == event.path && w.current.value.offset == event.offset
             && w.current.value.inode == event.inode
             && !w.acked && !w.stopped && p.store.opts == cfg.opts && p.store.View() == w.store
    modifies p.sink, p.store
    ensures trace <= longer && Exec(cfg, content, longer).Some?
    ensures var w := Exec(cfg, content, longer).value;
            && p.store.View() == w.store
            && if p.GetsThrough(event, script) then
                 err == Nil && w.current.None? && (event.path, event.offset) in w.history
               else err != Nil && w.current.Some?
  {
    hide Exec, P.Processor.PreparedAs, R.EndsAs, R.DeliveredBy;
    var fate, result, attempts;
    err, fate, result, attempts := p.Process(event, encode, script, true);
    StepsOfExec(cfg, content, trace, fate, result);
    longer := trace + StepsOf(fate, result);
  }

  // ---- The watcher ----------------------------------------------------------------------------------------

  /** The world once a file has been read to its end, one line at a time. */
  function ReadOut(cfg: Config, w: World, path: string): World
    requires path in w.tails && w.tails[path] <= |FileOf(w, path)|
  {
    var events := T.Events(path, cfg.inodes(path), FileOf(w, path)[w.tails[path]..], w.tails[path]);
    w.(tails := w.tails[path := |FileOf(w, path)|], queue := w.queue + events, sent := w.sent + events)
  }

  /** One line read leaves the same to read out. */
  lemma ReadOutStep(cfg: Config, w: World, path: string)
    requires path in w.tails && w.tails[path] < |FileOf(w, path)|
    ensures var t := Next(cfg, w, ReadLine(path));
            && t.Some? && path in t.value.tails && w.tails[path] < t.value.tails[path] <= |FileOf(w, path)|
            && FileOf(t.value, path) == FileOf(w, path)
            && ReadOut(cfg, t.value, path) == ReadOut(cfg, w, path)
  {
    hide T.Events, T.LineLength, T.EventsOfLine;
    var at := w.tails[path];
    var data := FileOf(w, path);
    var n := T.LineLength(data[at..]);
    T.EventsFirst(path, cfg.inodes(path), data[at..], at);
    assert data[at..][n..] == data[at + n..];
    var line, rest := T.EventsOfLine(path, cfg.inodes(path), data[at..][..n], at + n),
                      T.Events(path, cfg.inodes(path), data[at + n..], at + n);
    T.ConcatAssociates(w.queue, line, rest);
    T.ConcatAssociates(w.sent, line, rest);
    assert w.tails[path := at + n][path := |data|] == w.tails[path := |data|];
  }

  lemma ReadOutDone(cfg: Config, w: World, path: string)
    requires path in w.tails && w.tails[path] == |FileOf(w, path)|
    ensures ReadOut(cfg, w, path) == w
  {
    T.EventsEmpty(path, cfg.inodes(path), w.tails[path]);
    assert FileOf(w, path)[w.tails[path]..] == [];
    assert w.tails[path := w.tails[path]] == w.tails;
  }

  /** Reading a file to its end is a stretch of ReadLine steps. */
  lemma {:induction false} ReadOutIsAStretch(cfg: Config, content: map<string, seq<byte>>, trace: seq<Step>,
                                             path: string)
    returns (longer: seq<Step>)
    requires Exec(cfg, content, trace).Some? && path in Exec(cfg, content, trace).value.tails
    requires var w := Exec(cfg, content, trace).value; w.tails[path] <= |FileOf(w, path)|
    ensures trace <= longer && forall k :: |trace| <= k < |longer| ==> longer[k] == ReadLine(path)
    ensures Exec(cfg, content, longer) == Some(ReadOut(cfg, Exec(cfg, content, trace).value, path))
    decreases var w := Exec(cfg, content, trace).value; |FileOf(w, path)| - w.tails[path]
  {
    hide Exec, Next, ReadOut;
    var w := Exec(cfg, content, trace).value;
    if w.tails[path] == |FileOf(w, path)| {
      ReadOutDone(cfg, w, path);
      longer := trace;
    } else {
      ReadOutStep(cfg, w, path);
      ExecAppend(cfg, content, trace, ReadLine(path));
      longer := ReadOutIsAStretch(cfg, content, trace + [ReadLine(path)], path);
    }
  }

  /** readNewLines on a file that the interleaving tails, the channel taking every line. */
  method Tail(watcher: T.Watcher, path: string, data: seq<byte>, ghost cfg: Config,
              ghost content: map<string, seq<byte>>, ghost trace: seq<Step>)
    returns (ghost longer: seq<Step>)
    requires Exec(cfg, content, trace).Some? && path in watcher.files
    requires var w := Exec(cfg, content, trace).value; var tail := watcher.files[path];
             && path in w.tails && w.tails[path] == tail.offset <= |data| && tail.inode == cfg.inodes(path)
             && data == FileOf(w, path)
    modifies watcher
    ensures trace <= longer && forall k :: |trace| <= k < |longer| ==> longer[k] == ReadLine(path)
    ensures Exec(cfg, content, longer).Some? && old(watcher.lines) <= watcher.lines
    ensures var w, t := Exec(cfg, content, trace).value, Exec(cfg, content, longer).value;
            && watcher.files == old(watcher.files)[path := old(watcher.files)[path].(offset := |data|)]
            && path in t.tails && t.tails[path] == |data|
            && t.sent == w.sent + watcher.lines[|old(watcher.lines)|..]
            && t.queue == w.queue + watcher.lines[|old(watcher.lines)|..]
  {
    hide Exec, T.Events, T.AllLines;
    ghost var w := Exec(cfg, content, trace).value;
    ghost var at, before := watcher.files[path].offset, watcher.lines;
    var sends;
    ghost var events;
    sends, events := watcher.ReadNewLines(path, data, _ => true);
    T.EventsAreAllLines(path, cfg.inodes(path), data, at);
    T.AllLinesUnique(events, T.Events(path, cfg.inodes(path), data[at..], at), path, cfg.inodes(path), data, at);
    longer := ReadOutIsAStretch(cfg, content, trace, path);
    assert watcher.lines == before + events;
    assert watcher.lines[|before|..] == events;
  }
}
