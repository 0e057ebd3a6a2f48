/**
 Tailing a file: the line events of a byte range, the loop that reads and sends them, and resuming from a
 watermark.  A file is the sequence of bytes it holds when it is read.
 */
module Watcher {
  import opened Common
  import opened Watermark

  datatype LineEvent = LineEvent(path: string, line: seq<byte>, offset: int, inode: nat)

  /** pipeline.on_full */
  datatype OnFull = Block | Drop

  // ---- The line events of a byte range --------------------------------------------------------------------

  /** How many bytes ReadBytes('\n') returns: up to and including the first newline, or all. */
  function LineLength(data: seq<byte>): (n: nat)
    ensures n <= |data| && (data != [] ==> n > 0)
  {
    if data == [] then 0 else if data[0] == NEWLINE then 1 else 1 + LineLength(data[1..])
  }

  /** strings.TrimRight(line, "\r\n") */
  function TrimRight(line: seq<byte>): seq<byte> {
    if line != [] && (line[|line| - 1] == NEWLINE || line[|line| - 1] == RETURN) then TrimRight(line[..|line| - 1])
    else line
  }

  /** The event of one physical line that ends at `offset`: none for a blank line. */
  function EventsOfLine(path: string, inode: nat, line: seq<byte>, offset: int): seq<LineEvent> {
    if TrimRight(line) == [] then [] else [LineEvent(path, TrimRight(line), offset, inode)]
  }

  /** The events of `data`, which starts `base` bytes into the file. */
  function Events(path: string, inode: nat, data: seq<byte>, base: int): seq<LineEvent>
    decreases |data|
  {
    if data == [] then []
    else
      var n := LineLength(data);
      EventsOfLine(path, inode, data[..n], base + n) + Events(path, inode, data[n..], base + n)
  }

  predicate EndsLine(data: seq<byte>) {
    data == [] || data[|data| - 1] == NEWLINE
  }

  // ---- The code -------------------------------------------------------------------------------------------

  /** fileState */
  datatype Tail = Tail(offset: int, inode: nat, resumed: bool)

  /** The events that a full channel did not make the watcher drop. */
  function Kept(events: seq<LineEvent>, ready: nat -> bool): seq<LineEvent> {
    if events == [] then []
    else
      var k := |events| - 1;
      Kept(events[..k], ready) + if ready(k) then [events[k]] else []
  }

  /** Dropping never stops a read; blocking stops it at the first event that the channel does not take. */
  predicate StopsAt(onFull: OnFull, events: seq<LineEvent>, ready: nat -> bool, k: nat) {
    && k <= |events|
    && (k < |events| ==> onFull == Block && !ready(k))
    && (onFull == Block ==> forall j :: 0 <= j < k ==> ready(j))
  }

  class Watcher {
    const onFull: OnFull
    var files: map<string, Tail>
    var lines: seq<LineEvent>

    constructor (onFull: OnFull)
      ensures this.onFull == onFull && files == map[] && lines == []
    {
      this.onFull := onFull;
      files, lines := map[], [];
    }

    /** `ready` tells whether the channel takes the event; if not, a blocked send ends with the context. */
    method SendLineEvent(event: LineEvent, ready: bool) returns (goOn: bool)
      modifies this`lines
      ensures goOn == (onFull == Drop || ready)
      ensures lines == if ready then old(lines) + [event] else old(lines)
    {
      if ready {
        lines := lines + [event];
        return true;
      }
      goOn := onFull == Drop;
    }

    /** The body of the read loop for one physical line: advance the offset, send the line unless it is blank. */
    method TakeLine(path: string, line: seq<byte>, ready: bool) returns (goOn: bool)
      requires path in files
      modifies this`lines, this`files
      ensures var tail := old(files)[path]; var events := EventsOfLine(path, tail.inode, line, tail.offset + |line|);
              && files == old(files)[path := tail.(offset := tail.offset + |line|)]
              && lines == old(lines) + (if ready then events else [])
              && (goOn <==> events == [] || ready || onFull == Drop)
    {
      var trimmed := TrimRight(line);
      files := files[path := files[path].(offset := files[path].offset + |line|)];
      goOn := true;
      if trimmed != [] {
        goOn := SendLineEvent(LineEvent(path, trimmed, files[path].offset, files[path].inode), ready);
      }
    }

    /**
     Reads to the end of the file.  `events` are all lines of the unread part of the file; `sends` is the number of the
     one at which shutdown stopped the read, or of all.  A read that was not stopped leaves the offset at the end of
     the file, a stopped one behind the line that was not sent.  A file shorter than the offset reads as empty.
     */
    method ReadNewLines(path: string, content: seq<byte>, ready: nat -> bool)
      returns (sends: nat, ghost events: seq<LineEvent>)
      requires path in files
      modifies this`lines, this`files
      ensures AllLines(events, path, old(files)[path].inode, content, old(files)[path].offset)
      ensures StopsAt(onFull, events, ready, sends)
      ensures lines == old(lines) + Kept(events[..sends], ready)
      ensures (forall k: nat :: k < |events| ==> ready(k)) ==> sends == |events| && lines == old(lines) + events
      ensures var start := old(files)[path].offset;
              files == old(files)[path := old(files)[path].(offset :=
                if sends < |events| then events[sends].offset
                else if 0 <= start <= |content| then |content| else start)]
    {
      hide LineLength, TrimRight, Events, Kept, EventsOfLine, StopsAt, AllLines;
      ghost var start := files[path];
      var first := files[path].offset;
      var rest := if 0 <= first <= |content| then content[first..] else [];
      EventsAreAllLines(path, start.inode, content, first);
      ghost var at, end := start.offset, start.offset + |rest|;
      events := Events(path, start.inode, rest, start.offset);
      ghost var done: seq<LineEvent> := [];
      sends := 0;
      KeptAll([], ready);
      while rest != []
        invariant sends == |done|
        invariant at + |rest| == end && path in files && files == old(files)[path := start.(offset := at)]
        invariant events == done + Events(path, start.inode, rest, at)
        invariant lines == old(lines) + Kept(done, ready)
        invariant onFull == Block ==> forall j :: 0 <= j < |done| ==> ready(j)
        decreases |rest|
      {
        var n := LineLength(rest);
        LineUnfold(path, start.inode, rest, at, done, ready);
        at := at + n;
        ghost var found := EventsOfLine(path, start.inode, rest[..n], at);
        ghost var sent := lines;
        var goOn := TakeLine(path, rest[..n], ready(sends));
        assert files == old(files)[path := start.(offset := at)];
        assert lines == sent + if ready(sends) then found else [];
        if !goOn {
          StopsEarly(onFull, events, done, found[0], ready);
          assert !ready(|done|);
          return;
        }
        KeptMore(old(lines), sent, done, found, ready, lines);
        if TrimRight(rest[..n]) != [] {
          sends := sends + 1;
        }
        done := done + found;
        rest := rest[n..];
      }
      EventsEmpty(path, start.inode, end);
      StopsLate(onFull, events, done, ready);
      AllTaken(events, ready);
    }

    /** Without a watermark store, or with a watermark for another inode, a file starts at its beginning. */
    method InitialOffset(watermarks: Store?, path: string, inode: nat) returns (offset: int, resumed: bool)
      ensures (offset, resumed) == StartOf(if watermarks == null then map[] else watermarks.files, path, inode)
      ensures resumed <==> watermarks != null && path in watermarks.files && watermarks.files[path].inode == inode
      ensures offset == if resumed then watermarks.files[path].offset else 0
    {
      if watermarks == null {
        return 0, false;
      }
      var entry := watermarks.Get(path);
      if entry.None? || entry.value.inode != inode {
        return 0, false;
      }
      return entry.value.offset, true;
    }

    /**
     Continues a known file; opens a new one, or one whose inode changed, at the watermark for this inode if there is
     one, else at its beginning.  Then reads it from `start` to its end.
     */
    method TailFile(watermarks: Store?, path: string, inode: nat, content: seq<byte>, ready: nat -> bool)
      returns (sends: nat, ghost start: Tail, ghost events: seq<LineEvent>)
      modifies this`lines, this`files
      ensures if path in old(files) && old(files)[path].inode == inode then start == old(files)[path]
              else if watermarks != null && path in watermarks.files && watermarks.files[path].inode == inode then
                start == Tail(watermarks.files[path].offset, inode, true)
              else start == Tail(0, inode, false)
      ensures AllLines(events, path, inode, content, start.offset)
      ensures StopsAt(onFull, events, ready, sends)
      ensures lines == old(lines) + Kept(events[..sends], ready)
      ensures (forall k: nat :: k < |events| ==> ready(k)) ==> sends == |events| && lines == old(lines) + events
      ensures files == old(files)[path := start.(offset :=
                if sends < |events| then events[sends].offset
                else if 0 <= start.offset <= |content| then |content| else start.offset)]
    {
      hide Kept, StopsAt, StartOf, AllLines;
      if !(path in files && files[path].inode == inode) {
        var offset, resumed := InitialOffset(watermarks, path, inode);
        files := files[path := Tail(offset, inode, resumed)];
      }
      start := files[path];
      sends, events := ReadNewLines(path, content, ready);
    }
  }

  /** Where tailing starts: at the watermark when it is for this inode, else at the beginning. */
  function StartOf(watermarks: Files, path: string, inode: nat): (int, bool) {
    if path in watermarks && watermarks[path].inode == inode then (watermarks[path].offset, true) else (0, false)
  }

  lemma {:induction false} KeptAll(events: seq<LineEvent>, ready: nat -> bool)
    requires forall k :: 0 <= k < |events| ==> ready(k)
    ensures Kept(events, ready) == events
  {
    if events != [] {
      var k := |events| - 1;
      KeptAll(events[..k], ready);
      assert events[..k] + [events[k]] == events && ready(k);
    }
  }

  lemma AllTaken(events: seq<LineEvent>, ready: nat -> bool)
    ensures (forall k: nat :: k < |events| ==> ready(k)) ==> Kept(events, ready) == events
  {
    if forall k: nat :: k < |events| ==> ready(k) {
      KeptAll(events, ready);
    }
  }

  /** One more line of a read: what it adds to the events, and what the channel takes of that. */
  lemma LineUnfold(path: string, inode: nat, data: seq<byte>, base: int, done: seq<LineEvent>, ready: nat -> bool)
    requires data != []
    ensures var n := LineLength(data); var events := EventsOfLine(path, inode, data[..n], base + n);
            && done + Events(path, inode, data, base) == (done + events) + Events(path, inode, data[n..], base + n)
            && Kept(done + events, ready) == Kept(done, ready) + (if ready(|done|) then events else [])
            && (if TrimRight(data[..n]) == [] then events == [] else |events| == 1 && events[0].offset == base + n)
  {
    hide LineLength, TrimRight, Kept;
    var n := LineLength(data);
    var events := EventsOfLine(path, inode, data[..n], base + n);
    var rest := Events(path, inode, data[n..], base + n);
    assert done + (events + rest) == (done + events) + rest;
    KeptAppend(done, events, ready);
  }

  /** A read that goes through takes all events. */
  lemma StopsLate(onFull: OnFull, all: seq<LineEvent>, done: seq<LineEvent>, ready: nat -> bool)
    requires all == done + [] && (onFull == Block ==> forall j :: 0 <= j < |done| ==> ready(j))
    ensures StopsAt(onFull, all, ready, |done|) && all[..|done|] == done == all
  {
  }

  /** A read stops at the first event that a full channel does not take. */
  lemma StopsEarly(onFull: OnFull, all: seq<LineEvent>, done: seq<LineEvent>, e: LineEvent, ready: nat -> bool)
    requires done + [e] <= all && onFull == Block && !ready(|done|) && forall j :: 0 <= j < |done| ==> ready(j)
    ensures StopsAt(onFull, all, ready, |done|) && all[..|done|] == done && all[|done|] == e
  {
    assert (done + [e])[..|done|] == done;
    assert all[..|done| + 1] == done + [e];
  }

  lemma KeptMore(before: seq<LineEvent>, sent: seq<LineEvent>, done: seq<LineEvent>, events: seq<LineEvent>,
                 ready: nat -> bool, after: seq<LineEvent>)
    requires |events| <= 1 && sent == before + Kept(done, ready)
    requires after == sent + if ready(|done|) then events else []
    ensures after == before + Kept(done + events, ready)
  {
    hide Kept;
    KeptAppend(done, events, ready);
    ConcatAssociates(before, Kept(done, ready), if ready(|done|) then events else []);
  }

  lemma ConcatAssociates(a: seq<LineEvent>, b: seq<LineEvent>, c: seq<LineEvent>)
    ensures (a + b) + c == a + (b + c)
  {
  }

  lemma KeptAppend(done: seq<LineEvent>, events: seq<LineEvent>, ready: nat -> bool)
    requires |events| <= 1
    ensures Kept(done + events, ready) == Kept(done, ready) + if ready(|done|) then events else []
  {
    if events == [] {
      assert done + events == done;
    } else {
      assert (done + events)[..|done|] == done;
    }
  }

  lemma EventsEmpty(path: string, inode: nat, base: int)
    ensures Events(path, inode, [], base) == []
  {
  }

  // ---- Properties of the events ---------------------------------------------------------------------------

  lemma {:induction false} LineLengthPrefix(a: seq<byte>, b: seq<byte>)
    requires a != [] && a[|a| - 1] == NEWLINE
    ensures LineLength(a + b) == LineLength(a)
    ensures EndsLine(a[LineLength(a)..])
  {
    if a[0] == NEWLINE {
    } else {
      LineLengthPrefix(a[1..], b);
      assert (a + b)[1..] == a[1..] + b;
      assert a[1..][LineLength(a[1..])..] == a[LineLength(a)..];
    }
  }

  lemma EventsFirst(path: string, inode: nat, data: seq<byte>, base: int)
    requires data != []
    ensures var n := LineLength(data);
            Events(path, inode, data, base)
            == EventsOfLine(path, inode, data[..n], base + n) + Events(path, inode, data[n..], base + n)
  {
    hide EventsOfLine, LineLength;
  }

  lemma TakeDropConcat(a: seq<byte>, b: seq<byte>, n: nat)
    requires n <= |a|
    ensures (a + b)[..n] == a[..n] && (a + b)[n..] == a[n..] + b
  {
  }

  /** Polling in pieces that each end on a newline emits the same events as one read. */
  lemma {:induction false} SplitInvariant(path: string, inode: nat, a: seq<byte>, b: seq<byte>, base: int)
    requires EndsLine(a)
    ensures Events(path, inode, a + b, base) == Events(path, inode, a, base) + Events(path, inode, b, base + |a|)
    decreases |a|
  {
    hide TrimRight, LineLength, EventsOfLine, Events;
    if a == [] {
      assert a + b == b;
      EventsEmpty(path, inode, base);
    } else {
      LineLengthPrefix(a, b);
      var n := LineLength(a);
      SplitInvariant(path, inode, a[n..], b, base + n);
      TakeDropConcat(a, b, n);
      EventsFirst(path, inode, a, base);
      EventsFirst(path, inode, a + b, base);
      ConcatAssociates(EventsOfLine(path, inode, a[..n], base + n), Events(path, inode, a[n..], base + n),
                       Events(path, inode, b, base + |a|));
    }
  }

  /** Every event lies in the range read, is non-blank and names its file. */
  predicate Within(events: seq<LineEvent>, path: string, inode: nat, low: int, high: int) {
    forall i :: 0 <= i < |events| ==>
      && low < events[i].offset <= high
      && events[i].path == path && events[i].inode == inode && events[i].line != []
  }

  predicate Ascending(events: seq<LineEvent>) {
    forall i, j :: 0 <= i < j < |events| ==> events[i].offset < events[j].offset
  }

  lemma {:induction false} EventsOrdered(path: string, inode: nat, data: seq<byte>, base: int)
    ensures var events := Events(path, inode, data, base);
            Ascending(events) && Within(events, path, inode, base, base + |data|)
    decreases |data|
  {
    hide Events, TrimRight, LineLength;
    if data == [] {
      EventsEmpty(path, inode, base);
    } else {
      var n := LineLength(data);
      EventsFirst(path, inode, data, base);
      EventsOrdered(path, inode, data[n..], base + n);
      var head, tail := EventsOfLine(path, inode, data[..n], base + n), Events(path, inode, data[n..], base + n);
      assert Within(head, path, inode, base, base + n) && |head| <= 1;
      assert forall i :: |head| <= i < |head + tail| ==> (head + tail)[i] == tail[i - |head|];
    }
  }

  /** A read that starts at the newline-ended offset of any emitted event emits exactly the later events. */
  lemma ResumeExact(path: string, inode: nat, data: seq<byte>, base: int, k: nat)
    requires k < |Events(path, inode, data, base)|
    requires var at := Events(path, inode, data, base)[k].offset - base; 0 < at <= |data| && data[at - 1] == NEWLINE
    ensures var events := Events(path, inode, data, base); var offset := events[k].offset;
            Events(path, inode, data[offset - base..], offset) == events[k + 1..]
  {
    hide Events;
    var events := Events(path, inode, data, base);
    var offset := events[k].offset;
    var a, b := data[..offset - base], data[offset - base..];
    assert a + b == data;
    var before, after := Events(path, inode, a, base), Events(path, inode, b, offset);
    SplitInvariant(path, inode, a, b, base);
    EventsOrdered(path, inode, a, base);
    EventsOrdered(path, inode, b, offset);
    EventsOrdered(path, inode, data, base);
    assert events == before + after;
    assert forall i :: 0 <= i < |before| ==> events[i].offset <= offset;
    assert forall i :: |before| <= i < |events| ==> events[i] == after[i - |before|];
    assert k + 1 < |events| ==> events[k + 1].offset > offset;
    assert |before| == k + 1;
  }

  // ---- A declarative reading of the events ----------------------------------------------------------------

  /** A physical line of the file ends after byte `e - 1`. */
  predicate IsLineEnd(data: seq<byte>, e: int) {
    0 < e <= |data| && (data[e - 1] == NEWLINE || e == |data|)
  }

  /** Where the physical line that ends at `e` starts: behind the previous newline. */
  function LineStart(data: seq<byte>, e: nat): (s: nat)
    requires 0 < e <= |data|
    ensures s < e && (s == 0 || data[s - 1] == NEWLINE) && forall i :: s <= i < e - 1 ==> data[i] != NEWLINE
  {
    if e == 1 then 0 else if data[e - 2] == NEWLINE then e - 1 else LineStart(data, e - 1)
  }

  lemma {:induction false} LineLengthFirst(data: seq<byte>)
    requires data != []
    ensures var n := LineLength(data);
            IsLineEnd(data, n) && forall i :: 0 <= i < n - 1 ==> data[i] != NEWLINE
  {
    if data[0] == NEWLINE || |data| == 1 {
    } else {
      LineLengthFirst(data[1..]);
    }
  }

  /** Some event of the list ends at this offset. */
  predicate EndsAt(events: seq<LineEvent>, offset: int) {
    exists k :: 0 <= k < |events| && events[k].offset == offset
  }

  lemma EndsAtConcat(head: seq<LineEvent>, tail: seq<LineEvent>, offset: int)
    ensures EndsAt(head + tail, offset) <==> EndsAt(head, offset) || EndsAt(tail, offset)
  {
    assert forall k :: 0 <= k < |tail| ==> (head + tail)[|head| + k] == tail[k];
    assert forall k :: 0 <= k < |head| ==> (head + tail)[k] == head[k];
    assert forall k :: |head| <= k < |head + tail| ==> (head + tail)[k] == tail[k - |head|];
  }

  /** The physical line of the file that ends at `e`, if one does, without its line ending. */
  function LineAt(data: seq<byte>, e: int): seq<byte> {
    if IsLineEnd(data, e) then TrimRight(data[LineStart(data, e)..e]) else []
  }

  /** The lines of the rest of the file are those of the file. */
  lemma LineAtShift(data: seq<byte>, n: nat, e: int)
    requires 0 < n <= |data| && data[n - 1] == NEWLINE && e > n
    ensures LineAt(data, e) == LineAt(data[n..], e - n)
  {
    if IsLineEnd(data, e) {
      var s := LineStart(data[n..], e - n);
      LineStartUnique(data, e, n + s);
      assert data[n..][s..e - n] == data[n + s..e];
    }
  }

  /** The first line of the file. */
  lemma LineAtFirst(data: seq<byte>)
    requires data != []
    ensures LineAt(data, LineLength(data)) == TrimRight(data[..LineLength(data)])
    ensures forall e :: e < LineLength(data) ==> LineAt(data, e) == []
  {
    var n := LineLength(data);
    LineLengthFirst(data);
    LineStartUnique(data, n, 0);
    assert data[0..n] == data[..n];
  }

  lemma LineStartUnique(data: seq<byte>, e: nat, s: nat)
    requires 0 < e <= |data| && s < e && (s == 0 || data[s - 1] == NEWLINE)
    requires forall i :: s <= i < e - 1 ==> data[i] != NEWLINE
    ensures LineStart(data, e) == s
  {
  }

  /** There is an event at an offset exactly when a non-blank physical line ends there. */
  lemma {:induction false} EventsExact(path: string, inode: nat, data: seq<byte>, base: int, e: int)
    ensures EndsAt(Events(path, inode, data, base), base + e) <==> LineAt(data, e) != []
    decreases |data|
  {
    hide LineLength, TrimRight, LineAt, EndsAt, EventsOfLine;
    if data == [] {
      EmptyLineAt(e);
      NoneEndsAt(base + e);
    } else {
      var n := LineLength(data);
      var head, tail := EventsOfLine(path, inode, data[..n], base + n), Events(path, inode, data[n..], base + n);
      EndsAtConcat(head, tail, base + e);
      if e <= n {
        FirstLineExact(path, inode, data, base, e);
      } else {
        EventsExact(path, inode, data[n..], base + n, e - n);
        OneLineEndsAt(path, inode, data[..n], base + n, base + e);
        LineAtTail(data, e);
      }
    }
  }

  lemma NoneEndsAt(offset: int)
    ensures !EndsAt([], offset)
  {
  }

  lemma OneLineEndsAt(path: string, inode: nat, line: seq<byte>, end: int, offset: int)
    ensures EndsAt(EventsOfLine(path, inode, line, end), offset) <==> TrimRight(line) != [] && offset == end
  {
    hide TrimRight;
    if TrimRight(line) != [] {
      assert EventsOfLine(path, inode, line, end)[0].offset == end;
    }
  }

  lemma FirstLineExact(path: string, inode: nat, data: seq<byte>, base: int, e: int)
    requires data != [] && e <= LineLength(data)
    ensures var n := LineLength(data);
            var head, tail := EventsOfLine(path, inode, data[..n], base + n), Events(path, inode, data[n..], base + n);
            EndsAt(head, base + e) || EndsAt(tail, base + e) <==> LineAt(data, e) != []
  {
    hide LineLength, TrimRight, LineAt, EventsOfLine, Events;
    var n := LineLength(data);
    LineAtFirst(data);
    OneLineEndsAt(path, inode, data[..n], base + n, base + e);
    EventsOrdered(path, inode, data[n..], base + n);
  }

  lemma EmptyLineAt(e: int)
    ensures LineAt([], e) == []
  {
  }

  lemma LineAtTail(data: seq<byte>, e: int)
    requires data != [] && e > LineLength(data)
    ensures LineAt(data, e) == LineAt(data[LineLength(data)..], e - LineLength(data))
  {
    LineLengthFirst(data);
    if LineLength(data) < |data| {
      LineAtShift(data, LineLength(data), e);
    }
  }

  /** And the event carries that line. */
  lemma {:induction false} EventsCarryLines(path: string, inode: nat, data: seq<byte>, base: int)
    ensures forall k :: 0 <= k < |Events(path, inode, data, base)| ==>
              var event := Events(path, inode, data, base)[k];
              event.line == LineAt(data, event.offset - base)
    decreases |data|
  {
    hide LineLength, TrimRight, LineAt, Events;
    if data == [] {
      EventsEmpty(path, inode, base);
      return;
    }
    var n := LineLength(data);
    var head, tail := EventsOfLine(path, inode, data[..n], base + n), Events(path, inode, data[n..], base + n);
    EventsFirst(path, inode, data, base);
    LineAtFirst(data);
    assert forall k :: 0 <= k < |head| ==> head[k].line == LineAt(data, head[k].offset - base);
    hide EventsOfLine;
    EventsOrdered(path, inode, data[n..], base + n);
    EventsCarryLines(path, inode, data[n..], base + n);
    forall k | 0 <= k < |tail| ensures tail[k].line == LineAt(data, tail[k].offset - base) {
      LineAtTail(data, tail[k].offset - base);
      assert tail[k].offset - base - n == tail[k].offset - (base + n);
    }
  }

  /**
   The lines of the file behind `start`, as events: for each position behind which a non-blank physical line ends, one
   event with that position and that line, in rising order.
   */
  ghost predicate AllLines(events: seq<LineEvent>, path: string, inode: nat, content: seq<byte>, start: int) {
    if 0 <= start <= |content| then
      && Ascending(events) && Within(events, path, inode, start, |content|)
      && (forall k :: 0 <= k < |events| ==>
            events[k].line == LineAt(content[start..], events[k].offset - start))
      && (forall e :: start < e <= |content| ==> (EndsAt(events, e) <==> LineAt(content[start..], e - start) != []))
    else events == []
  }

  lemma EventsAreAllLines(path: string, inode: nat, content: seq<byte>, start: int)
    ensures var data := if 0 <= start <= |content| then content[start..] else [];
            AllLines(Events(path, inode, data, start), path, inode, content, start)
  {
    hide Events, LineAt, EndsAt;
    if 0 <= start <= |content| {
      var data := content[start..];
      EventsOrdered(path, inode, data, start);
      EventsCarryLines(path, inode, data, start);
      forall e | start < e <= |content|
        ensures EndsAt(Events(path, inode, data, start), e) <==> LineAt(data, e - start) != []
      {
        EventsExact(path, inode, data, start, e - start);
      }
    } else {
      EventsEmpty(path, inode, start);
    }
  }

  /** Two ascending lists that end events at the same offsets have the same offsets. */
  lemma {:induction false} SameOffsets(a: seq<LineEvent>, b: seq<LineEvent>, k: nat)
    requires Ascending(a) && Ascending(b) && k < |a|
    requires forall i :: 0 <= i < |a| ==> EndsAt(b, a[i].offset)
    requires forall i :: 0 <= i < |b| ==> EndsAt(a, b[i].offset)
    ensures k < |b| && a[k].offset == b[k].offset
  {
    if k > 0 {
      SameOffsets(a, b, k - 1);
    }
    var j :| 0 <= j < |b| && b[j].offset == a[k].offset;
    assert j >= k;
    var i :| 0 <= i < |a| && a[i].offset == b[k].offset;
    assert i >= k;
  }

  /** There is only one such list. */
  lemma AllLinesUnique(a: seq<LineEvent>, b: seq<LineEvent>, path: string, inode: nat, content: seq<byte>, start: int)
    requires AllLines(a, path, inode, content, start) && AllLines(b, path, inode, content, start)
    ensures a == b
  {
    if 0 <= start <= |content| {
      OffsetsShared(a, b, path, inode, content, start);
      OffsetsShared(b, a, path, inode, content, start);
      forall k | 0 <= k < |a| ensures k < |b| && a[k] == b[k] {
        SameOffsets(a, b, k);
      }
      if |b| > |a| {
        SameOffsets(b, a, |a|);
      } else if |a| > 0 {
        SameOffsets(a, b, |a| - 1);
      }
    }
  }

  lemma OffsetsShared(a: seq<LineEvent>, b: seq<LineEvent>, path: string, inode: nat, content: seq<byte>, start: int)
    requires AllLines(a, path, inode, content, start) && AllLines(b, path, inode, content, start)
    requires 0 <= start <= |content|
    ensures forall i :: 0 <= i < |a| ==> EndsAt(b, a[i].offset)
  {
    forall i | 0 <= i < |a| ensures EndsAt(b, a[i].offset) {
      assert EndsAt(a, a[i].offset);
    }
  }

  /** TrimRight takes off the longest tail of newlines and carriage returns, and nothing else. */
  lemma {:induction false} TrimRightExactly(line: seq<byte>)
    ensures var t := TrimRight(line);
            && t <= line && (t != [] ==> t[|t| - 1] != NEWLINE && t[|t| - 1] != RETURN)
            && forall k :: |t| <= k < |line| ==> line[k] == NEWLINE || line[k] == RETURN
  {
    if line != [] && (line[|line| - 1] == NEWLINE || line[|line| - 1] == RETURN) {
      TrimRightExactly(line[..|line| - 1]);
    }
  }
}
