/**
 The multiline parser and the grouping it stands for: along each path, a line that matches the start pattern
 opens a group, other lines join the open group, and a line with no open group stands alone.
 */
module Multiline {
  import opened Common
  import opened Lines
  import opened Watcher

  datatype Event = Event(path: string, data: seq<byte>, offset: int, inode: nat)

  /** multilineBuffer */
  datatype Buffer = Buffer(path: string, inode: nat, lines: seq<seq<byte>>, offset: int)

  type Buffers = map<string, Buffer>

  function FlushBuffer(buf: Buffer): Event {
    Event(buf.path, Join(buf.lines), buf.offset, buf.inode)
  }

  // ---- What Feed and Flush do, as functions of the buffers ------------------------------------------------

  function FeedTo(starts: seq<byte> -> bool, b: Buffers, e: LineEvent): (Buffers, seq<Event>) {
    if starts(e.line) then
      (b[e.path := Buffer(e.path, e.inode, [e.line], e.offset)],
       if e.path in b && |b[e.path].lines| > 0 then [FlushBuffer(b[e.path])] else [])
    else if e.path in b then
      (b[e.path := b[e.path].(lines := b[e.path].lines + [e.line], offset := e.offset, inode := e.inode)], [])
    else (b, [Event(e.path, e.line, e.offset, e.inode)])
  }

  /** Flushing the buffers in some order of their paths. */
  function FlushTo(b: Buffers, order: seq<string>): seq<Event> {
    if order == [] then []
    else
      var path := order[|order| - 1];
      FlushTo(b, order[..|order| - 1])
      + if path in b && |b[path].lines| > 0 then [FlushBuffer(b[path])] else []
  }

  /** Go iterates over a map in any order that meets each key once. */
  predicate IsOrder(b: Buffers, order: seq<string>) {
    && (forall i, j :: 0 <= i < j < |order| ==> order[i] != order[j])
    && (forall i :: 0 <= i < |order| ==> order[i] in b)
    && (forall path :: path in b ==> path in order)
  }

  class MultilineParser {
    const starts: seq<byte> -> bool
    var buffers: Buffers

    constructor (starts: seq<byte> -> bool)
      ensures this.starts == starts && buffers == map[]
    {
      this.starts := starts;
      buffers := map[];
    }

    method Feed(event: LineEvent) returns (out: seq<Event>)
      modifies this
      ensures (buffers, out) == FeedTo(starts, old(buffers), event)
    {
      out := [];
      if starts(event.line) {
        if event.path in buffers && |buffers[event.path].lines| > 0 {
          out := [FlushBuffer(buffers[event.path])];
        }
        buffers := buffers[event.path := Buffer(event.path, event.inode, [event.line], event.offset)];
        return;
      }
      if event.path in buffers {
        var buf := buffers[event.path];
        buf := buf.(lines := buf.lines + [event.line], offset := event.offset, inode := event.inode);
        buffers := buffers[event.path := buf];
        return;
      }
      out := [Event(event.path, event.line, event.offset, event.inode)];
    }

    method Flush() returns (out: seq<Event>, ghost order: seq<string>)
      modifies this
      ensures buffers == map[]
      ensures IsOrder(old(buffers), order) && out == FlushTo(old(buffers), order)
    {
      out, order := [], [];
      while buffers != map[]
        invariant forall i :: 0 <= i < |order| ==> order[i] in old(buffers) && order[i] !in buffers
        invariant forall i, j :: 0 <= i < j < |order| ==> order[i] != order[j]
        invariant forall path :: path in old(buffers) ==> path in order || path in buffers
        invariant forall path :: path in buffers ==> path in old(buffers) && buffers[path] == old(buffers)[path]
        invariant out == FlushTo(old(buffers), order)
        decreases |buffers|
      {
        var path :| path in buffers;
        assert (order + [path])[..|order|] == order;
        if |buffers[path].lines| > 0 {
          out := out + [FlushBuffer(buffers[path])];
        }
        order := order + [path];
        buffers := buffers - {path};
      }
    }
  }

  // ---- Whole inputs ---------------------------------------------------------------------------------------

  datatype Input = Line(e: LineEvent) | FlushAll(order: seq<string>)

  function Step(starts: seq<byte> -> bool, b: Buffers, input: Input): (Buffers, seq<Event>) {
    match input
    case Line(e) => FeedTo(starts, b, e)
    case FlushAll(order) => (map[], FlushTo(b, order))
  }

  /** The buffers left and the events emitted by a whole input. */
  function Parse(starts: seq<byte> -> bool, inputs: seq<Input>): (Buffers, seq<Event>) {
    if inputs == [] then (map[], [])
    else
      var (b, out) := Parse(starts, inputs[..|inputs| - 1]);
      var (c, more) := Step(starts, b, inputs[|inputs| - 1]);
      (c, out + more)
  }

  /** Every flush goes through the buffers of that moment once. */
  ghost predicate Flushable(starts: seq<byte> -> bool, inputs: seq<Input>) {
    inputs == [] ||
    (&& Flushable(starts, inputs[..|inputs| - 1])
     && (inputs[|inputs| - 1].FlushAll? ==>
           IsOrder(Parse(starts, inputs[..|inputs| - 1]).0, inputs[|inputs| - 1].order)))
  }

  // ---- The grouping of one path ---------------------------------------------------------------------------

  /** What one path sees of the input: its own lines, and `None` for a flush. */
  function Project(inputs: seq<Input>, path: string): seq<Option<LineEvent>> {
    if inputs == [] then []
    else
      Project(inputs[..|inputs| - 1], path) +
      match inputs[|inputs| - 1]
      case Line(e) => if e.path == path then [Some(e)] else []
      case FlushAll(_) => [None]
  }

  /** The closed groups, in order, and the open one (empty when there is none). */
  datatype Groups = Groups(closed: seq<seq<LineEvent>>, open: seq<LineEvent>)

  function Close(g: Groups): Groups {
    if g.open == [] then g else Groups(g.closed + [g.open], [])
  }

  function Grouping(starts: seq<byte> -> bool, own: seq<Option<LineEvent>>): Groups {
    if own == [] then Groups([], [])
    else
      var g := Grouping(starts, own[..|own| - 1]);
      match own[|own| - 1]
      case None => Close(g)
      case Some(e) =>
        if starts(e.line) then Close(g).(open := [e])
        else if g.open != [] then g.(open := g.open + [e])
        else Groups(g.closed + [[e]], [])
  }

  function LinesOf(group: seq<LineEvent>): seq<seq<byte>> {
    if group == [] then [] else LinesOf(group[..|group| - 1]) + [group[|group| - 1].line]
  }

  /** The event of a group: its lines joined, with the offset and inode of its last line. */
  function Render(path: string, group: seq<LineEvent>): Event
    requires group != []
  {
    var last := group[|group| - 1];
    Event(path, Join(LinesOf(group)), last.offset, last.inode)
  }

  function RenderAll(path: string, groups: seq<seq<LineEvent>>): seq<Event>
    requires forall k :: 0 <= k < |groups| ==> groups[k] != []
  {
    if groups == [] then []
    else RenderAll(path, groups[..|groups| - 1]) + [Render(path, groups[|groups| - 1])]
  }

  function OfPath(events: seq<Event>, path: string): seq<Event> {
    if events == [] then []
    else
      var last := events[|events| - 1];
      OfPath(events[..|events| - 1], path) + if last.path == path then [last] else []
  }

  predicate NonEmptyGroups(g: Groups) {
    forall k :: 0 <= k < |g.closed| ==> g.closed[k] != []
  }

  lemma {:induction false} GroupingNonEmpty(starts: seq<byte> -> bool, own: seq<Option<LineEvent>>)
    ensures NonEmptyGroups(Grouping(starts, own))
  {
    if own != [] {
      GroupingNonEmpty(starts, own[..|own| - 1]);
    }
  }

  /** No line is lost, duplicated or reordered: the groups, then the open one, are the path's own lines. */
  lemma {:induction false} GroupingLossless(starts: seq<byte> -> bool, own: seq<Option<LineEvent>>)
    ensures var g := Grouping(starts, own); Flatten(g.closed) + g.open == OwnLines(own)
  {
    if own != [] {
      var before := own[..|own| - 1];
      var g := Grouping(starts, before);
      GroupingLossless(starts, before);
      FlattenAppend(g.closed, g.open);
      match own[|own| - 1]
      case None =>
      case Some(e) =>
        FlattenAppend(g.closed, [e]);
        assert (Flatten(g.closed) + g.open) + [e] == Flatten(g.closed) + (g.open + [e]);
        assert Flatten(Close(g).closed) == Flatten(g.closed) + g.open;
    }
  }

  function OwnLines(own: seq<Option<LineEvent>>): seq<LineEvent> {
    if own == [] then []
    else OwnLines(own[..|own| - 1]) + match own[|own| - 1] case None => [] case Some(e) => [e]
  }

  // ---- The grouping is the only one of its shape ----------------------------------------------------------

  /**
   What the start pattern makes of lines with no flush between them: after the first line of a group come lines that do
   not match, only a line that matches has lines after it, and a group begins only where a line matches or the group
   before has no matching line to join.
   */
  ghost predicate Shaped(starts: seq<byte> -> bool, groups: seq<seq<LineEvent>>) {
    && (forall k :: 0 <= k < |groups| ==> Group(starts, groups[k]))
    && (forall k :: 0 <= k < |groups| - 1 ==> starts(groups[k + 1][0].line) || !starts(groups[k][0].line))
  }

  ghost predicate Group(starts: seq<byte> -> bool, group: seq<LineEvent>) {
    && group != []
    && (forall i :: 1 <= i < |group| ==> !starts(group[i].line))
    && (|group| > 1 ==> starts(group[0].line))
  }

  ghost predicate LastStarts(starts: seq<byte> -> bool, groups: seq<seq<LineEvent>>)
    requires forall k :: 0 <= k < |groups| ==> groups[k] != []
  {
    groups != [] && starts(groups[|groups| - 1][0].line)
  }

  ghost predicate FlushFree(own: seq<Option<LineEvent>>) {
    forall k :: 0 <= k < |own| ==> own[k].Some?
  }

  /** The groups have the shape, and the last one is open exactly when it began with a matching line. */
  lemma {:induction false} GroupingShaped(starts: seq<byte> -> bool, own: seq<Option<LineEvent>>)
    requires FlushFree(own)
    ensures var g := Grouping(starts, own); var all := Close(g).closed;
            Shaped(starts, all) && (g.open != [] <==> LastStarts(starts, all))
  {
    if own != [] {
      var before, e := own[..|own| - 1], own[|own| - 1].value;
      GroupingShaped(starts, before);
      var g := Grouping(starts, before);
      var all := Close(g).closed;
      assert before + [Some(e)] == own;
      GroupingLine(starts, before, e);
      hide Grouping, Group;
      if !starts(e.line) && g.open != [] {
        ShapedJoin(starts, all, e);
        assert all[..|all| - 1] == g.closed;
      } else {
        ShapedNext(starts, all, e);
        assert (all + [[e]])[|all|][0] == e;
      }
    }
  }

  lemma ShapedNext(starts: seq<byte> -> bool, groups: seq<seq<LineEvent>>, e: LineEvent)
    requires Shaped(starts, groups) && (starts(e.line) || !LastStarts(starts, groups))
    ensures Shaped(starts, groups + [[e]]) && (LastStarts(starts, groups + [[e]]) <==> starts(e.line))
  {
  }

  lemma ShapedJoin(starts: seq<byte> -> bool, groups: seq<seq<LineEvent>>, e: LineEvent)
    requires Shaped(starts, groups) && LastStarts(starts, groups) && !starts(e.line)
    ensures var before, last := groups[..|groups| - 1], groups[|groups| - 1];
            Shaped(starts, before + [last + [e]]) && LastStarts(starts, before + [last + [e]])
  {
    var before, last := groups[..|groups| - 1], groups[|groups| - 1];
    var joined := before + [last + [e]];
    GroupJoin(starts, last, e);
    hide Group;
    assert forall k :: 0 <= k < |before| ==> joined[k] == groups[k];
    assert joined[|before|][0] == last[0];
  }

  lemma GroupJoin(starts: seq<byte> -> bool, group: seq<LineEvent>, e: LineEvent)
    requires Group(starts, group) && starts(group[0].line) && !starts(e.line)
    ensures Group(starts, group + [e])
  {
  }

  /** The groups without the last line. */
  function WithoutLast(groups: seq<seq<LineEvent>>): seq<seq<LineEvent>>
    requires groups != [] && groups[|groups| - 1] != []
  {
    var before, last := groups[..|groups| - 1], groups[|groups| - 1];
    if |last| == 1 then before else before + [last[..|last| - 1]]
  }

  lemma WithoutLastShaped(starts: seq<byte> -> bool, groups: seq<seq<LineEvent>>)
    requires Shaped(starts, groups) && groups != []
    ensures Shaped(starts, WithoutLast(groups))
  {
    var before, last := groups[..|groups| - 1], groups[|groups| - 1];
    var fewer := WithoutLast(groups);
    assert forall k :: 0 <= k < |before| ==> fewer[k] == groups[k];
    if |last| > 1 {
      assert fewer[|before|][0] == last[0];
      assert Group(starts, last[..|last| - 1]);
    }
  }

  lemma WithoutLastFlat(groups: seq<seq<LineEvent>>)
    requires groups != [] && groups[|groups| - 1] != []
    ensures var last := groups[|groups| - 1]; Flatten(groups) == Flatten(WithoutLast(groups)) + [last[|last| - 1]]
  {
    var before, last := groups[..|groups| - 1], groups[|groups| - 1];
    var shorter := last[..|last| - 1];
    assert Flatten(groups) == Flatten(before) + last;
    FlattenAppend(before, shorter);
    assert shorter + [last[|last| - 1]] == last;
    assert Flatten(before) + (shorter + [last[|last| - 1]]) == (Flatten(before) + shorter) + [last[|last| - 1]];
  }

  lemma {:induction false} FlattenLonger(groups: seq<seq<LineEvent>>)
    requires forall k :: 0 <= k < |groups| ==> groups[k] != []
    ensures |Flatten(groups)| >= |groups|
  {
    if groups != [] {
      FlattenLonger(groups[..|groups| - 1]);
    }
  }

  /** Whether the last line stands in a group of its own is decided by the line and the group before it. */
  lemma LastDecides(starts: seq<byte> -> bool, groups: seq<seq<LineEvent>>, e: LineEvent)
    requires Shaped(starts, groups) && groups != [] && groups[|groups| - 1][|groups[|groups| - 1]| - 1] == e
    ensures var fewer := WithoutLast(groups);
            && (forall k :: 0 <= k < |fewer| ==> fewer[k] != [])
            && groups == if starts(e.line) || !LastStarts(starts, fewer) then fewer + [[e]]
                         else fewer[..|fewer| - 1] + [fewer[|fewer| - 1] + [e]]
  {
    var before, last := groups[..|groups| - 1], groups[|groups| - 1];
    WithoutLastShaped(starts, groups);
    assert groups == before + [last] && last == last[..|last| - 1] + [e];
    if |last| == 1 {
      assert before != [] ==> before[|before| - 1] == groups[|before| - 1];
    } else {
      assert last[..|last| - 1][0] == last[0];
    }
  }

  /** Of all ways to cut the lines into groups, the parser's is the only one of the shape. */
  lemma {:induction false} ShapeDecides(starts: seq<byte> -> bool, own: seq<Option<LineEvent>>,
                                        groups: seq<seq<LineEvent>>)
    requires FlushFree(own) && Shaped(starts, groups) && Flatten(groups) == OwnLines(own)
    ensures groups == Close(Grouping(starts, own)).closed
  {
    FlattenLonger(groups);
    if own != [] {
      var before, e := own[..|own| - 1], own[|own| - 1].value;
      var last := groups[|groups| - 1];
      var fewer := WithoutLast(groups);
      WithoutLastShaped(starts, groups);
      WithoutLastFlat(groups);
      assert OwnLines(own) == OwnLines(before) + [e];
      SnocEqual(Flatten(fewer), last[|last| - 1], OwnLines(before), e);
      ShapeDecides(starts, before, fewer);
      GroupingShaped(starts, before);
      hide Flatten, OwnLines;
      GroupingLine(starts, before, e);
      assert before + [Some(e)] == own;
      hide Grouping;
      LastDecides(starts, groups, e);
    }
  }

  lemma SnocEqual(a: seq<LineEvent>, x: LineEvent, b: seq<LineEvent>, y: LineEvent)
    requires a + [x] == b + [y]
    ensures a == b && x == y
  {
    assert (a + [x])[|a|] == (b + [y])[|b|];
    assert (a + [x])[..|a|] == (b + [y])[..|b|];
  }

  /**
   Between flushes the groups are the cut of the path's lines that has the shape: each line that matches opens a group,
   the others join it, and a line before the first match stands alone.
   */
  lemma GroupsExactly(starts: seq<byte> -> bool, own: seq<Option<LineEvent>>, groups: seq<seq<LineEvent>>)
    requires FlushFree(own)
    ensures groups == Close(Grouping(starts, own)).closed
            <==> Shaped(starts, groups) && Flatten(groups) == OwnLines(own)
  {
    hide Shaped;
    var g := Grouping(starts, own);
    GroupingShaped(starts, own);
    GroupingLossless(starts, own);
    FlattenAppend(g.closed, g.open);
    if Shaped(starts, groups) && Flatten(groups) == OwnLines(own) {
      ShapeDecides(starts, own, groups);
    }
  }

  /** A flush closes the open group, and what follows is grouped as if nothing had come before. */
  lemma {:induction false} FlushSeparates(starts: seq<byte> -> bool, a: seq<Option<LineEvent>>,
                                          b: seq<Option<LineEvent>>)
    ensures var g, h := Close(Grouping(starts, a)), Grouping(starts, b);
            Grouping(starts, a + [None] + b) == Groups(g.closed + h.closed, h.open)
  {
    var whole := a + [None] + b;
    if b == [] {
      assert whole[..|whole| - 1] == a;
    } else {
      assert whole[..|whole| - 1] == a + [None] + b[..|b| - 1];
      FlushSeparates(starts, a, b[..|b| - 1]);
      var g, h := Close(Grouping(starts, a)), Grouping(starts, b[..|b| - 1]);
      assert forall more: seq<seq<LineEvent>> :: (g.closed + h.closed) + more == g.closed + (h.closed + more);
    }
  }

  // ---- The parser refines the grouping --------------------------------------------------------------------

  /** The buffer of a path holds its open group, and there is none when no group is open. */
  predicate Holds(b: Buffers, path: string, open: seq<LineEvent>) {
    if open == [] then path !in b
    else path in b && b[path] == Buffer(path, open[|open| - 1].inode, LinesOf(open), open[|open| - 1].offset)
  }

  lemma LinesOfAppend(group: seq<LineEvent>, e: LineEvent)
    ensures LinesOf(group + [e]) == LinesOf(group) + [e.line]
    ensures |LinesOf(group)| == |group|
  {
    assert (group + [e])[..|group|] == group;
    LinesOfLength(group);
  }

  lemma LinesOfLength(group: seq<LineEvent>)
    ensures |LinesOf(group)| == |group|
  {
  }

  lemma {:induction false} OfPathConcat(a: seq<Event>, b: seq<Event>, path: string)
    ensures OfPath(a + b, path) == OfPath(a, path) + OfPath(b, path)
  {
    if b == [] {
      assert a + b == a;
    } else {
      OfPathConcat(a, b[..|b| - 1], path);
      assert (a + b)[..|a + b| - 1] == a + b[..|b| - 1];
    }
  }

  lemma OfPathShort(events: seq<Event>, path: string)
    requires |events| <= 1
    ensures OfPath(events, path) == if events != [] && events[0].path == path then events else []
  {
    if events != [] {
      assert OfPath(events[..0], path) == [];
    }
  }

  /** Among the flushed events there is exactly the one of the path's own buffer. */
  lemma {:induction false} FlushOfPath(b: Buffers, order: seq<string>, path: string)
    requires forall i, j :: 0 <= i < j < |order| ==> order[i] != order[j]
    requires forall p :: p in b ==> b[p].path == p
    ensures OfPath(FlushTo(b, order), path) ==
            if path in order && path in b && |b[path].lines| > 0 then [FlushBuffer(b[path])] else []
  {
    if order != [] {
      var before, last := order[..|order| - 1], order[|order| - 1];
      var more := if last in b && |b[last].lines| > 0 then [FlushBuffer(b[last])] else [];
      assert FlushTo(b, order) == FlushTo(b, before) + more && (more != [] ==> more[0].path == last);
      hide FlushTo, OfPath, FlushBuffer;
      FlushOfPath(b, before, path);
      OfPathConcat(FlushTo(b, before), more, path);
      OfPathShort(more, path);
      MemberOfSnoc(before, last, path);
      assert order == before + [last];
    }
  }

  lemma MemberOfSnoc(before: seq<string>, last: string, path: string)
    ensures path in before + [last] <==> path in before || path == last
  {
  }

  lemma RenderAllAppend(path: string, groups: seq<seq<LineEvent>>, group: seq<LineEvent>)
    requires group != [] && forall k :: 0 <= k < |groups| ==> groups[k] != []
    ensures RenderAll(path, groups + [group]) == RenderAll(path, groups) + [Render(path, group)]
  {
    assert (groups + [group])[..|groups|] == groups;
  }

  /** The state of one path in step with its grouping. */
  ghost predicate InStep(b: Buffers, out: seq<Event>, g: Groups, path: string) {
    && NonEmptyGroups(g)
    && Holds(b, path, g.open)
    && OfPath(out, path) == RenderAll(path, g.closed)
  }

  ghost predicate WellKeyed(b: Buffers) {
    forall p :: p in b ==> b[p].path == p
  }

  lemma GroupingLine(starts: seq<byte> -> bool, own: seq<Option<LineEvent>>, e: LineEvent)
    ensures var g := Grouping(starts, own);
            Grouping(starts, own + [Some(e)]) ==
            if starts(e.line) then Close(g).(open := [e])
            else if g.open != [] then g.(open := g.open + [e])
            else Groups(g.closed + [[e]], [])
  {
    assert (own + [Some(e)])[..|own|] == own;
  }

  lemma OfPathWhole(events: seq<Event>, path: string)
    requires |events| <= 1 && forall k :: 0 <= k < |events| ==> events[k].path == path
    ensures OfPath(events, path) == events
  {
    if events != [] {
      assert OfPath(events[..0], path) == [];
    }
  }

  /** A start line closes the open group, which is what its buffer is flushed as, and opens another. */
  lemma StartInStep(starts: seq<byte> -> bool, b: Buffers, out: seq<Event>, g: Groups, e: LineEvent)
    requires InStep(b, out, g, e.path) && starts(e.line)
    ensures var (c, more) := FeedTo(starts, b, e);
            InStep(c, out + more, Close(g).(open := [e]), e.path)
  {
    LinesOfOne(e);
    hide OfPath, RenderAll, LinesOf, Join;
    var (c, more) := FeedTo(starts, b, e);
    OfPathConcat(out, more, e.path);
    OfPathWhole(more, e.path);
    LinesOfLength(g.open);
    if g.open != [] {
      assert more == [Render(e.path, g.open)];
      RenderAllAppend(e.path, g.closed, g.open);
    }
  }

  lemma JoinInStep(starts: seq<byte> -> bool, b: Buffers, out: seq<Event>, g: Groups, e: LineEvent)
    requires InStep(b, out, g, e.path) && !starts(e.line) && g.open != []
    ensures var (c, more) := FeedTo(starts, b, e);
            InStep(c, out + more, g.(open := g.open + [e]), e.path)
  {
    hide OfPath, RenderAll, LinesOf, Join;
    LinesOfAppend(g.open, e);
    assert out + [] == out;
  }

  lemma RenderOne(e: LineEvent)
    ensures Render(e.path, [e]) == Event(e.path, e.line, e.offset, e.inode)
  {
    LinesOfOne(e);
  }

  lemma LoneInStep(starts: seq<byte> -> bool, b: Buffers, out: seq<Event>, g: Groups, e: LineEvent)
    requires InStep(b, out, g, e.path) && !starts(e.line) && g.open == []
    ensures var (c, more) := FeedTo(starts, b, e);
            InStep(c, out + more, Groups(g.closed + [[e]], []), e.path)
  {
    hide OfPath, RenderAll, Render, LinesOf, Join, FlushBuffer;
    RenderOne(e);
    var (c, more) := FeedTo(starts, b, e);
    OfPathConcat(out, more, e.path);
    OfPathWhole(more, e.path);
    RenderAllAppend(e.path, g.closed, [e]);
  }

  lemma FeedInStep(starts: seq<byte> -> bool, b: Buffers, out: seq<Event>, own: seq<Option<LineEvent>>,
                   e: LineEvent)
    requires InStep(b, out, Grouping(starts, own), e.path)
    ensures var (c, more) := FeedTo(starts, b, e);
            InStep(c, out + more, Grouping(starts, own + [Some(e)]), e.path)
  {
    hide InStep, FeedTo;
    var g := Grouping(starts, own);
    GroupingLine(starts, own, e);
    if starts(e.line) {
      StartInStep(starts, b, out, g, e);
    } else if g.open != [] {
      JoinInStep(starts, b, out, g, e);
    } else {
      LoneInStep(starts, b, out, g, e);
    }
  }

  lemma LinesOfOne(e: LineEvent)
    ensures LinesOf([e]) == [e.line]
  {
    assert LinesOf([e][..0]) == [];
  }

  lemma FlushInStep(starts: seq<byte> -> bool, b: Buffers, out: seq<Event>, own: seq<Option<LineEvent>>,
                    order: seq<string>, path: string)
    requires InStep(b, out, Grouping(starts, own), path) && WellKeyed(b) && IsOrder(b, order)
    ensures InStep(map[], out + FlushTo(b, order), Grouping(starts, own + [None]), path)
  {
    var g := Grouping(starts, own);
    assert (own + [None])[..|own|] == own;
    OfPathConcat(out, FlushTo(b, order), path);
    FlushOfPath(b, order, path);
    if g.open != [] {
      LinesOfLength(g.open);
      RenderAllAppend(path, g.closed, g.open);
    }
  }

  lemma {:induction false} ParseWellKeyed(starts: seq<byte> -> bool, inputs: seq<Input>)
    ensures WellKeyed(Parse(starts, inputs).0)
  {
    if inputs != [] {
      ParseWellKeyed(starts, inputs[..|inputs| - 1]);
    }
  }

  lemma OtherPathInStep(starts: seq<byte> -> bool, b: Buffers, out: seq<Event>, g: Groups, e: LineEvent, path: string)
    requires InStep(b, out, g, path) && WellKeyed(b) && e.path != path
    ensures var (c, more) := FeedTo(starts, b, e); InStep(c, out + more, g, path)
  {
    var (c, more) := FeedTo(starts, b, e);
    OfPathConcat(out, more, path);
    assert OfPath(more, path) == [];
  }

  /**
   For any interleaving of paths and flushes, the events of one path are the rendered groups of that path's own
   lines, and its buffer is its open group.
   */
  lemma {:induction false} ParserRefinesGrouping(starts: seq<byte> -> bool, inputs: seq<Input>, path: string)
    requires Flushable(starts, inputs)
    ensures var (b, out) := Parse(starts, inputs);
            InStep(b, out, Grouping(starts, Project(inputs, path)), path)
  {
    if inputs != [] {
      var before := inputs[..|inputs| - 1];
      var (b, out) := Parse(starts, before);
      var own := Project(before, path);
      ParserRefinesGrouping(starts, before, path);
      ParseWellKeyed(starts, before);
      match inputs[|inputs| - 1]
      case Line(e) =>
        if e.path == path {
          FeedInStep(starts, b, out, own, e);
        } else {
          OtherPathInStep(starts, b, out, Grouping(starts, own), e, path);
          assert own + [] == own;
        }
      case FlushAll(order) => FlushInStep(starts, b, out, own, order, path);
    }
  }

  /** Other paths never matter: two inputs that look alike to a path give it the same events and buffer. */
  lemma InterleavingDoesNotMatter(starts: seq<byte> -> bool, a: seq<Input>, b: seq<Input>, path: string)
    requires Flushable(starts, a) && Flushable(starts, b) && Project(a, path) == Project(b, path)
    ensures OfPath(Parse(starts, a).1, path) == OfPath(Parse(starts, b).1, path)
    ensures (path in Parse(starts, a).0 <==> path in Parse(starts, b).0)
    ensures path in Parse(starts, a).0 ==> Parse(starts, a).0[path] == Parse(starts, b).0[path]
  {
    ParserRefinesGrouping(starts, a, path);
    ParserRefinesGrouping(starts, b, path);
  }

  /** All lines that an ordered list of events stands for. */
  function SplitAll(events: seq<Event>): seq<seq<byte>> {
    if events == [] then [] else SplitAll(events[..|events| - 1]) + Split(events[|events| - 1].data)
  }

  lemma {:induction false} LinesOfConcat(a: seq<LineEvent>, b: seq<LineEvent>)
    ensures LinesOf(a + b) == LinesOf(a) + LinesOf(b)
  {
    if b == [] {
      assert a + b == a;
    } else {
      LinesOfConcat(a, b[..|b| - 1]);
      assert (a + b)[..|a + b| - 1] == a + b[..|b| - 1];
    }
  }

  predicate AllNewlineFree(group: seq<LineEvent>) {
    forall k :: 0 <= k < |group| ==> NewlineFree(group[k].line)
  }

  lemma {:induction false} LinesOfClean(group: seq<LineEvent>)
    requires AllNewlineFree(group)
    ensures forall k :: 0 <= k < |LinesOf(group)| ==> NewlineFree(LinesOf(group)[k])
  {
    if group != [] {
      LinesOfClean(group[..|group| - 1]);
    }
  }

  lemma {:induction false} RenderedSplit(path: string, groups: seq<seq<LineEvent>>)
    requires forall k :: 0 <= k < |groups| ==> groups[k] != []
    requires AllNewlineFree(Flatten(groups))
    ensures SplitAll(RenderAll(path, groups)) == LinesOf(Flatten(groups))
  {
    if groups != [] {
      var before, last := groups[..|groups| - 1], groups[|groups| - 1];
      var all := Flatten(groups);
      assert all == Flatten(before) + last;
      assert forall k :: 0 <= k < |last| ==> last[k] == all[|Flatten(before)| + k];
      assert forall k :: 0 <= k < |Flatten(before)| ==> Flatten(before)[k] == all[k];
      RenderedSplit(path, before);
      LinesOfLength(last);
      LinesOfClean(last);
      SplitJoin(LinesOf(last));
      LinesOfConcat(Flatten(before), last);
      var rendered := RenderAll(path, groups);
      assert rendered[..|rendered| - 1] == RenderAll(path, before);
    }
  }

  /** Splitting the events of a path at newlines, then its buffered lines, gives back the lines it was fed. */
  lemma ParserLossless(starts: seq<byte> -> bool, inputs: seq<Input>, path: string)
    requires Flushable(starts, inputs) && AllNewlineFree(OwnLines(Project(inputs, path)))
    ensures var (b, out) := Parse(starts, inputs);
            SplitAll(OfPath(out, path)) + (if path in b then b[path].lines else [])
            == LinesOf(OwnLines(Project(inputs, path)))
  {
    var own := Project(inputs, path);
    var g := Grouping(starts, own);
    ParserRefinesGrouping(starts, inputs, path);
    GroupingLossless(starts, own);
    assert forall k :: 0 <= k < |Flatten(g.closed)| ==> Flatten(g.closed)[k] == OwnLines(own)[k];
    RenderedSplit(path, g.closed);
    LinesOfConcat(Flatten(g.closed), g.open);
  }

  predicate Rising(lines: seq<LineEvent>) {
    forall i, j :: 0 <= i < j < |lines| ==> lines[i].offset < lines[j].offset
  }

  predicate RisingEvents(events: seq<Event>) {
    forall i, j :: 0 <= i < j < |events| ==> events[i].offset < events[j].offset
  }

  lemma {:induction false} RenderedRise(path: string, groups: seq<seq<LineEvent>>)
    requires (forall k :: 0 <= k < |groups| ==> groups[k] != []) && Rising(Flatten(groups))
    ensures var events := RenderAll(path, groups);
            && RisingEvents(events) && |events| == |groups|
            && (events != [] ==>
                  Flatten(groups) != [] && events[|events| - 1].offset == Flatten(groups)[|Flatten(groups)| - 1].offset)
  {
    if groups != [] {
      var before, last := groups[..|groups| - 1], groups[|groups| - 1];
      var all := Flatten(groups);
      assert all == Flatten(before) + last;
      assert forall k :: 0 <= k < |Flatten(before)| ==> Flatten(before)[k] == all[k];
      RenderedRise(path, before);
      var events, rest := RenderAll(path, groups), RenderAll(path, before);
      assert events == rest + [Render(path, last)];
      assert all[|all| - 1] == last[|last| - 1];
      if rest != [] {
        assert rest[|rest| - 1].offset < events[|rest|].offset;
      }
    }
  }

  /** Increasing offsets along a path give events with increasing offsets. */
  lemma OffsetsRise(starts: seq<byte> -> bool, inputs: seq<Input>, path: string)
    requires Flushable(starts, inputs) && Rising(OwnLines(Project(inputs, path)))
    ensures RisingEvents(OfPath(Parse(starts, inputs).1, path))
  {
    var own := Project(inputs, path);
    var g := Grouping(starts, own);
    ParserRefinesGrouping(starts, inputs, path);
    GroupingLossless(starts, own);
    assert forall k :: 0 <= k < |Flatten(g.closed)| ==> Flatten(g.closed)[k] == OwnLines(own)[k];
    RenderedRise(path, g.closed);
  }
}
