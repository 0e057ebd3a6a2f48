/** Joining byte strings with newlines and splitting at newlines, as bytes.Join and strings.Split do. */
module Lines {
  import opened Common

  predicate NewlineFree(line: seq<byte>) {
    NEWLINE !in line
  }

  function Join(lines: seq<seq<byte>>): seq<byte> {
    if lines == [] then []
    else if |lines| == 1 then lines[0]
    else Join(lines[..|lines| - 1]) + [NEWLINE] + lines[|lines| - 1]
  }

  function Split(data: seq<byte>): (lines: seq<seq<byte>>)
    ensures |lines| > 0
  {
    if data == [] then [[]]
    else
      var before := Split(data[..|data| - 1]);
      var last := data[|data| - 1];
      if last == NEWLINE then before + [[]] else before[|before| - 1 := before[|before| - 1] + [last]]
  }

  lemma {:induction false} SplitLine(line: seq<byte>)
    requires NewlineFree(line)
    ensures Split(line) == [line]
  {
    if line != [] {
      SplitLine(line[..|line| - 1]);
      assert line[..|line| - 1] + [line[|line| - 1]] == line;
    }
  }

  lemma {:induction false} SplitAppend(data: seq<byte>, line: seq<byte>)
    requires NewlineFree(line)
    ensures Split(data + [NEWLINE] + line) == Split(data) + [line]
  {
    var whole := data + [NEWLINE] + line;
    if line == [] {
      assert whole[..|whole| - 1] == data;
    } else {
      var shorter := line[..|line| - 1];
      SplitAppend(data, shorter);
      assert whole[..|whole| - 1] == data + [NEWLINE] + shorter;
      assert shorter + [line[|line| - 1]] == line;
    }
  }

  /** Splitting undoes joining. */
  lemma {:induction false} SplitJoin(lines: seq<seq<byte>>)
    requires lines != [] && forall k :: 0 <= k < |lines| ==> NewlineFree(lines[k])
    ensures Split(Join(lines)) == lines
  {
    var last := lines[|lines| - 1];
    if |lines| == 1 {
      SplitLine(last);
    } else {
      SplitJoin(lines[..|lines| - 1]);
      SplitAppend(Join(lines[..|lines| - 1]), last);
      assert lines[..|lines| - 1] + [last] == lines;
    }
  }
}
