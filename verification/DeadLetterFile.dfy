/** Writing a failed batch as one JSONL file with metadata, and reading the framing back. */
module DeadLetterFile {
  import opened Common
  import opened Lines

  /** The metadata of a batch file. */
  datatype Entry = Entry(eventCount: nat, bytes: nat)

  /** The environment's contribution to one WriteBatch: which operation fails, if any; writes are counted from 0. */
  datatype Fault = NoFault | MkdirFails | CreateFails | WriteFails(call: nat) | CloseFails | RenameFails | MetaFails

  /** The file that holds these payloads: one line each. */
  function Frame(payloads: seq<seq<byte>>): seq<byte> {
    if payloads == [] then []
    else Frame(payloads[..|payloads| - 1]) + payloads[|payloads| - 1] + [NEWLINE]
  }

  lemma FrameAppend(payloads: seq<seq<byte>>, payload: seq<byte>)
    ensures Frame(payloads + [payload]) == Frame(payloads) + payload + [NEWLINE]
  {
    assert (payloads + [payload])[..|payloads|] == payloads;
  }

  function TrimNewline(data: seq<byte>): seq<byte> {
    if data != [] && data[|data| - 1] == NEWLINE then data[..|data| - 1] else data
  }

  /** countJSONLLines on the bytes of a file. */
  function CountLines(data: seq<byte>): nat {
    if data == [] then 0 else |Split(TrimNewline(data))|
  }

  /** The operation that makes this write of a batch fail. */
  predicate Fails(files: map<string, seq<byte>>, filename: string, payloads: seq<seq<byte>>, fault: Fault) {
    || payloads == []
    || (fault.WriteFails? && fault.call < 2 * |payloads|)
    || (fault != NoFault && !fault.WriteFails?)
    || filename + ".tmp" in files
  }

  class Directory {
    var files: map<string, seq<byte>>
    var metas: map<string, Entry>

    constructor ()
      ensures files == map[] && metas == map[]
    {
      files, metas := map[], map[];
    }

    method Append(filename: string, data: seq<byte>, fails: bool) returns (err: Err)
      requires filename in files
      modifies this`files
      ensures err == if fails then DeadLetterErr else Nil
      ensures files == if fails then old(files) else old(files)[filename := old(files)[filename] + data]
    {
      if fails {
        return DeadLetterErr;
      }
      files := files[filename := files[filename] + data];
      err := Nil;
    }

    /** The loop over the payloads: two writes each; `total` counts the bytes written. */
    method WriteRecords(tmp: string, payloads: seq<seq<byte>>, fault: Fault) returns (total: nat, err: Err)
      requires tmp in files && files[tmp] == []
      modifies this`files
      ensures err == if fault.WriteFails? && fault.call < 2 * |payloads| then DeadLetterErr else Nil
      ensures err == Nil ==> files == old(files)[tmp := Frame(payloads)] && total == |Frame(payloads)|
      ensures tmp in files && files - {tmp} == old(files) - {tmp}
    {
      total, err := 0, Nil;
      for i := 0 to |payloads|
        invariant files == old(files)[tmp := Frame(payloads[..i])]
        invariant total == |Frame(payloads[..i])|
        invariant fault.WriteFails? ==> fault.call >= 2 * i
        invariant err == Nil
      {
        assert payloads[..i + 1] == payloads[..i] + [payloads[i]];
        FrameAppend(payloads[..i], payloads[i]);
        err := Append(tmp, payloads[i], fault == WriteFails(2 * i));
        if err != Nil {
          return;
        }
        err := Append(tmp, [NEWLINE], fault == WriteFails(2 * i + 1));
        if err != Nil {
          return;
        }
        total := total + |payloads[i]| + 1;
      }
      assert payloads[..|payloads|] == payloads;
    }

    /** The temporary file is created. */
    predicate Creates(filename: string, payloads: seq<seq<byte>>, fault: Fault)
      reads this
    {
      payloads != [] && fault != MkdirFails && fault != CreateFails && filename + ".tmp" !in files
    }

    /** The file holds these payloads, and its metadata, if it is there, says so. */
    ghost predicate Committed(filename: string, payloads: seq<seq<byte>>)
      reads this
    {
      && filename in files && files[filename] == Frame(payloads)
      && (filename in metas ==> metas[filename] == Entry(|payloads|, |Frame(payloads)|))
    }

    /**
     WriteBatch.  On success the file frames exactly the payloads and `bytes` is its length.  On failure no file of
     the batch is left behind, unless its removal fails as well: then the temporary file stays, or, when it was the
     metadata that could not be written, the whole batch file.
     */
    method WriteBatch(filename: string, payloads: seq<seq<byte>>, fault: Fault, removeOk: bool)
      returns (bytes: nat, err: Err)
      modifies this
      ensures err == if Fails(old(files), filename, payloads, fault) then DeadLetterErr else Nil
      ensures err == Nil ==>
                && Committed(filename, payloads) && filename in metas && bytes == |Frame(payloads)|
                && files - {filename} == old(files) - {filename} && metas - {filename} == old(metas) - {filename}
      ensures err != Nil ==> metas == old(metas) && bytes == 0
      ensures err != Nil && !old(Creates(filename, payloads, fault)) ==> files == old(files)
      ensures err != Nil && removeOk ==>
                files - {filename} == old(files) - {filename} && (filename !in old(files) ==> files == old(files))
      ensures err != Nil && !removeOk && old(Creates(filename, payloads, fault)) ==>
                if fault == MetaFails then files == old(files)[filename := Frame(payloads)]
                else filename + ".tmp" in files && files - {filename + ".tmp"} == old(files)
    {
      hide Frame;
      bytes, err := 0, DeadLetterErr;
      var tmp := filename + ".tmp";
      assert |tmp| != |filename|;
      if |payloads| == 0 || fault == MkdirFails || fault == CreateFails || tmp in files {
        return;
      }
      var total, werr := WriteTemporary(tmp, payloads, fault, removeOk);
      if werr != Nil {
        return;
      }
      if fault == RenameFails {
        Remove(tmp, removeOk);
        return;
      }
      files := (files - {tmp})[filename := files[tmp]];
      assert files == old(files)[filename := Frame(payloads)];
      if fault == MetaFails {
        Remove(filename, removeOk);
        return;
      }
      metas := metas[filename := Entry(|payloads|, total)];
      bytes, err := total, Nil;
    }

    /** Create, write and close the temporary file; it is removed again when that fails. */
    method WriteTemporary(tmp: string, payloads: seq<seq<byte>>, fault: Fault, removeOk: bool)
      returns (total: nat, err: Err)
      requires tmp !in files
      modifies this`files
      ensures err == if fault == CloseFails || (fault.WriteFails? && fault.call < 2 * |payloads|) then DeadLetterErr
                     else Nil
      ensures err == Nil ==> files == old(files)[tmp := Frame(payloads)] && total == |Frame(payloads)|
      ensures err != Nil ==>
                if removeOk then files == old(files) else tmp in files && files - {tmp} == old(files)
    {
      hide Frame;
      files := files[tmp := []];
      total, err := WriteRecords(tmp, payloads, fault);
      assert files - {tmp} == old(files);
      if err != Nil || fault == CloseFails {
        Remove(tmp, removeOk);
        err := DeadLetterErr;
      }
    }

    /** os.Remove, whose error the code does not look at. */
    method Remove(filename: string, ok: bool)
      modifies this`files
      ensures files == if ok then old(files) - {filename} else old(files)
    {
      if ok {
        files := files - {filename};
      }
    }

    /** entryForFile: the metadata when there is some, else what the file itself tells. */
    function EntryForFile(filename: string): Entry
      requires filename in files
      reads this
    {
      if filename in metas then metas[filename] else Entry(CountLines(files[filename]), |files[filename]|)
    }
  }

  lemma {:induction false} FrameIsJoin(payloads: seq<seq<byte>>)
    requires payloads != []
    ensures Frame(payloads) == Join(payloads) + [NEWLINE]
  {
    if |payloads| > 1 {
      FrameIsJoin(payloads[..|payloads| - 1]);
    }
  }

  /** Framing round trip: the file splits back into exactly the payloads, and counting its lines counts them. */
  lemma FramingRoundTrip(payloads: seq<seq<byte>>)
    requires payloads != [] && forall k :: 0 <= k < |payloads| ==> NewlineFree(payloads[k])
    ensures Split(TrimNewline(Frame(payloads))) == payloads
    ensures CountLines(Frame(payloads)) == |payloads|
  {
    FrameIsJoin(payloads);
    SplitJoin(payloads);
    assert TrimNewline(Frame(payloads)) == Join(payloads);
  }

  /** A committed batch is listed by its number of payloads and its length, whether or not its metadata is there. */
  lemma ListedExactly(d: Directory, filename: string, payloads: seq<seq<byte>>)
    requires d.Committed(filename, payloads)
    requires payloads != [] && forall k :: 0 <= k < |payloads| ==> NewlineFree(payloads[k])
    ensures d.EntryForFile(filename) == Entry(|payloads|, |Frame(payloads)|)
  {
    FramingRoundTrip(payloads);
  }

  /** Losing the metadata of a committed batch does not change how the batch is listed. */
  lemma MetadataAgrees(d: Directory, e: Directory, filename: string, payloads: seq<seq<byte>>)
    requires d.Committed(filename, payloads) && filename in d.metas
    requires payloads != [] && forall k :: 0 <= k < |payloads| ==> NewlineFree(payloads[k])
    requires e.files == d.files && e.metas == d.metas - {filename}
    ensures e.EntryForFile(filename) == d.EntryForFile(filename) == Entry(|payloads|, |Frame(payloads)|)
  {
    ListedExactly(d, filename, payloads);
    ListedExactly(e, filename, payloads);
  }
}
