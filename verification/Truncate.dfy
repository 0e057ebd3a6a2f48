/**
 marshalPublishPayload and its helpers: shrinking a record to a byte budget by cutting one string field at the
 longest rune prefix that fits.  A record is an object whose fields the code updates, so it is a class here;
 the JSON encoding is represented by its exact length.
 */
module Truncate {
  import opened Common

  /** Field values; `Other` is any value that truncation never touches, with the length of its encoding. */
  datatype Value = Str(runes: string) | Bool(b: bool) | Int(n: nat) | Other(size: nat)

  type Fields = map<string, Value>

  // ---- The length of encoding/json's output ---------------------------------------------------------------

  /** Bytes of one rune in UTF-8. */
  function Utf8Len(r: char): (n: nat)
    ensures 1 <= n <= 4
  {
    if r as int < 0x80 then 1 else if r as int < 0x800 then 2 else if r as int < 0x1_0000 then 3 else 4
  }

  /** Bytes of one rune inside a JSON string: short escapes take two, unicode escapes six. */
  function RuneSize(r: char): (n: nat)
    ensures n >= 1
  {
    var c := r as int;
    if c == 34 || c == 92 || c == 8 || c == 9 || c == 10 || c == 12 || c == 13 then 2
    else if c < 32 || c == 60 || c == 62 || c == 38 || c == 0x2028 || c == 0x2029 then 6
    else Utf8Len(r)
  }

  function RunesSize(s: string): nat {
    if s == "" then 0 else RunesSize(s[..|s| - 1]) + RuneSize(s[|s| - 1])
  }

  function StringSize(s: string): nat {
    RunesSize(s) + 2
  }

  function DigitCount(n: nat): nat {
    if n < 10 then 1 else DigitCount(n / 10) + 1
  }

  function ValueSize(v: Value): nat {
    match v
    case Str(s) => StringSize(s)
    case Bool(b) => if b then 4 else 5
    case Int(n) => DigitCount(n)
    case Other(size) => size
  }

  /** A member of a JSON object with its colon and the comma or brace after it. */
  function MemberSize(key: string, v: Value): nat {
    StringSize(key) + 1 + ValueSize(v) + 1
  }

  ghost function MembersSize(fields: Fields): nat {
    if fields == map[] then 0
    else
      var key :| key in fields;
      MemberSize(key, fields[key]) + MembersSize(fields - {key})
  }

  /** The length of json.Marshal(fields): an opening brace, the members, and "{}" when there are none. */
  ghost function JsonSize(fields: Fields): nat {
    if fields == map[] then 2 else 1 + MembersSize(fields)
  }

  /** The members may be added up in any order. */
  lemma {:induction false} MembersSizeRemove(fields: Fields, key: string)
    requires key in fields
    ensures MembersSize(fields) == MemberSize(key, fields[key]) + MembersSize(fields - {key})
  {
    var first :| first in fields
      && MembersSize(fields) == MemberSize(first, fields[first]) + MembersSize(fields - {first});
    if first != key {
      MembersSizeRemove(fields - {first}, key);
      MembersSizeRemove(fields - {key}, first);
      assert fields - {first} - {key} == fields - {key} - {first};
    }
  }

  lemma JsonSizeUpdate(fields: Fields, key: string, v: Value, w: Value)
    ensures JsonSize(fields[key := v]) + ValueSize(w) == JsonSize(fields[key := w]) + ValueSize(v)
  {
    MembersSizeRemove(fields[key := v], key);
    MembersSizeRemove(fields[key := w], key);
    assert fields[key := v] - {key} == fields - {key};
    assert fields[key := w] - {key} == fields - {key};
  }

  // ---- Trials ---------------------------------------------------------------------------------------------

  /** len(s) of a Go string holding these runes. */
  function ByteLength(s: string): nat {
    if s == "" then 0 else ByteLength(s[..|s| - 1]) + Utf8Len(s[|s| - 1])
  }

  function WithMetadata(fields: Fields, field: string, originalBytes: nat): Fields {
    fields["publish_truncated" := Bool(true)]
    [field + "_truncated" := Bool(true)]
    [field + "_original_bytes" := Int(originalBytes)]
  }

  /** The record with `field` cut to its first `n` runes, the suffix and the truncation metadata. */
  function Trial(fields: Fields, field: string, n: nat, suffix: string): Fields
    requires field in fields && fields[field].Str? && n <= |fields[field].runes|
  {
    var original := fields[field].runes;
    WithMetadata(fields[field := Str(original[..n] + suffix)], field, ByteLength(original))
  }

  lemma {:induction false} RunesSizeConcat(a: string, b: string)
    ensures RunesSize(a + b) == RunesSize(a) + RunesSize(b)
  {
    if b == "" {
      assert a + b == a;
    } else {
      RunesSizeConcat(a, b[..|b| - 1]);
      assert (a + b)[..|a + b| - 1] == a + b[..|b| - 1];
    }
  }

  /** The metadata commutes with a change of the field, unless the metadata overwrites the field. */
  lemma WithMetadataUpdate(fields: Fields, field: string, v: Value, originalBytes: nat)
    ensures WithMetadata(fields[field := v], field, originalBytes) ==
            if field == "publish_truncated" then WithMetadata(fields, field, originalBytes)
            else WithMetadata(fields, field, originalBytes)[field := v]
  {
    assert |field + "_truncated"| != |field| && |field + "_original_bytes"| != |field|;
  }

  /** One rune more makes the trial larger, except that a field overwritten by the metadata stays as it is. */
  lemma TrialStep(fields: Fields, field: string, n: nat, suffix: string)
    requires field in fields && fields[field].Str? && n < |fields[field].runes|
    ensures var small := JsonSize(Trial(fields, field, n, suffix));
            var large := JsonSize(Trial(fields, field, n + 1, suffix));
            if field == "publish_truncated" then small == large
            else large == small + RuneSize(fields[field].runes[n])
  {
    var s := fields[field].runes;
    var short, long := s[..n] + suffix, s[..n + 1] + suffix;
    var bytes := ByteLength(s);
    WithMetadataUpdate(fields, field, Str(short), bytes);
    WithMetadataUpdate(fields, field, Str(long), bytes);
    JsonSizeUpdate(WithMetadata(fields, field, bytes), field, Str(short), Str(long));
    RunesSizeConcat(s[..n], suffix);
    RunesSizeConcat(s[..n + 1], suffix);
    assert s[..n + 1][..n] == s[..n];
  }

  lemma {:induction false} TrialMonotone(fields: Fields, field: string, a: nat, b: nat, suffix: string)
    requires field in fields && fields[field].Str? && a <= b <= |fields[field].runes|
    ensures JsonSize(Trial(fields, field, a, suffix)) <= JsonSize(Trial(fields, field, b, suffix))
    decreases b - a
  {
    if a < b {
      TrialStep(fields, field, b - 1, suffix);
      TrialMonotone(fields, field, a, b - 1, suffix);
    }
  }

  /** The three keys under which a cut is recorded. */
  function MetadataKeys(field: string): set<string> {
    {"publish_truncated", field + "_truncated", field + "_original_bytes"}
  }

  /**
   `cut` is the record with this field cut to its first `n` runes and the suffix: everything else is as it was, and the
   cut is recorded with the length that the field had.  A field named like the flag is overwritten by it.
   */
  predicate CutTo(cut: Fields, fields: Fields, field: string, n: nat, suffix: string)
    requires field in fields && fields[field].Str? && n <= |fields[field].runes|
  {
    var original := fields[field].runes;
    && cut.Keys == fields.Keys + MetadataKeys(field)
    && cut[field] == (if field == "publish_truncated" then Bool(true) else Str(original[..n] + suffix))
    && cut["publish_truncated"] == Bool(true)
    && cut[field + "_truncated"] == Bool(true)
    && cut[field + "_original_bytes"] == Int(ByteLength(original))
    && forall key :: key in fields && key != field && key !in MetadataKeys(field) ==> cut[key] == fields[key]
  }

  lemma MetadataKeysDiffer(field: string)
    ensures field + "_original_bytes" != "publish_truncated" && field + "_original_bytes" != field + "_truncated"
    ensures field != field + "_truncated" && field != field + "_original_bytes"
  {
    var bytes := field + "_original_bytes";
    assert |bytes| == |field| + 15 && bytes[|bytes| - 1] == "_original_bytes"[14] == 's';
    assert |field + "_truncated"| == |field| + 10;
    assert "publish_truncated"[16] == 'd';
  }

  lemma TrialExactly(fields: Fields, field: string, n: nat, suffix: string)
    requires field in fields && fields[field].Str? && n <= |fields[field].runes|
    ensures CutTo(Trial(fields, field, n, suffix), fields, field, n, suffix)
  {
    MetadataKeysDiffer(field);
    hide ByteLength;
  }

  /** The record with this field cut at some rune. */
  ghost predicate IsCutOf(cut: Fields, fields: Fields, field: string, suffix: string) {
    && field in fields && fields[field].Str?
    && exists n: nat :: n <= |fields[field].runes| && CutTo(cut, fields, field, n, suffix)
  }

  ghost predicate CutSomewhere(cut: Fields, fields: Fields, suffix: string) {
    exists field :: IsCutOf(cut, fields, field, suffix)
  }

  // ---- The code -------------------------------------------------------------------------------------------

  /** transform.Record. */
  class Record {
    var fields: Fields

    constructor (fields: Fields)
      ensures this.fields == fields
    {
      this.fields := fields;
    }

    method Set(key: string, v: Value)
      modifies this
      ensures fields == old(fields)[key := v]
    {
      fields := fields[key := v];
    }
  }

  method CloneRecord(record: Record) returns (out: Record)
    ensures fresh(out) && out.fields == record.fields
  {
    out := new Record(record.fields);
  }

  method SetTruncationMetadata(record: Record, field: string, originalBytes: nat)
    modifies record
    ensures record.fields == WithMetadata(old(record.fields), field, originalBytes)
  {
    record.Set("publish_truncated", Bool(true));
    record.Set(field + "_truncated", Bool(true));
    record.Set(field + "_original_bytes", Int(originalBytes));
  }

  /** A marshalled record: what it encodes and how many bytes that takes. */
  datatype Payload = Payload(fields: Fields, size: nat)

  method {:induction false} MembersLength(fields: Fields) returns (size: nat)
    ensures size == MembersSize(fields)
    decreases |fields|
  {
    if |fields| == 0 {
      assert fields == map[];
      return 0;
    }
    var key :| key in fields;
    var rest := MembersLength(fields - {key});
    MembersSizeRemove(fields, key);
    size := MemberSize(key, fields[key]) + rest;
  }

  method Marshal(record: Record) returns (payload: Payload)
    ensures payload == Payload(record.fields, JsonSize(record.fields))
  {
    var size := MembersLength(record.fields);
    payload := Payload(record.fields, if record.fields == map[] then 2 else 1 + size);
  }

  /** The field can be cut: it is there and holds a string. */
  predicate Cuttable(fields: Fields, field: string) {
    field in fields && fields[field].Str?
  }

  /** Even the bare suffix, or more, fits the budget. */
  ghost predicate Shrinks(fields: Fields, maxBytes: nat, field: string, suffix: string) {
    Cuttable(fields, field) && JsonSize(Trial(fields, field, 0, suffix)) <= maxBytes
  }

  /** `payload` keeps the longest prefix of the field that fits. */
  ghost predicate Longest(payload: Payload, fields: Fields, maxBytes: nat, field: string, suffix: string)
    requires Cuttable(fields, field)
  {
    exists n: nat ::
      && n <= |fields[field].runes|
      && payload == Payload(Trial(fields, field, n, suffix), JsonSize(Trial(fields, field, n, suffix)))
      && payload.size <= maxBytes
      && forall m: nat :: n < m <= |fields[field].runes| ==> JsonSize(Trial(fields, field, m, suffix)) > maxBytes
  }

  method TryPrefix(record: Record, field: string, n: nat, suffix: string) returns (payload: Payload)
    requires Cuttable(record.fields, field) && n <= |record.fields[field].runes|
    ensures payload == Payload(Trial(record.fields, field, n, suffix), JsonSize(Trial(record.fields, field, n, suffix)))
  {
    var original := record.fields[field].runes;
    var trial := CloneRecord(record);
    trial.Set(field, Str(original[..n] + suffix));
    SetTruncationMetadata(trial, field, ByteLength(original));
    payload := Marshal(trial);
  }

  /**
   The binary search.  A result is the longest prefix that fits; there is one exactly when the bare suffix
   fits, so the attempt after the loop never succeeds.
   */
  method TruncateStringField(record: Record, maxBytes: nat, field: string, suffix: string)
    returns (best: Option<Payload>)
    ensures best.Some? <==> Shrinks(record.fields, maxBytes, field, suffix)
    ensures best.Some? ==> Longest(best.value, record.fields, maxBytes, field, suffix)
    ensures best.Some? ==> IsCutOf(best.value.fields, record.fields, field, suffix)
  {
    hide JsonSize, Trial, CutTo;
    if field !in record.fields || !record.fields[field].Str? {
      return None;
    }
    var n := |record.fields[field].runes|;
    var low, high := 0, n;
    best := None;
    while low <= high
      invariant 0 <= low <= n + 1 && -1 <= high <= n && low <= high + 1
      invariant best.None? ==> low == 0
      invariant best.Some? ==> low > 0 && best.value.size <= maxBytes
      invariant best.Some? ==>
                  best.value == Payload(Trial(record.fields, field, low - 1, suffix),
                                        JsonSize(Trial(record.fields, field, low - 1, suffix)))
      invariant forall m: nat :: high < m <= n ==> JsonSize(Trial(record.fields, field, m, suffix)) > maxBytes
      decreases high - low
    {
      var mid := (low + high) / 2;
      var payload := TryPrefix(record, field, mid, suffix);
      if payload.size <= maxBytes {
        best := Some(payload);
        low := mid + 1;
      } else {
        forall m: nat | mid <= m <= n ensures JsonSize(Trial(record.fields, field, m, suffix)) > maxBytes {
          TrialMonotone(record.fields, field, mid, m, suffix);
        }
        high := mid - 1;
      }
    }
    if best.Some? {
      TrialMonotone(record.fields, field, 0, low - 1, suffix);
      TrialExactly(record.fields, field, low - 1, suffix);
      return;
    }
    var payload := TryPrefix(record, field, 0, suffix);
    if payload.size <= maxBytes {
      assert false;
    }
  }

  /** `key` is a string field outside `skip`. */
  predicate Candidate(fields: Fields, skip: set<string>, key: string) {
    Cuttable(fields, key) && key !in skip
  }

  /** `key` is a longest non-empty string field outside `skip`. */
  ghost predicate LongestString(fields: Fields, skip: set<string>, key: string) {
    && Candidate(fields, skip, key)
    && ByteLength(fields[key].runes) > 0
    && forall other :: Candidate(fields, skip, other) ==>
         ByteLength(fields[other].runes) <= ByteLength(fields[key].runes)
  }

  /** There is no such field, or the one with the empty name was picked. */
  ghost predicate NoLongestString(fields: Fields, skip: set<string>) {
    || LongestString(fields, skip, "")
    || forall key :: Candidate(fields, skip, key) ==> ByteLength(fields[key].runes) == 0
  }

  /** Go ranges over a map in any order that meets each key once. */
  predicate IsRange(fields: Fields, keys: seq<string>) {
    && (forall i, j :: 0 <= i < j < |keys| ==> keys[i] != keys[j])
    && (forall i :: 0 <= i < |keys| ==> keys[i] in fields)
    && (forall key :: key in fields ==> key in keys)
  }

  /** The first longest candidate among these keys, with its length; the empty name when all are empty. */
  function Largest(fields: Fields, skip: set<string>, keys: seq<string>): (string, nat) {
    if keys == [] then ("", 0)
    else
      var best := Largest(fields, skip, keys[..|keys| - 1]);
      var key := keys[|keys| - 1];
      if Candidate(fields, skip, key) && ByteLength(fields[key].runes) > best.1 then
        (key, ByteLength(fields[key].runes))
      else best
  }

  lemma {:induction false} LargestIsLongest(fields: Fields, skip: set<string>, keys: seq<string>)
    ensures var (key, length) := Largest(fields, skip, keys);
            && (if length == 0 then key == ""
                else Candidate(fields, skip, key) && ByteLength(fields[key].runes) == length)
            && forall i :: 0 <= i < |keys| && Candidate(fields, skip, keys[i]) ==>
                 ByteLength(fields[keys[i]].runes) <= length
  {
    if keys != [] {
      var before := keys[..|keys| - 1];
      LargestIsLongest(fields, skip, before);
      assert forall i :: 0 <= i < |before| ==> keys[i] == before[i];
    }
  }

  /** `keys` is the order in which the map is gone through; which of several longest fields wins depends on it. */
  method LargestStringField(record: Record, skip: set<string>, keys: seq<string>) returns (bestKey: string)
    requires IsRange(record.fields, keys)
    ensures bestKey == Largest(record.fields, skip, keys).0
    ensures if bestKey == "" then NoLongestString(record.fields, skip)
            else LongestString(record.fields, skip, bestKey)
  {
    bestKey := "";
    var bestLen := 0;
    for i := 0 to |keys|
      invariant (bestKey, bestLen) == Largest(record.fields, skip, keys[..i])
    {
      assert keys[..i + 1][..i] == keys[..i];
      var key := keys[i];
      if key !in skip && record.fields[key].Str? {
        var n := ByteLength(record.fields[key].runes);
        if n > bestLen {
          bestLen := n;
          bestKey := key;
        }
      }
    }
    assert keys[..|keys|] == keys;
    LargestExactly(record.fields, skip, keys);
  }

  /** The fields that always come first: the primary one, then `_raw` when it is there. */
  function FixedFields(fields: Fields, primaryField: string): seq<string> {
    if "_raw" in fields && primaryField != "_raw" then [primaryField, "_raw"] else [primaryField]
  }

  /** The order in which fields are tried: the fixed ones, then a longest other string if there is one. */
  function TrialOrder(fields: Fields, primaryField: string, keys: seq<string>): seq<string> {
    var fixed := FixedFields(fields, primaryField);
    var largest := Largest(fields, (set field | field in fixed), keys).0;
    if largest == "" then fixed else fixed + [largest]
  }

  /** Field `i` is the first one in the order whose bare suffix fits; none fits when `i` is past the end. */
  ghost predicate FirstFit(fields: Fields, maxBytes: nat, order: seq<string>, suffix: string, i: nat) {
    && i <= |order|
    && (i < |order| ==> order[i] != "" && Shrinks(fields, maxBytes, order[i], suffix))
    && forall k :: 0 <= k < i && order[k] != "" ==> !Shrinks(fields, maxBytes, order[k], suffix)
  }

  /** How an oversized record ends: the first field that can be cut enough is cut as little as possible. */
  ghost predicate CutOutcome(fields: Fields, maxBytes: nat, primaryField: string, suffix: string, keys: seq<string>,
                             payload: Payload, truncated: bool, err: Err)
  {
    var order := TrialOrder(fields, primaryField, keys);
    exists i: nat ::
      && FirstFit(fields, maxBytes, order, suffix, i)
      && if i < |order| then err == Nil && truncated && Longest(payload, fields, maxBytes, order[i], suffix)
         else err == OversizeErr && !truncated
  }

  /** Some field in the order can be cut enough. */
  ghost predicate CanBeCut(fields: Fields, maxBytes: nat, primaryField: string, suffix: string, keys: seq<string>) {
    var order := TrialOrder(fields, primaryField, keys);
    exists i: nat :: i < |order| && order[i] != "" && Shrinks(fields, maxBytes, order[i], suffix)
  }

  /** Whether an oversized record is sent is decided by its fields, the budget and the order of the range alone. */
  lemma CutExactly(fields: Fields, maxBytes: nat, primaryField: string, suffix: string, keys: seq<string>,
                   payload: Payload, truncated: bool, err: Err)
    requires CutOutcome(fields, maxBytes, primaryField, suffix, keys, payload, truncated, err)
    ensures err == (if CanBeCut(fields, maxBytes, primaryField, suffix, keys) then Nil else OversizeErr)
    ensures truncated <==> err == Nil
  {
    hide Shrinks, Longest, TrialOrder;
  }

  /**
   The payload for the sink: the record as it is when there is no budget or it fits, otherwise the outcome of
   cutting; with a budget, a nil error always means a payload within it.
   */
  method MarshalPublishPayload(record: Record, maxBytes: int, primaryField: string, suffix: string, keys: seq<string>)
    returns (payload: Payload, truncated: bool, err: Err)
    requires IsRange(record.fields, keys)
    ensures if maxBytes <= 0 || JsonSize(record.fields) <= maxBytes then
              err == Nil && !truncated && payload == Payload(record.fields, JsonSize(record.fields))
            else
              CutOutcome(record.fields, maxBytes, primaryField, suffix, keys, payload, truncated, err)
    ensures err == Nil ==> if truncated then CutSomewhere(payload.fields, record.fields, suffix)
                           else payload.fields == record.fields
    ensures maxBytes > 0 && err == Nil ==> payload.size == JsonSize(payload.fields) <= maxBytes
  {
    payload := Marshal(record);
    if maxBytes <= 0 || payload.size <= maxBytes {
      return payload, false, Nil;
    }
    payload, truncated, err := CutRecord(record, maxBytes, primaryField, suffix, keys);
  }

  /** The payload's record is that with `field` cut as little as possible. */
  ghost predicate LongestCut(payload: Payload, fields: Fields, maxBytes: nat, field: string, suffix: string) {
    Cuttable(fields, field) && Longest(payload, fields, maxBytes, field, suffix)
  }

  lemma LongestIsCut(payload: Payload, fields: Fields, maxBytes: nat, field: string, suffix: string)
    requires LongestCut(payload, fields, maxBytes, field, suffix)
    ensures IsCutOf(payload.fields, fields, field, suffix) && CutSomewhere(payload.fields, fields, suffix)
  {
    hide Trial, JsonSize, CutTo;
    var n: nat :| n <= |fields[field].runes| && payload.fields == Trial(fields, field, n, suffix);
    TrialExactly(fields, field, n, suffix);
  }

  /** The field can be tried and cut enough. */
  ghost predicate Works(fields: Fields, maxBytes: nat, field: string, suffix: string) {
    field != "" && Shrinks(fields, maxBytes, field, suffix)
  }

  /**
   Which field an oversized record is cut in: the primary one if it can be cut enough, else `_raw` if that can, else a
   longest of the other strings; an error means that none of these can.
   */
  lemma CutPriority(fields: Fields, maxBytes: nat, primaryField: string, suffix: string, keys: seq<string>,
                    payload: Payload, truncated: bool, err: Err)
    requires IsRange(fields, keys)
    requires CutOutcome(fields, maxBytes, primaryField, suffix, keys, payload, truncated, err)
    ensures var skip := {primaryField} + if "_raw" in fields then {"_raw"} else {};
            if Works(fields, maxBytes, primaryField, suffix) then
              err == Nil && LongestCut(payload, fields, maxBytes, primaryField, suffix)
            else if Works(fields, maxBytes, "_raw", suffix) then
              err == Nil && LongestCut(payload, fields, maxBytes, "_raw", suffix)
            else if err == Nil then
              exists field :: LongestString(fields, skip, field) && LongestCut(payload, fields, maxBytes, field, suffix)
            else
              NoLongestString(fields, skip)
              || exists field :: LongestString(fields, skip, field) && !Works(fields, maxBytes, field, suffix)
  {
    var fixed := FixedFields(fields, primaryField);
    var skip := set field | field in fixed;
    var largest := Largest(fields, skip, keys).0;
    LargestExactly(fields, skip, keys);
    assert skip == {primaryField} + if "_raw" in fields then {"_raw"} else {};
    hide Longest, LongestString, NoLongestString, Largest, Trial, JsonSize;
    var order := TrialOrder(fields, primaryField, keys);
    var i: nat :| && FirstFit(fields, maxBytes, order, suffix, i)
                  && if i < |order| then err == Nil && truncated
                                         && Longest(payload, fields, maxBytes, order[i], suffix)
                     else err == OversizeErr && !truncated;
    assert i > 0 ==> !Works(fields, maxBytes, order[0], suffix);
    assert i > 1 ==> !Works(fields, maxBytes, order[1], suffix);
    if i < |order| {
      assert LongestCut(payload, fields, maxBytes, order[i], suffix);
    } else if largest != "" {
      assert !Works(fields, maxBytes, order[|order| - 1], suffix);
    }
  }

  lemma LargestExactly(fields: Fields, skip: set<string>, keys: seq<string>)
    requires IsRange(fields, keys)
    ensures var key := Largest(fields, skip, keys).0;
            if key == "" then NoLongestString(fields, skip) else LongestString(fields, skip, key)
  {
    LargestIsLongest(fields, skip, keys);
  }

  lemma LongestFits(fields: Fields, maxBytes: nat, suffix: string)
    ensures forall payload, field :: Cuttable(fields, field) && Longest(payload, fields, maxBytes, field, suffix)
              ==> payload.size == JsonSize(payload.fields) <= maxBytes
  {
    hide Trial, JsonSize;
  }

  /** The fields in the order of the trials; the last one is a longest string outside the others. */
  method FieldsToTry(record: Record, primaryField: string, keys: seq<string>) returns (fields: seq<string>)
    requires IsRange(record.fields, keys)
    ensures fields == TrialOrder(record.fields, primaryField, keys)
    ensures var fixed := FixedFields(record.fields, primaryField); var skip := set field | field in fixed;
            || (fields == fixed && NoLongestString(record.fields, skip))
            || (|fields| == |fixed| + 1 && fields[..|fixed|] == fixed
                && LongestString(record.fields, skip, fields[|fixed|]))
  {
    hide LongestString, NoLongestString, Largest;
    fields := [primaryField];
    var skip := {primaryField};
    if "_raw" in record.fields && primaryField != "_raw" {
      fields := fields + ["_raw"];
      skip := skip + {"_raw"};
    }
    assert fields == FixedFields(record.fields, primaryField);
    assert skip == set field | field in fields;
    var largest := LargestStringField(record, skip, keys);
    if largest != "" {
      fields := fields + [largest];
    }
  }

  method CutRecord(record: Record, maxBytes: nat, primaryField: string, suffix: string, keys: seq<string>)
    returns (payload: Payload, truncated: bool, err: Err)
    requires IsRange(record.fields, keys)
    ensures CutOutcome(record.fields, maxBytes, primaryField, suffix, keys, payload, truncated, err)
    ensures err == Nil ==> truncated && CutSomewhere(payload.fields, record.fields, suffix)
    ensures err == Nil ==> payload.size == JsonSize(payload.fields) <= maxBytes
  {
    LongestFits(record.fields, maxBytes, suffix);
    var fields := FieldsToTry(record, primaryField, keys);
    hide TrialOrder, Shrinks, Longest, Trial, JsonSize, NoLongestString, LongestString, IsCutOf;
    for i := 0 to |fields|
      invariant forall k :: 0 <= k < i && fields[k] != "" ==> !Shrinks(record.fields, maxBytes, fields[k], suffix)
    {
      if fields[i] != "" {
        var cut := TruncateStringField(record, maxBytes, fields[i], suffix);
        if cut.Some? {
          assert FirstFit(record.fields, maxBytes, fields, suffix, i);
          return cut.value, true, Nil;
        }
      }
    }
    assert FirstFit(record.fields, maxBytes, fields, suffix, |fields|);
    payload := Payload(map[], 0);
    truncated, err := false, OversizeErr;
  }
}
