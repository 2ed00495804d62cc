/**
 The repair of legacy work varints: a message whose work fields overflow 64
 bits is rewritten so that each of them becomes a zero sentinel followed by a
 double extension, and nothing else changes.

 Converting an integer to a double and its eight bytes is a parameter: `None`
 stands for a value that is not finite as a double.
 */
module WorkCodec {
  import opened Wrappers
  import opened WireFormat

  type DoubleBytes = s: seq<byte> | |s| == 8 witness [0, 0, 0, 0, 0, 0, 0, 0]
  type ToDouble = nat -> Option<DoubleBytes>

  /** Tags that print in two bytes, and extension tags that are not themselves work tags. */
  predicate ValidTags(tags: Tags) {
    forall t :: t in tags ==> 0 < t < 2048 && 0 < tags[t] < 2048 && tags[t] !in tags
  }

  const SHARE_TAGS: Tags := map[1 := 17, 14 := 18, 8 := 19]
  const BLOCK_TAGS: Tags := map[2 := 10, 3 := 11]
  const ALT_BLOCK_TAGS: Tags := map[2 := 16, 3 := 17]

  lemma CodecTagsAreValid()
    ensures ValidTags(SHARE_TAGS) && ValidTags(BLOCK_TAGS) && ValidTags(ALT_BLOCK_TAGS)
  {
    assert SHARE_TAGS.Keys == {1, 14, 8};
    assert BLOCK_TAGS.Keys == {2, 3};
    assert ALT_BLOCK_TAGS.Keys == {2, 3};
  }

  // ------------------------------------------------------------------
  // Specification on fields
  // ------------------------------------------------------------------

  predicate Overflows(f: Field, tags: Tags) {
    f.Varint? && f.tag in tags && f.value > U64_MAX
  }

  function RewriteField(f: Field, tags: Tags, toDouble: ToDouble): seq<Field> {
    if Overflows(f, tags) && toDouble(f.value).Some? then [Varint(f.tag, 0), Fixed64(tags[f.tag], toDouble(f.value).value)]
    else [f]
  }

  function Rewrite(fields: seq<Field>, tags: Tags, toDouble: ToDouble): seq<Field> {
    if fields == [] then [] else RewriteField(fields[0], tags, toDouble) + Rewrite(fields[1..], tags, toDouble)
  }

  /** What the scan notes about the fields it passes. */
  datatype Notes = Notes(repaired: bool, hasExtension: bool, duplicateWork: bool, seenWork: set<nat>)

  function Note(n: Notes, f: Field, tags: Tags): Notes {
    Notes(n.repaired || Overflows(f, tags),
          n.hasExtension || f.tag in tags.Values,
          n.duplicateWork || (f.tag in tags && f.tag in n.seenWork),
          if f.tag in tags then n.seenWork + {f.tag} else n.seenWork)
  }

  function NoteAll(n: Notes, fields: seq<Field>, tags: Tags): Notes
    decreases |fields|
  {
    if fields == [] then n else NoteAll(Note(n, fields[0], tags), fields[1..], tags)
  }

  const START: Notes := Notes(false, false, false, {})

  predicate Convertible(fields: seq<Field>, tags: Tags, toDouble: ToDouble) {
    forall i :: 0 <= i < |fields| ==> Overflows(fields[i], tags) ==> toDouble(fields[i].value).Some?
  }

  predicate Repairable(fields: seq<Field>, tags: Tags, toDouble: ToDouble) {
    var n := NoteAll(START, fields, tags);
    Convertible(fields, tags, toDouble) && n.repaired && !n.hasExtension && !n.duplicateWork
  }

  /** What the repair returns: the printing of the rewritten fields, or nothing. */
  function Repaired(s: seq<byte>, tags: Tags, toDouble: ToDouble): Option<seq<byte>> {
    var fields := Parse(s, tags);
    if fields.Some? && Repairable(fields.value, tags, toDouble)
    then Some(EncodeAll(Rewrite(fields.value, tags, toDouble)))
    else None
  }

  /** The notes in terms of the fields: an overflow and an extension field. */
  lemma {:induction false} NotesMean(n: Notes, fields: seq<Field>, tags: Tags)
    ensures var r := NoteAll(n, fields, tags);
            && (r.repaired <==> n.repaired || exists i :: 0 <= i < |fields| && Overflows(fields[i], tags))
            && (r.hasExtension <==> n.hasExtension || exists i :: 0 <= i < |fields| && fields[i].tag in tags.Values)
    decreases |fields|
  {
    hide Overflows;
    if fields != [] {
      NotesMean(Note(n, fields[0], tags), fields[1..], tags);
      assert forall i :: 0 < i < |fields| ==> fields[i] == fields[1..][i - 1];
    }
  }

  predicate HasTag(fields: seq<Field>, tag: nat) {
    exists i :: 0 <= i < |fields| && fields[i].tag == tag
  }

  /** Two positions with the same work tag. */
  predicate Repeats(fields: seq<Field>, tags: Tags) {
    exists i, j :: 0 <= i < j < |fields| && fields[i].tag in tags && fields[i].tag == fields[j].tag
  }

  lemma HasTagSnoc(fields: seq<Field>, f: Field, tag: nat)
    ensures HasTag(fields + [f], tag) <==> HasTag(fields, tag) || f.tag == tag
  {
    var more := fields + [f];
    assert more[|fields|] == f;
    assert forall i :: 0 <= i < |fields| ==> more[i] == fields[i];
  }

  lemma RepeatsSnoc(fields: seq<Field>, f: Field, tags: Tags)
    ensures Repeats(fields + [f], tags) <==> Repeats(fields, tags) || (f.tag in tags && HasTag(fields, f.tag))
  {
    var more := fields + [f];
    assert more[|fields|] == f;
    assert forall i :: 0 <= i < |fields| ==> more[i] == fields[i];
  }

  /** A message is left alone for duplicate work exactly when two of its fields carry the same work tag. */
  lemma {:induction false} DuplicatesMean(fields: seq<Field>, tags: Tags)
    ensures NoteAll(START, fields, tags).duplicateWork <==> Repeats(fields, tags)
    ensures forall tag :: tag in NoteAll(START, fields, tags).seenWork <==> tag in tags && HasTag(fields, tag)
  {
    hide Overflows, HasTag, Repeats, NoteAll;
    if fields == [] {
      NothingNoted(tags);
    } else {
      var rest, f := fields[..|fields| - 1], fields[|fields| - 1];
      assert fields == rest + [f];
      DuplicatesMean(rest, tags);
      NoteSnoc(START, rest, f, tags);
      RepeatsSnoc(rest, f, tags);
      forall tag
        ensures HasTag(fields, tag) <==> HasTag(rest, tag) || f.tag == tag
      {
        HasTagSnoc(rest, f, tag);
      }
    }
  }

  lemma NothingNoted(tags: Tags)
    ensures NoteAll(START, [], tags) == START && !Repeats([], tags) && forall tag :: !HasTag([], tag)
  {
  }

  // ------------------------------------------------------------------
  // The repair is exact and final
  // ------------------------------------------------------------------

  lemma RewrittenAcceptable(f: Field, tags: Tags, toDouble: ToDouble)
    requires ValidTags(tags) && Acceptable(f, tags)
    ensures AllAcceptable(RewriteField(f, tags, toDouble), tags)
  {
    SmallVarintLengths(0);
  }

  lemma {:induction false} RewriteAcceptable(fields: seq<Field>, tags: Tags, toDouble: ToDouble)
    requires ValidTags(tags) && AllAcceptable(fields, tags)
    ensures AllAcceptable(Rewrite(fields, tags, toDouble), tags)
  {
    hide Acceptable, RewriteField;
    if fields != [] {
      RewrittenAcceptable(fields[0], tags, toDouble);
      RewriteAcceptable(fields[1..], tags, toDouble);
    }
  }

  lemma {:induction false} RewriteNeverOverflows(fields: seq<Field>, tags: Tags, toDouble: ToDouble)
    requires ValidTags(tags) && Convertible(fields, tags, toDouble)
    ensures forall i :: 0 <= i < |Rewrite(fields, tags, toDouble)| ==> !Overflows(Rewrite(fields, tags, toDouble)[i], tags)
  {
    if fields != [] {
      assert Convertible(fields[1..], tags, toDouble) by {
        assert forall i :: 0 <= i < |fields[1..]| ==> fields[1..][i] == fields[i + 1];
      }
      RewriteNeverOverflows(fields[1..], tags, toDouble);
    }
  }

  /**
   Whenever the repair returns a buffer, that buffer parses to the fields of the input with each overflowing
   work field replaced by its sentinel and extension, and repairing it again returns nothing.
   */
  lemma {:induction false} RepairIsExactAndFinal(s: seq<byte>, tags: Tags, toDouble: ToDouble)
    requires ValidTags(tags) && Repaired(s, tags, toDouble).Some?
    ensures Parse(s, tags).Some?
    ensures Parse(Repaired(s, tags, toDouble).value, tags) == Some(Rewrite(Parse(s, tags).value, tags, toDouble))
    ensures Repaired(Repaired(s, tags, toDouble).value, tags, toDouble).None?
  {
    hide Parse, EncodeAll, Rewrite, NoteAll, ValidTags, Overflows;
    var fields := Parse(s, tags).value;
    EncodeOfParse(s, tags);
    RewriteAcceptable(fields, tags, toDouble);
    var rewritten := Rewrite(fields, tags, toDouble);
    ParseOfEncode(rewritten, tags);
    RewriteNeverOverflows(fields, tags, toDouble);
    NotesMean(START, rewritten, tags);
  }

  /** Every field that does not overflow is printed byte for byte as it was. */
  lemma {:induction false} UntouchedFieldsKeepTheirBytes(fields: seq<Field>, tags: Tags, toDouble: ToDouble, i: nat)
    requires i < |fields|
    ensures EncodeAll(Rewrite(fields, tags, toDouble))
         == EncodeAll(Rewrite(fields[..i], tags, toDouble))
            + EncodeAll(RewriteField(fields[i], tags, toDouble))
            + EncodeAll(Rewrite(fields[i + 1..], tags, toDouble))
    ensures !Overflows(fields[i], tags) ==> EncodeAll(RewriteField(fields[i], tags, toDouble)) == EncodeField(fields[i])
  {
    hide EncodeField, Overflows, EncodeAll, Rewrite, RewriteField;
    var a, b := Rewrite(fields[..i], tags, toDouble), Rewrite(fields[i..], tags, toDouble);
    RewriteConcat(fields[..i], fields[i..], tags, toDouble);
    assert fields[..i] + fields[i..] == fields;
    EncodeConcat(a, b);
    RewriteFront(fields, tags, toDouble, i);
    EncodeConcat(RewriteField(fields[i], tags, toDouble), Rewrite(fields[i + 1..], tags, toDouble));
    UntouchedField(fields[i], tags, toDouble);
  }

  lemma RewriteFront(fields: seq<Field>, tags: Tags, toDouble: ToDouble, i: nat)
    requires i < |fields|
    ensures Rewrite(fields[i..], tags, toDouble) == RewriteField(fields[i], tags, toDouble) + Rewrite(fields[i + 1..], tags, toDouble)
  {
    hide RewriteField;
    assert fields[i..][1..] == fields[i + 1..];
  }

  lemma UntouchedField(f: Field, tags: Tags, toDouble: ToDouble)
    ensures !Overflows(f, tags) ==> EncodeAll(RewriteField(f, tags, toDouble)) == EncodeField(f)
  {
    hide EncodeField, Overflows;
    assert EncodeAll([f]) == EncodeField(f) + EncodeAll([]);
  }

  lemma {:induction false} RewriteConcat(a: seq<Field>, b: seq<Field>, tags: Tags, toDouble: ToDouble)
    ensures Rewrite(a + b, tags, toDouble) == Rewrite(a, tags, toDouble) + Rewrite(b, tags, toDouble)
  {
    hide RewriteField;
    if a == [] {
      assert a + b == b;
    } else {
      assert (a + b)[1..] == a[1..] + b;
      RewriteConcat(a[1..], b, tags, toDouble);
    }
  }

  lemma {:induction false} EncodeConcat(a: seq<Field>, b: seq<Field>)
    ensures EncodeAll(a + b) == EncodeAll(a) + EncodeAll(b)
  {
    hide EncodeField;
    if a == [] {
      assert a + b == b;
    } else {
      assert (a + b)[1..] == a[1..] + b;
      EncodeConcat(a[1..], b);
    }
  }

  // ------------------------------------------------------------------
  // The scan
  // ------------------------------------------------------------------

  /** Seven bits at a time from `position`, least significant first. */
  method ReadVarintAt(source: seq<byte>, start: nat, limit: nat, maxBytes: nat) returns (value: Option<nat>, position: nat)
    requires start <= limit <= |source|
    ensures var r := ReadVarint(source[start..limit], maxBytes, true);
            if r.Bad? then value.None? else value == Some(r.value) && position == start + r.length
  {
    position := start;
    var total: nat, shift: nat, count: nat := 0, 1, 0;
    ghost var whole := ReadVarint(source[start..limit], maxBytes, true);
    while count < maxBytes && position < limit
      invariant count <= maxBytes && position == start + count <= limit
      invariant var rest := ReadVarint(source[position..limit], maxBytes - count, count == 0);
                if rest.Bad? then whole.Bad? else whole == Read(total + shift * rest.value, count + rest.length)
    {
      var next := source[position];
      assert source[position..limit][1..] == source[position + 1..limit] && source[position..limit][0] == next;
      ghost var rest := ReadVarint(source[position + 1..limit], maxBytes - count - 1, false);
      ShiftIn(total, shift, next, if rest.Bad? then 0 else rest.value);
      position := position + 1;
      total := total + shift * (next % 128);
      if next < 128 {
        if count > 0 && next == 0 { return None, position; }
        return Some(total), position;
      }
      shift := shift * 128;
      count := count + 1;
    }
    return None, position;
  }

  lemma ShiftIn(total: nat, shift: nat, next: byte, rest: nat)
    ensures next < 128 ==> next % 128 == next
    ensures next >= 128 ==> next % 128 == next - 128
    ensures next >= 128 ==> total + shift * (next - 128 + 128 * rest) == total + shift * (next % 128) + shift * 128 * rest
  {
    if next >= 128 {
      assert shift * (next - 128 + 128 * rest) == shift * (next - 128) + shift * (128 * rest);
      assert shift * (128 * rest) == shift * 128 * rest;
    }
  }

  /** A prefix below 2^14 prints in one or two bytes. */
  method TwoBytePrefix(prefix: nat) returns (r: seq<byte>)
    requires prefix < 16384
    ensures r == EncodeVarint(prefix)
  {
    r := if prefix < 128 then [prefix] else [prefix % 128 + 128, prefix / 128];
  }

  /** The sentinel and the extension that stand for an overflowing work field. */
  method Replacement(tag: nat, extensionTag: nat, number: DoubleBytes) returns (r: seq<byte>)
    requires 0 < tag < 2048 && 0 < extensionTag < 2048
    ensures r == EncodeAll([Varint(tag, 0), Fixed64(extensionTag, number)])
  {
    hide EncodeVarint;
    var sentinel := TwoBytePrefix(tag * 8);
    var extension := TwoBytePrefix(extensionTag * 8 + 1);
    r := sentinel + [0] + (extension + number);
    ZeroVarint();
    ReplacementBytes(tag, extensionTag, number);
  }

  lemma ZeroVarint()
    ensures EncodeVarint(0) == [0]
  {
  }

  lemma ReplacementBytes(tag: nat, extensionTag: nat, number: DoubleBytes)
    ensures EncodeAll([Varint(tag, 0), Fixed64(extensionTag, number)])
         == EncodeVarint(tag * 8) + EncodeVarint(0) + (EncodeVarint(extensionTag * 8 + 1) + number)
  {
    hide EncodeVarint;
    var a, b := Varint(tag, 0), Fixed64(extensionTag, number);
    assert [a, b][1..] == [b];
    assert [b][1..] == [];
    assert EncodeAll([]) == [];
    assert EncodeAll([b]) == EncodeField(b) + [];
  }

  lemma SliceOfSlice(s: seq<byte>, from: nat, limit: nat, a: nat, b: nat)
    requires from <= limit <= |s| && a <= b <= limit - from
    ensures s[from..limit][a..b] == s[from + a..from + b]
  {
    var middle := s[from..limit];
    var x, y := middle[a..b], s[from + a..from + b];
    assert |x| == |y|;
    assert forall k :: 0 <= k < |x| ==> x[k] == middle[a + k] == s[from + a + k] == y[k];
  }

  /** Reads what the wire type of a field calls for. */
  method ScanPayload(source: seq<byte>, from: nat, limit: nat, tag: nat, wireType: nat, tags: Tags)
    returns (field: Option<Field>, position: nat)
    requires from <= limit <= |source|
    ensures var r := ReadPayload(source[from..limit], tag, wireType, tags);
            if r.Bad? then field.None? else field == Some(r.value) && position == from + r.length <= limit
  {
    hide ReadVarint;
    position := from;
    if tag in tags && wireType != 0 { return None, position; }
    if wireType == 0 {
      var value;
      value, position := ReadVarintAt(source, from, limit, if tag in tags then WORK_VARINT_BYTES else VARINT_BYTES);
      if value.None? || (value.value > U64_MAX && tag !in tags) { return None, position; }
      return Some(Varint(tag, value.value)), position;
    } else if wireType == 1 {
      position := from + 8;
      if position > limit { return None, position; }
      SliceOfSlice(source, from, limit, 0, 8);
      return Some(Fixed64(tag, source[from..position])), position;
    } else if wireType == 2 {
      var length;
      length, position := ReadVarintAt(source, from, limit, PREFIX_BYTES);
      if length.None? || length.value > limit - position { return None, position; }
      var data := source[position..position + length.value];
      SliceOfSlice(source, from, limit, position - from, position - from + length.value);
      return Some(Bytes(tag, data)), position + length.value;
    } else if wireType == 5 {
      position := from + 4;
      if position > limit { return None, position; }
      SliceOfSlice(source, from, limit, 0, 4);
      return Some(Fixed32(tag, source[from..position])), position;
    }
    return None, position;
  }

  /** Reads one field from `start`: its prefix, then its payload. */
  method ScanField(source: seq<byte>, start: nat, limit: nat, tags: Tags) returns (field: Option<Field>, position: nat)
    requires start < limit <= |source|
    ensures var r := ReadField(source[start..limit], tags);
            if r.Bad? then field.None? else field == Some(r.value) && position == start + r.length <= limit
  {
    hide ReadVarint, ReadPayload;
    position := start;
    var prefix;
    prefix, position := ReadVarintAt(source, start, limit, PREFIX_BYTES);
    if prefix.None? || prefix.value > U32_MAX { return None, position; }
    var tag, wireType := prefix.value / 8, prefix.value % 8;
    if tag == 0 { return None, position; }
    assert source[start..limit][position - start..] == source[position..limit];
    field, position := ScanPayload(source, position, limit, tag, wireType, tags);
  }

  lemma {:induction false} NoteSnoc(n: Notes, fields: seq<Field>, f: Field, tags: Tags)
    ensures NoteAll(n, fields + [f], tags) == Note(NoteAll(n, fields, tags), f, tags)
    decreases |fields|
  {
    hide Note;
    if fields == [] {
      assert [f][1..] == [];
    } else {
      assert (fields + [f])[1..] == fields[1..] + [f];
      NoteSnoc(Note(n, fields[0], tags), fields[1..], f, tags);
    }
  }

  lemma {:induction false} RewriteSnoc(fields: seq<Field>, f: Field, tags: Tags, toDouble: ToDouble)
    ensures EncodeAll(Rewrite(fields + [f], tags, toDouble))
         == EncodeAll(Rewrite(fields, tags, toDouble)) + EncodeAll(RewriteField(f, tags, toDouble))
  {
    hide EncodeAll, RewriteField;
    RewriteConcat(fields, [f], tags, toDouble);
    EncodeConcat(Rewrite(fields, tags, toDouble), RewriteField(f, tags, toDouble));
    assert [f][1..] == [];
    assert Rewrite([f], tags, toDouble) == RewriteField(f, tags, toDouble);
  }

  /** The scan so far: fields found, what was noted about them, and the bytes that stand for them. */
  ghost predicate Scanned(source: seq<byte>, start: nat, position: nat, limit: nat, tags: Tags, toDouble: ToDouble,
                          found: seq<Field>, notes: Notes, parts: seq<byte>) {
    && start <= position <= limit <= |source|
    && notes == NoteAll(START, found, tags)
    && Convertible(found, tags, toDouble)
    && parts == EncodeAll(Rewrite(found, tags, toDouble))
    && var whole, rest := Parse(source[start..limit], tags), Parse(source[position..limit], tags);
       if rest.None? then whole.None? else whole == Some(found + rest.value)
  }

  lemma ScanStep(source: seq<byte>, start: nat, position: nat, limit: nat, tags: Tags, toDouble: ToDouble,
                 found: seq<Field>, notes: Notes, parts: seq<byte>, next: nat, more: seq<byte>)
    requires Scanned(source, start, position, limit, tags, toDouble, found, notes, parts) && position < limit
    requires var r := ReadField(source[position..limit], tags);
             && r.Read? && next == position + r.length
             && (Overflows(r.value, tags) ==> toDouble(r.value.value).Some?)
             && more == EncodeAll(RewriteField(r.value, tags, toDouble))
    ensures var f := ReadField(source[position..limit], tags).value;
            Scanned(source, start, next, limit, tags, toDouble, found + [f], Note(notes, f, tags), parts + more)
  {
    hide ReadField, Rewrite, EncodeAll, NoteAll, Note, RewriteField, Overflows;
    var f := ReadField(source[position..limit], tags).value;
    NoteSnoc(START, found, f, tags);
    RewriteSnoc(found, f, tags, toDouble);
    assert source[position..limit][next - position..] == source[next..limit];
    var rest := Parse(source[next..limit], tags);
    if rest.Some? {
      assert found + ([f] + rest.value) == found + [f] + rest.value;
    }
  }

  lemma ScanFails(source: seq<byte>, start: nat, position: nat, limit: nat, tags: Tags, toDouble: ToDouble,
                  found: seq<Field>, notes: Notes, parts: seq<byte>)
    requires Scanned(source, start, position, limit, tags, toDouble, found, notes, parts) && position < limit
    requires var r := ReadField(source[position..limit], tags);
             r.Bad? || (Overflows(r.value, tags) && toDouble(r.value.value).None?)
    ensures Repaired(source[start..limit], tags, toDouble).None?
  {
    hide ReadField, Rewrite, EncodeAll, NoteAll, Overflows;
    var r := ReadField(source[position..limit], tags);
    var rest := Parse(source[position..limit], tags);
    if rest.Some? {
      var fields := found + rest.value;
      assert fields[|found|] == r.value;
    }
  }

  lemma ScanEnds(source: seq<byte>, start: nat, limit: nat, tags: Tags, toDouble: ToDouble,
                 found: seq<Field>, notes: Notes, parts: seq<byte>)
    requires Scanned(source, start, limit, limit, tags, toDouble, found, notes, parts)
    ensures Repaired(source[start..limit], tags, toDouble)
         == if notes.repaired && !notes.hasExtension && !notes.duplicateWork then Some(parts) else None
  {
    hide ReadField, Rewrite, EncodeAll, NoteAll, Overflows;
    assert source[limit..limit] == [];
    assert found + [] == found;
  }

  /** Rewrites a message whose work fields overflow; null for anything else, and it ends on every byte string. */
  method RepairLegacyOverflow(buffer: Option<seq<byte>>, offset: Option<int>, end: Option<int>, tags: Tags, toDouble: ToDouble)
    returns (result: Option<seq<byte>>)
    requires ValidTags(tags)
    ensures buffer.None? ==> result.None?
    // without bounds the whole buffer is scanned
    ensures buffer.Some? && offset.None? && end.None? ==> result == Repaired(buffer.value, tags, toDouble)
    // with bounds the part between them
    ensures buffer.Some? && offset.Some? && end.Some? && end.value != 0 && 0 <= offset.value <= end.value <= |buffer.value| ==>
      result == Repaired(buffer.value[offset.value..end.value], tags, toDouble)
    ensures buffer.Some? && offset.None? && end.Some? && 0 < end.value <= |buffer.value| ==>
      result == Repaired(buffer.value[..end.value], tags, toDouble)
    // a missing end, or one of zero, is the end of the buffer
    ensures buffer.Some? && offset.Some? && (end.None? || end == Some(0)) && 0 <= offset.value <= |buffer.value| ==>
      result == Repaired(buffer.value[offset.value..], tags, toDouble)
    ensures buffer.Some? && offset.None? && end == Some(0) ==> result == Repaired(buffer.value, tags, toDouble)
    // bounds outside the buffer or out of order give nothing
    ensures buffer.Some? && offset.Some? && (offset.value < 0 || offset.value > |buffer.value|) ==> result.None?
    ensures buffer.Some? && end.Some? && (end.value < 0 || end.value > |buffer.value|) ==> result.None?
    ensures buffer.Some? && offset.Some? && end.Some? && end.value != 0 && offset.value > end.value ==> result.None?
  {
    hide ReadField, Rewrite, EncodeAll, EncodeField, NoteAll, Parse, Repaired, Convertible;
    if buffer.None? { return None; }
    var source := buffer.value;
    var start := if offset.Some? then offset.value else 0;
    var limit := if end.Some? && end.value != 0 then end.value else |source|;
    if start < 0 || limit > |source| || start > limit { return None; }
    assert source[0..|source|] == source && source[start..|source|] == source[start..] && source[0..limit] == source[..limit];
    result := RepairSlice(source, start, limit, tags, toDouble);
  }

  /** The scan itself, between two positions of the buffer. */
  method RepairSlice(source: seq<byte>, start: nat, limit: nat, tags: Tags, toDouble: ToDouble) returns (result: Option<seq<byte>>)
    requires ValidTags(tags) && start <= limit <= |source|
    ensures result == Repaired(source[start..limit], tags, toDouble)
  {
    hide ReadField, Rewrite, EncodeAll, EncodeField, NoteAll, Parse, Repaired, Convertible;
    var position: nat := start;
    var repaired, hasExtension, duplicateWork := false, false, false;
    var seenWork: set<nat> := {};
    var parts: seq<byte> := [];
    ghost var found: seq<Field> := [];
    ScanStarts(source, start, limit, tags, toDouble);
    while position < limit
      invariant Scanned(source, start, position, limit, tags, toDouble, found,
                        Notes(repaired, hasExtension, duplicateWork, seenWork), parts)
      decreases limit - position
    {
      ghost var notes := Notes(repaired, hasExtension, duplicateWork, seenWork);
      var field, next := ScanField(source, position, limit, tags);
      if field.None? {
        ScanFails(source, start, position, limit, tags, toDouble, found, notes, parts);
        return None;
      }
      var f := field.value;
      if f.tag in tags.Values { hasExtension := true; }
      if f.tag in tags {
        if f.tag in seenWork { duplicateWork := true; }
        seenWork := seenWork + {f.tag};
      }
      var more: seq<byte>;
      if f.Varint? && f.value > U64_MAX && f.tag in tags {
        var number := toDouble(f.value);
        if number.None? {
          ScanFails(source, start, position, limit, tags, toDouble, found, notes, parts);
          return None;
        }
        more := Replacement(f.tag, tags[f.tag], number.value);
        repaired := true;
      } else {
        more := source[position..next];
        KeptBytes(source, position, next, limit, tags, toDouble);
      }
      ScanStep(source, start, position, limit, tags, toDouble, found, notes, parts, next, more);
      found := found + [f];
      parts := parts + more;
      position := next;
    }
    ScanEnds(source, start, limit, tags, toDouble, found, Notes(repaired, hasExtension, duplicateWork, seenWork), parts);
    result := if repaired && !hasExtension && !duplicateWork then Some(parts) else None;
  }

  lemma ScanStarts(source: seq<byte>, start: nat, limit: nat, tags: Tags, toDouble: ToDouble)
    requires start <= limit <= |source|
    ensures Scanned(source, start, start, limit, tags, toDouble, [], START, [])
  {
    var rest := Parse(source[start..limit], tags);
    if rest.Some? {
      assert [] + rest.value == rest.value;
    }
  }

  /** A field that is kept is kept as the bytes it was read from. */
  lemma KeptBytes(source: seq<byte>, position: nat, next: nat, limit: nat, tags: Tags, toDouble: ToDouble)
    requires position < limit <= |source|
    requires var r := ReadField(source[position..limit], tags);
             r.Read? && next == position + r.length && !Overflows(r.value, tags)
    ensures next <= limit
    ensures source[position..next] == EncodeAll(RewriteField(ReadField(source[position..limit], tags).value, tags, toDouble))
  {
    hide ReadField, EncodeField;
    var r := ReadField(source[position..limit], tags);
    FieldIsCanonical(source[position..limit], tags);
    assert source[position..limit][..r.length] == source[position..next];
    assert [r.value][1..] == [];
    assert EncodeAll([r.value]) == EncodeField(r.value) + [];
  }
}
