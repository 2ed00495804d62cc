/**
 The part of the Protocol Buffers encoding ("Base 128 Varints" and "Message
 Structure" in the Encoding guide) that the work codec reads and writes, as
 a printer and a parser that are proved to undo each other.

 A byte's low seven bits and its continuation bit are written as remainder
 and comparison with 128.
 */
module WireFormat {
  import opened Wrappers

  type byte = x: int | 0 <= x < 256

  const U32_MAX: nat := 0xFFFF_FFFF
  const U64_MAX: nat := 0xFFFF_FFFF_FFFF_FFFF

  /** Work fields may be this long on the wire; other varints keep to 64 bits. */
  const WORK_VARINT_BYTES: nat := 147
  const VARINT_BYTES: nat := 10
  const PREFIX_BYTES: nat := 5

  datatype Field =
    | Varint(tag: nat, value: nat)
    | Fixed64(tag: nat, data: seq<byte>)
    | Bytes(tag: nat, data: seq<byte>)
    | Fixed32(tag: nat, data: seq<byte>)
  {
    function WireType(): nat {
      match this
      case Varint(_, _) => 0
      case Fixed64(_, _) => 1
      case Bytes(_, _) => 2
      case Fixed32(_, _) => 5
    }
  }

  /** Work tags and the tags of the extension fields that carry large work. */
  type Tags = map<nat, nat>

  // ------------------------------------------------------------------
  // Printing
  // ------------------------------------------------------------------

  function EncodeVarint(v: nat): (r: seq<byte>)
    ensures |r| > 0
  {
    if v < 128 then [v] else [128 + v % 128] + EncodeVarint(v / 128)
  }

  function EncodeField(f: Field): (r: seq<byte>)
    ensures |r| > 0
  {
    EncodeVarint(f.tag * 8 + f.WireType()) +
    match f
    case Varint(_, value) => EncodeVarint(value)
    case Fixed64(_, data) => data
    case Bytes(_, data) => EncodeVarint(|data|) + data
    case Fixed32(_, data) => data
  }

  function EncodeAll(fields: seq<Field>): seq<byte> {
    if fields == [] then [] else EncodeField(fields[0]) + EncodeAll(fields[1..])
  }

  /** The fields the scan accepts. */
  predicate Acceptable(f: Field, tags: Tags) {
    && f.tag > 0
    && f.tag * 8 + f.WireType() <= U32_MAX
    && match f
       case Varint(tag, value) => if tag in tags then |EncodeVarint(value)| <= WORK_VARINT_BYTES else value <= U64_MAX
       case Fixed64(tag, data) => tag !in tags && |data| == 8
       case Bytes(tag, data) => tag !in tags && |EncodeVarint(|data|)| <= PREFIX_BYTES
       case Fixed32(tag, data) => tag !in tags && |data| == 4
  }

  predicate AllAcceptable(fields: seq<Field>, tags: Tags) {
    forall i :: 0 <= i < |fields| ==> Acceptable(fields[i], tags)
  }

  // ------------------------------------------------------------------
  // Parsing
  // ------------------------------------------------------------------

  /** A value read and the number of bytes it took. */
  datatype Read<T> = Bad | Read(value: T, length: nat)

  /** Reads a varint of at most `maxBytes`; a last byte of zero is refused unless it is the only one. */
  function ReadVarint(s: seq<byte>, maxBytes: nat, first: bool): (r: Read<nat>)
    ensures r.Read? ==> 0 < r.length <= |s|
    decreases maxBytes
  {
    if maxBytes == 0 || s == [] then Bad
    else if s[0] < 128 then
      if !first && s[0] == 0 then Bad else Read(s[0], 1)
    else
      var rest := ReadVarint(s[1..], maxBytes - 1, false);
      if rest.Bad? then Bad else Read(s[0] - 128 + 128 * rest.value, rest.length + 1)
  }

  function ReadPayload(s: seq<byte>, tag: nat, wireType: nat, tags: Tags): (r: Read<Field>)
    ensures r.Read? ==> r.length <= |s|
  {
    if tag in tags && wireType != 0 then Bad
    else if wireType == 0 then
      var v := ReadVarint(s, if tag in tags then WORK_VARINT_BYTES else VARINT_BYTES, true);
      if v.Bad? || (v.value > U64_MAX && tag !in tags) then Bad else Read(Varint(tag, v.value), v.length)
    else if wireType == 1 then
      if |s| < 8 then Bad else Read(Fixed64(tag, s[..8]), 8)
    else if wireType == 2 then
      var n := ReadVarint(s, PREFIX_BYTES, true);
      if n.Bad? || n.value > |s| - n.length then Bad
      else Read(Bytes(tag, s[n.length..n.length + n.value]), n.length + n.value)
    else if wireType == 5 then
      if |s| < 4 then Bad else Read(Fixed32(tag, s[..4]), 4)
    else Bad
  }

  function ReadField(s: seq<byte>, tags: Tags): (r: Read<Field>)
    ensures r.Read? ==> 0 < r.length <= |s|
  {
    var prefix := ReadVarint(s, PREFIX_BYTES, true);
    if prefix.Bad? || prefix.value > U32_MAX || prefix.value / 8 == 0 then Bad
    else
      var payload := ReadPayload(s[prefix.length..], prefix.value / 8, prefix.value % 8, tags);
      if payload.Bad? then Bad else Read(payload.value, prefix.length + payload.length)
  }

  function Parse(s: seq<byte>, tags: Tags): Option<seq<Field>>
    decreases |s|
  {
    if s == [] then Some([])
    else
      var field := ReadField(s, tags);
      if field.Bad? then None
      else
        var rest := Parse(s[field.length..], tags);
        if rest.None? then None else Some([field.value] + rest.value)
  }

  // ------------------------------------------------------------------
  // Varints
  // ------------------------------------------------------------------

  lemma {:induction false} VarintRoundTrip(v: nat, rest: seq<byte>, maxBytes: nat, first: bool)
    requires |EncodeVarint(v)| <= maxBytes && (first || v > 0)
    ensures ReadVarint(EncodeVarint(v) + rest, maxBytes, first) == Read(v, |EncodeVarint(v)|)
  {
    var s := EncodeVarint(v) + rest;
    if v >= 128 {
      VarintRoundTrip(v / 128, rest, maxBytes - 1, false);
      assert s[1..] == EncodeVarint(v / 128) + rest;
      assert v == v % 128 + 128 * (v / 128);
    }
  }

  lemma Digits(low: nat, high: nat)
    requires low < 128
    ensures (low + 128 * high) % 128 == low && (low + 128 * high) / 128 == high
  {
  }

  lemma {:induction false} VarintIsCanonical(s: seq<byte>, maxBytes: nat, first: bool)
    requires ReadVarint(s, maxBytes, first).Read?
    ensures var r := ReadVarint(s, maxBytes, first);
            s[..r.length] == EncodeVarint(r.value) && r.length <= maxBytes && (first || r.value > 0)
    decreases maxBytes
  {
    var r := ReadVarint(s, maxBytes, first);
    if s[0] >= 128 {
      VarintIsCanonical(s[1..], maxBytes - 1, false);
      var rest := ReadVarint(s[1..], maxBytes - 1, false);
      Digits(s[0] - 128, rest.value);
      assert s[..r.length] == [s[0]] + s[1..][..rest.length];
    }
  }

  function Power128(k: nat): nat {
    if k == 0 then 1 else 128 * Power128(k - 1)
  }

  lemma {:induction false} VarintLength(v: nat, k: nat)
    requires 0 < k && v < Power128(k)
    ensures |EncodeVarint(v)| <= k
  {
    if k == 1 {
      assert Power128(0) == 1;
    } else if v >= 128 {
      VarintLength(v / 128, k - 1);
    }
  }

  lemma SmallVarintLengths(v: nat)
    ensures v <= U32_MAX ==> |EncodeVarint(v)| <= PREFIX_BYTES
    ensures v <= U64_MAX ==> |EncodeVarint(v)| <= VARINT_BYTES
  {
    hide EncodeVarint;
    assert Power128(2) == 128 * 128 by { assert Power128(1) == 128; }
    assert Power128(5) == 34359738368 by { assert Power128(3) == 2097152; assert Power128(4) == 268435456; }
    assert Power128(10) == 34359738368 * 34359738368 by {
      assert Power128(6) == 4398046511104;
      assert Power128(7) == 562949953421312;
      assert Power128(8) == 72057594037927936;
      assert Power128(9) == 9223372036854775808;
    }
    if v <= U32_MAX { VarintLength(v, 5); }
    if v <= U64_MAX { VarintLength(v, 10); }
  }

  // ------------------------------------------------------------------
  // Fields and messages
  // ------------------------------------------------------------------

  lemma PrefixParts(tag: nat, wireType: nat)
    requires wireType < 8
    ensures (tag * 8 + wireType) / 8 == tag && (tag * 8 + wireType) % 8 == wireType
  {
  }

  lemma {:induction false} PayloadRoundTrip(f: Field, rest: seq<byte>, tags: Tags)
    requires Acceptable(f, tags)
    ensures var payload := EncodeField(f)[|EncodeVarint(f.tag * 8 + f.WireType())|..];
            ReadPayload(payload + rest, f.tag, f.WireType(), tags) == Read(f, |payload|)
  {
    hide EncodeVarint, ReadVarint;
    var prefix := EncodeVarint(f.tag * 8 + f.WireType());
    var payload := EncodeField(f)[|prefix|..];
    match f {
      case Varint(tag, value) =>
        SmallVarintLengths(value);
        assert payload == EncodeVarint(value);
        VarintRoundTrip(value, rest, if tag in tags then WORK_VARINT_BYTES else VARINT_BYTES, true);
      case Fixed64(tag, data) =>
        assert payload == data && (data + rest)[..8] == data;
      case Bytes(tag, data) =>
        var n := EncodeVarint(|data|);
        assert payload == n + data;
        assert payload + rest == n + (data + rest);
        VarintRoundTrip(|data|, data + rest, PREFIX_BYTES, true);
        assert (payload + rest)[|n|..|n| + |data|] == data;
      case Fixed32(tag, data) =>
        assert payload == data && (data + rest)[..4] == data;
    }
  }

  lemma {:induction false} FieldRoundTrip(f: Field, rest: seq<byte>, tags: Tags)
    requires Acceptable(f, tags)
    ensures ReadField(EncodeField(f) + rest, tags) == Read(f, |EncodeField(f)|)
  {
    hide EncodeVarint, ReadVarint, ReadPayload, EncodeField;
    var p := f.tag * 8 + f.WireType();
    var prefix := EncodeVarint(p);
    PrefixOf(f);
    var payload := EncodeField(f)[|prefix|..];
    var s := EncodeField(f) + rest;
    assert s == prefix + (payload + rest);
    SmallVarintLengths(p);
    VarintRoundTrip(p, payload + rest, PREFIX_BYTES, true);
    PrefixParts(f.tag, f.WireType());
    PayloadRoundTrip(f, rest, tags);
    assert s[|prefix|..] == payload + rest;
  }

  lemma PrefixOf(f: Field)
    ensures EncodeVarint(f.tag * 8 + f.WireType()) <= EncodeField(f)
  {
  }

  lemma {:induction false} PayloadIsCanonical(s: seq<byte>, tag: nat, wireType: nat, tags: Tags)
    requires tag > 0 && tag * 8 + wireType <= U32_MAX && wireType < 8
    requires ReadPayload(s, tag, wireType, tags).Read?
    ensures var r := ReadPayload(s, tag, wireType, tags);
            && r.value.tag == tag && r.value.WireType() == wireType
            && Acceptable(r.value, tags)
            && EncodeField(r.value) == EncodeVarint(tag * 8 + wireType) + s[..r.length]
  {
    hide EncodeVarint, ReadVarint;
    var r := ReadPayload(s, tag, wireType, tags);
    if wireType == 0 {
      VarintIsCanonical(s, if tag in tags then WORK_VARINT_BYTES else VARINT_BYTES, true);
    } else if wireType == 2 {
      VarintIsCanonical(s, PREFIX_BYTES, true);
      var n := ReadVarint(s, PREFIX_BYTES, true);
      assert s[..r.length] == s[..n.length] + s[n.length..n.length + n.value];
      assert |r.value.data| == n.value;
    }
  }

  lemma {:induction false} FieldIsCanonical(s: seq<byte>, tags: Tags)
    requires ReadField(s, tags).Read?
    ensures var r := ReadField(s, tags);
            Acceptable(r.value, tags) && s[..r.length] == EncodeField(r.value)
  {
    hide EncodeVarint, ReadVarint, ReadPayload, EncodeField, Acceptable;
    var prefix := ReadVarint(s, PREFIX_BYTES, true);
    VarintIsCanonical(s, PREFIX_BYTES, true);
    var tag, wireType := prefix.value / 8, prefix.value % 8;
    assert tag * 8 + wireType == prefix.value;
    PayloadIsCanonical(s[prefix.length..], tag, wireType, tags);
    var r := ReadField(s, tags);
    assert s[..r.length] == s[..prefix.length] + s[prefix.length..][..r.length - prefix.length];
  }

  /** What is printed parses back to the same fields. */
  lemma {:induction false} ParseOfEncode(fields: seq<Field>, tags: Tags)
    requires AllAcceptable(fields, tags)
    ensures Parse(EncodeAll(fields), tags) == Some(fields)
  {
    hide EncodeField, ReadField, Acceptable;
    if fields != [] {
      var rest := EncodeAll(fields[1..]);
      FieldRoundTrip(fields[0], rest, tags);
      ParseOfEncode(fields[1..], tags);
      var s := EncodeField(fields[0]) + rest;
      assert s[|EncodeField(fields[0])|..] == rest;
      assert [fields[0]] + fields[1..] == fields;
    }
  }

  /** Whatever parses is, byte for byte, the printing of the fields found. */
  lemma {:induction false} EncodeOfParse(s: seq<byte>, tags: Tags)
    requires Parse(s, tags).Some?
    ensures AllAcceptable(Parse(s, tags).value, tags)
    ensures EncodeAll(Parse(s, tags).value) == s
    decreases |s|
  {
    hide EncodeField, ReadField, Acceptable;
    if s != [] {
      var field := ReadField(s, tags);
      FieldIsCanonical(s, tags);
      EncodeOfParse(s[field.length..], tags);
      assert s == s[..field.length] + s[field.length..];
    }
  }
}
