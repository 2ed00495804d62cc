/**
 Decoding a legacy message whose work overflows 64 bits: the generated
 decoder refuses it, the repair rewrites it, the generated decoder takes the
 rewritten bytes, and the adapter puts the large work in its place.

 The generated decoder is represented by what it makes of work fields and
 their extensions that occur once (`Generated`); the bytes of a double and
 its value are parameters.
 */
module WorkDecode {
  import opened Wrappers
  import W = WireFormat
  import C = WorkCodec
  import M = WorkMessage

  type Names = map<nat, string>

  const TWO63: nat := 0x8000_0000_0000_0000
  const TWO64: nat := 0x1_0000_0000_0000_0000

  /** The signed reading of a 64-bit value. */
  function Signed(v: nat): int { if v < TWO63 then v else v - TWO64 }

  /** Every work tag has a name and an extension of its own. */
  ghost predicate ValidNames(tags: W.Tags, names: Names) {
    && names.Keys == tags.Keys
    && (forall s, t :: s in tags && t in tags && s != t ==> names[s] != names[t] && tags[s] != tags[t])
  }

  lemma CodecNamesAreValid()
    ensures ValidNames(C.SHARE_TAGS, map[1 := "shares", 14 := "shares2", 8 := "blockDiff"])
    ensures ValidNames(C.BLOCK_TAGS, map[2 := "difficulty", 3 := "shares"])
    ensures ValidNames(C.ALT_BLOCK_TAGS, map[2 := "difficulty", 3 := "shares"])
  {
    assert |"shares"| == 6 && |"shares2"| == 7 && |"blockDiff"| == 9 && |"difficulty"| == 10;
    assert C.SHARE_TAGS.Keys == {1, 14, 8} && C.BLOCK_TAGS.Keys == {2, 3} == C.ALT_BLOCK_TAGS.Keys;
  }

  function TagCount(fields: seq<W.Field>, tag: nat): nat {
    if fields == [] then 0 else (if fields[0].tag == tag then 1 else 0) + TagCount(fields[1..], tag)
  }

  lemma {:induction false} TagCountConcat(a: seq<W.Field>, b: seq<W.Field>, tag: nat)
    ensures TagCount(a + b, tag) == TagCount(a, tag) + TagCount(b, tag)
  {
    if a == [] {
      assert a + b == b;
    } else {
      assert (a + b)[1..] == a[1..] + b;
      TagCountConcat(a[1..], b, tag);
    }
  }

  lemma {:induction false} CountedIsThere(fields: seq<W.Field>, tag: nat)
    ensures TagCount(fields, tag) > 0 <==> exists i :: 0 <= i < |fields| && fields[i].tag == tag
  {
    if fields != [] {
      CountedIsThere(fields[1..], tag);
      assert forall i :: 0 < i < |fields| ==> fields[i] == fields[1..][i - 1];
    }
  }

  /** A work tag that does not repeat occurs at most once. */
  lemma {:induction false} OnceUnlessRepeated(fields: seq<W.Field>, tags: W.Tags, tag: nat)
    requires tag in tags && !C.Repeats(fields, tags)
    ensures TagCount(fields, tag) <= 1
  {
    if fields != [] {
      var rest := fields[1..];
      assert forall i :: 0 <= i < |rest| ==> rest[i] == fields[i + 1];
      assert !C.Repeats(rest, tags);
      OnceUnlessRepeated(rest, tags, tag);
      CountedIsThere(rest, tag);
      if fields[0].tag == tag {
        assert forall j :: 0 < j < |fields| ==> fields[j].tag != tag;
      }
    }
  }

  /** Each overflowing field keeps its tag and gains one extension; nothing else changes how often a tag occurs. */
  lemma {:induction false} RewrittenCounts(fields: seq<W.Field>, tags: W.Tags, toDouble: C.ToDouble, names: Names, tag: nat)
    requires C.ValidTags(tags) && ValidNames(tags, names) && tag in tags
    ensures TagCount(C.Rewrite(fields, tags, toDouble), tag) == TagCount(fields, tag)
    ensures TagCount(C.Rewrite(fields, tags, toDouble), tags[tag]) <= TagCount(fields, tags[tag]) + TagCount(fields, tag)
    ensures (forall i :: 0 <= i < |fields| && fields[i].tag == tag ==> !C.Overflows(fields[i], tags)) ==>
      TagCount(C.Rewrite(fields, tags, toDouble), tags[tag]) == TagCount(fields, tags[tag])
  {
    if fields != [] {
      var first, rest := C.RewriteField(fields[0], tags, toDouble), C.Rewrite(fields[1..], tags, toDouble);
      RewrittenCounts(fields[1..], tags, toDouble, names, tag);
      assert forall i :: 0 <= i < |fields[1..]| ==> fields[1..][i] == fields[i + 1];
      FirstCounts(fields[0], tags, toDouble, names, tag);
      TagCountConcat(first, rest, tag);
      TagCountConcat(first, rest, tags[tag]);
    }
  }

  lemma FirstCounts(f: W.Field, tags: W.Tags, toDouble: C.ToDouble, names: Names, tag: nat)
    requires C.ValidTags(tags) && ValidNames(tags, names) && tag in tags
    ensures TagCount(C.RewriteField(f, tags, toDouble), tag) == if f.tag == tag then 1 else 0
    ensures TagCount(C.RewriteField(f, tags, toDouble), tags[tag]) ==
      if f.tag == tags[tag] || (f.tag == tag && C.Overflows(f, tags) && toDouble(f.value).Some?) then 1 else 0
  {
    var r := C.RewriteField(f, tags, toDouble);
    assert r[1..] == [] || r[1..] == [r[1]];
    if |r| == 2 {
      assert r[1..][1..] == [];
      assert TagCount(r[1..], tag) == if r[1].tag == tag then 1 else 0;
      assert TagCount(r[1..], tags[tag]) == if r[1].tag == tags[tag] then 1 else 0;
    }
  }

  // ------------------------------------------------------------------
  // The generated decoder
  // ------------------------------------------------------------------

  /** What the generated decoder makes of fields without overflow, as far as work and its extensions occur once. */
  ghost predicate Generated(m: M.Message, fields: seq<W.Field>, tags: W.Tags, names: Names, toReal: C.DoubleBytes -> real)
    requires names.Keys == tags.Keys
  {
    forall t :: t in tags ==>
      && (forall v: nat :: W.Varint(t, v) in fields && TagCount(fields, t) == 1 ==>
            M.Field(names[t]) in m && m[M.Field(names[t])] == M.Num(Signed(v) as real))
      && (TagCount(fields, t) == 0 ==> M.Field(names[t]) !in m)
      && (forall d: C.DoubleBytes :: W.Fixed64(tags[t], d) in fields && TagCount(fields, tags[t]) == 1 ==>
            M.Extension(names[t]) in m && m[M.Extension(names[t])] == M.Num(toReal(d)))
      && (TagCount(fields, tags[t]) == 0 ==> M.Extension(names[t]) in m && m[M.Extension(names[t])] == M.Num(0.0))
  }

  /** The double of a value beyond 64 bits is large and, like every double of that size, an integer. */
  ghost predicate Converts(toDouble: C.ToDouble, toReal: C.DoubleBytes -> real) {
    forall v: nat :: v > W.U64_MAX && toDouble(v).Some? ==>
      var x := toReal(toDouble(v).value);
      x >= M.INT64_LIMIT && x == x.Floor as real
  }

  lemma RewrittenAt(fields: seq<W.Field>, tags: W.Tags, toDouble: C.ToDouble, i: nat, g: W.Field)
    requires i < |fields| && g in C.RewriteField(fields[i], tags, toDouble)
    ensures g in C.Rewrite(fields, tags, toDouble)
  {
    C.RewriteConcat(fields[..i], fields[i..], tags, toDouble);
    assert fields[..i] + fields[i..] == fields;
    C.RewriteFront(fields, tags, toDouble, i);
  }

  /** What decoding puts in a work field. */
  ghost function WorkOf(f: W.Field, tags: W.Tags, toDouble: C.ToDouble, toReal: C.DoubleBytes -> real): real
    requires f.Varint? && (C.Overflows(f, tags) ==> toDouble(f.value).Some?)
  {
    if C.Overflows(f, tags) then toReal(toDouble(f.value).value) else f.value as real
  }

  lemma LegacyField(fields: seq<W.Field>, tags: W.Tags, names: Names, toDouble: C.ToDouble, toReal: C.DoubleBytes -> real,
                    m: M.Message, i: nat)
    requires C.ValidTags(tags) && ValidNames(tags, names) && Converts(toDouble, toReal)
    requires C.Repairable(fields, tags, toDouble) && Generated(m, C.Rewrite(fields, tags, toDouble), tags, names, toReal)
    requires i < |fields| && fields[i].Varint? && fields[i].tag in tags
    ensures var n := names[fields[i].tag];
      && M.FieldDecodable(m, n) == (C.Overflows(fields[i], tags) || fields[i].value < TWO63)
      && forall after :: M.FieldDecodable(m, n) && M.FieldRestored(after, m, n) ==>
           M.Field(n) in after && after[M.Field(n)] == M.Num(WorkOf(fields[i], tags, toDouble, toReal))
  {
    hide C.Rewrite, TagCount, C.NoteAll, C.Repeats, C.ValidTags;
    var f := fields[i];
    var t := f.tag;
    var rewritten := C.Rewrite(fields, tags, toDouble);
    OneWorkField(fields, tags, names, toDouble, i);
    if C.Overflows(f, tags) {
      var d := toDouble(f.value).value;
      RewrittenAt(fields, tags, toDouble, i, W.Varint(t, 0));
      RewrittenAt(fields, tags, toDouble, i, W.Fixed64(tags[t], d));
      assert Signed(0) == 0;
    } else {
      RewrittenAt(fields, tags, toDouble, i, f);
      assert f == W.Varint(t, f.value);
    }
  }

  /** In a repairable message a work tag occurs once after the rewriting, and its extension exactly if the work overflows. */
  lemma OneWorkField(fields: seq<W.Field>, tags: W.Tags, names: Names, toDouble: C.ToDouble, i: nat)
    requires C.ValidTags(tags) && ValidNames(tags, names) && C.Repairable(fields, tags, toDouble)
    requires i < |fields| && fields[i].Varint? && fields[i].tag in tags
    ensures var rewritten, t := C.Rewrite(fields, tags, toDouble), fields[i].tag;
      && TagCount(rewritten, t) == 1
      && TagCount(rewritten, tags[t]) == if C.Overflows(fields[i], tags) then 1 else 0
  {
    hide C.Rewrite, C.NoteAll, C.Overflows;
    var t := fields[i].tag;
    var rewritten := C.Rewrite(fields, tags, toDouble);
    C.DuplicatesMean(fields, tags);
    C.NotesMean(C.START, fields, tags);
    OnceUnlessRepeated(fields, tags, t);
    CountedIsThere(fields, t);
    CountedIsThere(fields, tags[t]);
    RewrittenCounts(fields, tags, toDouble, names, t);
    if C.Overflows(fields[i], tags) {
      ExtensionThere(fields, tags, toDouble, i);
    } else {
      assert forall j :: 0 <= j < |fields| && fields[j].tag == t ==> j == i;
    }
  }

  lemma ExtensionThere(fields: seq<W.Field>, tags: W.Tags, toDouble: C.ToDouble, i: nat)
    requires i < |fields| && C.Overflows(fields[i], tags) && toDouble(fields[i].value).Some?
    ensures TagCount(C.Rewrite(fields, tags, toDouble), tags[fields[i].tag]) > 0
  {
    hide C.Rewrite;
    var g := W.Fixed64(tags[fields[i].tag], toDouble(fields[i].value).value);
    RewrittenAt(fields, tags, toDouble, i, g);
    CountedIsThere(C.Rewrite(fields, tags, toDouble), g.tag);
  }

  /**
   A legacy message with overflowing work, after the repair: every work field decodes to its value, or to the double of
   its value where it overflows; only a value in the range of negative 64-bit integers makes decoding throw.
   */
  lemma LegacyMessageDecodes(s: seq<W.byte>, tags: W.Tags, names: Names, toDouble: C.ToDouble, toReal: C.DoubleBytes -> real, m: M.Message)
    requires C.ValidTags(tags) && ValidNames(tags, names) && Converts(toDouble, toReal)
    requires C.Repaired(s, tags, toDouble).Some?
    requires var again := W.Parse(C.Repaired(s, tags, toDouble).value, tags);
      again.Some? ==> Generated(m, again.value, tags, names, toReal)
    ensures W.Parse(s, tags).Some?
    ensures var fields := W.Parse(s, tags).value;
      forall i :: 0 <= i < |fields| && fields[i].Varint? && fields[i].tag in tags ==>
        var n := names[fields[i].tag];
        && (C.Overflows(fields[i], tags) ==> toDouble(fields[i].value).Some?)
        && M.FieldDecodable(m, n) == (C.Overflows(fields[i], tags) || fields[i].value < TWO63)
        && forall after :: M.FieldDecodable(m, n) && M.FieldRestored(after, m, n) ==>
             M.Field(n) in after && after[M.Field(n)] == M.Num(WorkOf(fields[i], tags, toDouble, toReal))
  {
    hide W.Parse, C.Rewrite, W.EncodeAll, C.NoteAll, M.FieldDecodable, M.FieldRestored, Generated, Converts;
    C.RepairIsExactAndFinal(s, tags, toDouble);
    var fields := W.Parse(s, tags).value;
    forall i | 0 <= i < |fields| && fields[i].Varint? && fields[i].tag in tags
      ensures var n := names[fields[i].tag];
        && (C.Overflows(fields[i], tags) ==> toDouble(fields[i].value).Some?)
        && M.FieldDecodable(m, n) == (C.Overflows(fields[i], tags) || fields[i].value < TWO63)
        && forall after :: M.FieldDecodable(m, n) && M.FieldRestored(after, m, n) ==>
             M.Field(n) in after && after[M.Field(n)] == M.Num(WorkOf(fields[i], tags, toDouble, toReal))
    {
      LegacyField(fields, tags, names, toDouble, toReal, m, i);
    }
  }
}
