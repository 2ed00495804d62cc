/**
 The adapter around the generated codecs: work that does not fit the legacy
 64-bit field travels in a double extension beside a zero sentinel.

 The generated codec itself is represented by what it does to a message it
 carries (`Carried`): work fields are cut to integers, a missing double comes
 back as zero, everything else comes back as it was.
 */
module WorkMessage {
  import opened Wrappers

  /** A key of a message: the name of a field, or that name followed by "_double", which no work field ends in. */
  datatype Key = Field(name: string) | Extension(name: string)

  datatype Value = Num(x: real) | NotFinite | NotNumber | Null

  type Message = map<Key, Value>

  const INT64_LIMIT: real := 9223372036854775808.0

  ghost predicate Distinct(fields: seq<string>) {
    forall i, j :: 0 <= i < j < |fields| ==> fields[i] != fields[j]
  }

  // ------------------------------------------------------------------
  // Specification
  // ------------------------------------------------------------------

  /** A finite nonnegative number, and an integer if asked for. */
  predicate ValidWork(v: Value, integer: bool) {
    v.Num? && v.x >= 0.0 && (integer ==> v.x == v.x.Floor as real)
  }

  predicate Absent(m: Message, key: Key) { key !in m || m[key].Null? }

  predicate Large(m: Message, f: string) { Field(f) in m && m[Field(f)].Num? && m[Field(f)].x >= INT64_LIMIT }

  predicate WorkOk(m: Message, f: string) { Absent(m, Field(f)) || ValidWork(m[Field(f)], false) }

  predicate Encodable(m: Message, fields: seq<string>) {
    forall f :: f in fields ==> WorkOk(m, f)
  }

  predicate Same(a: Message, b: Message, key: Key) {
    (key in a <==> key in b) && (key in a ==> a[key] == b[key])
  }

  /** Nothing but the work fields and their extensions differs. */
  ghost predicate SameElsewhere(a: Message, b: Message, fields: seq<string>) {
    forall key: Key :: key.name !in fields ==> Same(a, b, key)
  }

  /** Large work moves to its extension and leaves a zero; an extension not in use is dropped. */
  predicate FieldPrepared(wire: Message, m: Message, f: string) {
    if Large(m, f) then
      Field(f) in wire && wire[Field(f)] == Num(0.0) && Extension(f) in wire && wire[Extension(f)] == m[Field(f)]
    else
      Extension(f) !in wire && Same(wire, m, Field(f))
  }

  ghost predicate IsPrepared(wire: Message, m: Message, fields: seq<string>) {
    (forall f :: f in fields ==> FieldPrepared(wire, m, f)) && SameElsewhere(wire, m, fields)
  }

  /** What the generated codec does to a work field and its extension on the way. */
  predicate FieldCarried(after: Message, wire: Message, f: string) {
    && (Field(f) in after <==> Field(f) in wire)
    && (Field(f) in wire ==>
          after[Field(f)] == if wire[Field(f)].Num? then Num(wire[Field(f)].x.Floor as real) else wire[Field(f)])
    && Extension(f) in after
    && after[Extension(f)] == if Extension(f) in wire then wire[Extension(f)] else Num(0.0)
  }

  ghost predicate Carried(after: Message, wire: Message, fields: seq<string>) {
    (forall f :: f in fields ==> FieldCarried(after, wire, f)) && SameElsewhere(after, wire, fields)
  }

  predicate InUse(m: Message, f: string) {
    !Absent(m, Extension(f)) && m[Extension(f)] != Num(0.0)
  }

  /** What decoding accepts: an extension in use is large work beside a zero; other work is valid. */
  predicate FieldDecodable(m: Message, f: string) {
    if InUse(m, f) then
      && ValidWork(m[Extension(f)], true) && m[Extension(f)].x >= INT64_LIMIT
      && Field(f) in m && m[Field(f)] == Num(0.0)
    else WorkOk(m, f)
  }

  predicate Decodable(m: Message, fields: seq<string>) {
    forall f :: f in fields ==> FieldDecodable(m, f)
  }

  predicate FieldRestored(after: Message, m: Message, f: string) {
    && Extension(f) !in after
    && if InUse(m, f) then Field(f) in after && after[Field(f)] == m[Extension(f)] else Same(after, m, Field(f))
  }

  ghost predicate IsRestored(after: Message, m: Message, fields: seq<string>) {
    (forall f :: f in fields ==> FieldRestored(after, m, f)) && SameElsewhere(after, m, fields)
  }

  // ------------------------------------------------------------------
  // Preparing and restoring
  // ------------------------------------------------------------------

  /** Only the keys of one name differ. */
  ghost predicate OnlyAt(before: Message, after: Message, f: string) {
    forall key: Key :: key.name != f ==> Same(after, before, key)
  }

  method PrepareField(w: Message, data: Message, f: string) returns (wire: Option<Message>)
    requires Same(w, data, Field(f))
    ensures wire.Some? <==> WorkOk(data, f)
    ensures wire.Some? ==> FieldPrepared(wire.value, data, f) && OnlyAt(w, wire.value, f)
  {
    var out := w - {Extension(f)};
    if Absent(data, Field(f)) { return Some(out); }
    if !ValidWork(data[Field(f)], false) { return None; }
    if data[Field(f)].x >= INT64_LIMIT {
      out := out[Field(f) := Num(0.0)][Extension(f) := data[Field(f)]];
    }
    wire := Some(out);
  }

  /** Prepares a message for the wire, or throws on work that is not a finite nonnegative number. */
  method PrepareWire(data: Message, fields: seq<string>) returns (wire: Option<Message>)
    requires Distinct(fields)
    ensures wire.Some? <==> Encodable(data, fields)
    ensures wire.Some? ==> IsPrepared(wire.value, data, fields)
  {
    hide WorkOk, FieldPrepared, Same, OnlyAt;
    var w := data;
    SameSelf(data);
    for k := 0 to |fields|
      invariant Encodable(data, fields[..k])
      invariant IsPrepared(w, data, fields[..k])
    {
      assert fields[k] !in fields[..k] && Field(fields[k]).name !in fields[..k];
      var next := PrepareField(w, data, fields[k]);
      if next.None? { return None; }
      PrepareStep(w, next.value, data, fields, k);
      assert fields[..k + 1] == fields[..k] + [fields[k]];
      w := next.value;
    }
    assert fields[..|fields|] == fields;
    wire := Some(w);
  }

  lemma SameSelf(m: Message)
    ensures forall key :: Same(m, m, key)
  {
  }

  lemma SameMore(a: Message, b: Message, m: Message, fields: seq<string>, k: nat)
    requires k < |fields| && SameElsewhere(a, m, fields[..k]) && OnlyAt(a, b, fields[k])
    ensures SameElsewhere(b, m, fields[..k + 1])
  {
    assert fields[..k + 1] == fields[..k] + [fields[k]];
    forall key: Key | key.name !in fields[..k + 1]
      ensures Same(b, m, key)
    {
      assert Same(b, a, key) && Same(a, m, key);
    }
  }

  lemma PrepareStep(before: Message, after: Message, m: Message, fields: seq<string>, k: nat)
    requires Distinct(fields) && k < |fields| && IsPrepared(before, m, fields[..k])
    requires FieldPrepared(after, m, fields[k]) && OnlyAt(before, after, fields[k])
    ensures IsPrepared(after, m, fields[..k + 1])
  {
    assert fields[..k + 1] == fields[..k] + [fields[k]];
    SameMore(before, after, m, fields, k);
    forall f | f in fields[..k]
      ensures FieldPrepared(after, m, f)
    {
      assert FieldPrepared(before, m, f) && f != fields[k];
      assert Same(after, before, Field(f)) && Same(after, before, Extension(f));
    }
  }

  method RestoreField(d: Message, decoded: Message, f: string) returns (data: Option<Message>)
    requires Same(d, decoded, Field(f)) && Same(d, decoded, Extension(f))
    ensures data.Some? <==> FieldDecodable(decoded, f)
    ensures data.Some? ==> FieldRestored(data.value, decoded, f) && OnlyAt(d, data.value, f)
  {
    var out := d;
    if InUse(d, f) {
      var value := d[Extension(f)];
      if !ValidWork(value, true) || value.x < INT64_LIMIT || !(Field(f) in d && d[Field(f)] == Num(0.0)) {
        return None;
      }
      out := out[Field(f) := value];
    }
    out := out - {Extension(f)};
    if !WorkOk(out, f) { return None; }
    data := Some(out);
  }

  /** Takes large work from its extension, drops the extensions, or throws on inconsistent work. */
  method Restore(decoded: Message, fields: seq<string>) returns (data: Option<Message>)
    requires Distinct(fields)
    ensures data.Some? <==> Decodable(decoded, fields)
    ensures data.Some? ==> IsRestored(data.value, decoded, fields)
  {
    hide FieldDecodable, FieldRestored, Same, OnlyAt;
    var d := decoded;
    SameSelf(decoded);
    for k := 0 to |fields|
      invariant Decodable(decoded, fields[..k])
      invariant IsRestored(d, decoded, fields[..k])
    {
      assert fields[k] !in fields[..k] && Field(fields[k]).name !in fields[..k] && Extension(fields[k]).name !in fields[..k];
      var next := RestoreField(d, decoded, fields[k]);
      if next.None? { return None; }
      RestoreStep(d, next.value, decoded, fields, k);
      assert fields[..k + 1] == fields[..k] + [fields[k]];
      d := next.value;
    }
    assert fields[..|fields|] == fields;
    data := Some(d);
  }

  lemma RestoreStep(before: Message, after: Message, m: Message, fields: seq<string>, k: nat)
    requires Distinct(fields) && k < |fields| && IsRestored(before, m, fields[..k])
    requires FieldRestored(after, m, fields[k]) && OnlyAt(before, after, fields[k])
    ensures IsRestored(after, m, fields[..k + 1])
  {
    assert fields[..k + 1] == fields[..k] + [fields[k]];
    SameMore(before, after, m, fields, k);
    forall f | f in fields[..k]
      ensures FieldRestored(after, m, f)
    {
      assert FieldRestored(before, m, f) && f != fields[k];
      assert Same(after, before, Field(f)) && Same(after, before, Extension(f));
    }
  }

  // ------------------------------------------------------------------
  // Round trip
  // ------------------------------------------------------------------

  function AsCarried(v: Value, large: bool): Value { if v.Num? && !large then Num(v.x.Floor as real) else v }

  /** Large work comes back exactly, smaller work cut to an integer as the legacy field always did. */
  predicate FieldSurvives(after: Message, m: Message, f: string) {
    && Extension(f) !in after
    && (Field(f) in after <==> Field(f) in m)
    && (Field(f) in m ==> after[Field(f)] == AsCarried(m[Field(f)], Large(m, f)))
  }

  lemma FieldRoundTrip(m: Message, wire: Message, carried: Message, f: string)
    requires WorkOk(m, f) && FieldPrepared(wire, m, f) && FieldCarried(carried, wire, f)
    requires Large(m, f) ==> m[Field(f)].x == m[Field(f)].x.Floor as real
    ensures FieldDecodable(carried, f)
    ensures InUse(carried, f) <==> Large(m, f)
    ensures Large(m, f) ==> carried[Extension(f)] == m[Field(f)]
    ensures !Large(m, f) ==> (Field(f) in carried <==> Field(f) in m)
    ensures !Large(m, f) && Field(f) in m ==>
      carried[Field(f)] == if m[Field(f)].Num? then Num(m[Field(f)].x.Floor as real) else m[Field(f)]
  {
  }

  /**
   Whatever can be encoded decodes again, and nothing but the precision of fractions below the limit is lost.
   Work at or above the limit is an integer, as every double of that size is.
   */
  lemma RoundTrip(m: Message, wire: Message, carried: Message, fields: seq<string>)
    requires Encodable(m, fields) && IsPrepared(wire, m, fields) && Carried(carried, wire, fields)
    requires forall f :: f in fields && Large(m, f) ==> m[Field(f)].x == m[Field(f)].x.Floor as real
    ensures Decodable(carried, fields)
    ensures forall after :: IsRestored(after, carried, fields) ==>
      (forall f :: f in fields ==> FieldSurvives(after, m, f)) && SameElsewhere(after, m, fields)
  {
    hide WorkOk, FieldPrepared, FieldCarried, FieldDecodable, SameElsewhere;
    forall f | f in fields
      ensures FieldDecodable(carried, f)
    {
      FieldRoundTrip(m, wire, carried, f);
    }
    forall after | IsRestored(after, carried, fields)
      ensures (forall f :: f in fields ==> FieldSurvives(after, m, f)) && SameElsewhere(after, m, fields)
    {
      forall f | f in fields
        ensures FieldSurvives(after, m, f)
      {
        FieldRoundTrip(m, wire, carried, f);
        assert FieldRestored(after, carried, f);
      }
      SameThrough(m, wire, carried, after, fields);
    }
  }

  lemma SameThrough(m: Message, wire: Message, carried: Message, after: Message, fields: seq<string>)
    requires SameElsewhere(wire, m, fields) && SameElsewhere(carried, wire, fields) && SameElsewhere(after, carried, fields)
    ensures SameElsewhere(after, m, fields)
  {
    forall key: Key | key.name !in fields
      ensures Same(after, m, key)
    {
      assert Same(wire, m, key) && Same(carried, wire, key) && Same(after, carried, key);
    }
  }
}
