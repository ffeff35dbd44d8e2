/** What the renderer promises, proved about the functions of module
    Rendering: absent values, pointer stars, field omission, nested structs,
    declaration order, slices and the special handling of time values. */
module Properties {
  import opened Values
  import opened Strings
  import opened Rendering

  /** The value reached by following `k` non-nil pointers from `v`, if there
      are that many. */
  function Derefs(v: Value, k: nat): Option<Value>
  {
    if k == 0 then Some(v)
    else if v.Ptr? && v.target.Some? then Derefs(v.target.value, k - 1)
    else None
  }

  /** The kinds whose fields are shown when non-zero or reached through a
      pointer (a float's text is never empty in Go). */
  predicate HandledPrimitive(v: Value)
  {
    v.Str? || v.Int? || v.Uint? || v.Bool? || (v.Float64? && v.text != "")
  }

  // ---------------------------------------------------------------- top level

  /** An absent value renders as `nil`, also when it is the nil content of an
      interface-typed slot (a slice element of type interface{}). */
  lemma AbsentIsNil(fmts: Formatters)
    ensures Rendered(Nil, fmts) == "nil"
    ensures Rendered(Iface(Nil), fmts) == "nil"
  {
  }

  /** Every level of non-nil pointer adds one star in front of the rendering
      of what it points to. */
  lemma {:induction false} PointerStars(v: Value, k: nat, x: Value, fmts: Formatters)
    requires Derefs(v, k) == Some(x)
    ensures Rendered(v, fmts) == Stars(k) + Rendered(x, fmts)
  {
    if k > 0 {
      PointerStars(v.target.value, k - 1, x, fmts);
      assert Stars(k) == "*" + Stars(k - 1);
    }
  }

  /** A chain of `k` non-nil pointers ending in a nil pointer of type `t`
      renders as `k` stars, the nil pointer's type string and `{nil}`. */
  lemma NilPointerChain(v: Value, k: nat, t: string, elem: string, fmts: Formatters)
    requires Derefs(v, k) == Some(Ptr(t, elem, None))
    ensures Rendered(v, fmts) == Stars(k) + t + "{nil}"
  {
    PointerStars(v, k, Ptr(t, elem, None), fmts);
  }

  /** Outside struct fields nothing is omitted: a leaf renders as its kind
      name wrapped around its `%v` text even when it is a zero value. */
  lemma LeafIsKindWrapped(v: Value, fmts: Formatters)
    requires IsLeaf(v)
    ensures Rendered(v, fmts) == KindName(v) + "{" + Text(v) + "}"
    ensures v == Str("") ==> Rendered(v, fmts) == "string{}"
    ensures v == Bool(false) ==> Rendered(v, fmts) == "bool{false}"
  {
  }

  /** A struct passed to the renderer is headed by its bare type name and is
      never dropped; a nested one that is shown is headed by its
      package-qualified name. */
  lemma StructHeads(v: Value, fl: Flags, fmts: Formatters)
    requires v.Struct? && v.name != "Time"
    ensures var r := Rendered(v, fmts);
            |r| >= |v.name| + 2 && r[..|v.name| + 1] == v.name + "{" && r[|r| - 1] == '}'
    ensures var c := ChildStruct(v, fl, fmts);
            v.qualified != "time.Time" && c != "" ==> c[..|v.qualified| + 1] == v.qualified + "{"
  {
    var r := Rendered(v, fmts);
    var body := Join(Fragments(v, Fresh, fmts, |v.fields|), ", ");
    assert r == v.name + "{" + body + "}";
    assert r[..|v.name| + 1] == v.name + "{";
    var c := ChildStruct(v, fl, fmts);
    if v.qualified != "time.Time" && c != "" {
      var inner := Join(Fragments(v, fl, fmts, |v.fields|), ", ");
      assert c == v.qualified + "{" + inner + "}";
      assert c[..|v.qualified| + 1] == v.qualified + "{";
    }
  }

  // ----------------------------------------------------------------- fields

  /** Inside a field, pointers add no star: following `k >= 1` non-nil
      pointers formats the target as if reached through a pointer. */
  lemma {:induction false} FieldThroughPointers(v: Value, k: nat, x: Value, isPointer: bool, fl: Flags, fmts: Formatters)
    requires k >= 1 && Derefs(v, k) == Some(x)
    ensures FieldValue(v, isPointer, fl, fmts) == FieldValue(x, true, fl, fmts)
  {
    if k > 1 {
      FieldThroughPointers(v.target.value, k - 1, x, true, fl, fmts);
    }
  }

  /** A field of a handled primitive kind is omitted exactly when it is not
      behind a pointer and holds its zero value; when shown, a string is
      single-quoted, an integer is in decimal, a bool is `true`/`false` and a
      float is its `%v` text. */
  lemma PrimitiveFieldShownIff(v: Value, isPointer: bool, fl: Flags, fmts: Formatters)
    requires HandledPrimitive(v)
    ensures FieldValue(v, isPointer, fl, fmts) != "" <==> isPointer || !IsZero(v)
    ensures v.Str? && (isPointer || v.s != "") ==> FieldValue(v, isPointer, fl, fmts) == "'" + v.s + "'"
    ensures v.Int? && (isPointer || v.i != 0) ==> FieldValue(v, isPointer, fl, fmts) == Decimal(v.i)
    ensures v.Uint? && (isPointer || v.u != 0) ==> FieldValue(v, isPointer, fl, fmts) == Decimal(v.u)
    ensures v.Bool? && (isPointer || v.b) ==> FieldValue(v, isPointer, fl, fmts) == BoolText(v.b)
    ensures v.Float64? && (isPointer || !v.zero) ==> FieldValue(v, isPointer, fl, fmts) == v.text
  {
  }

  /** A field reached through at least one non-nil pointer to a handled
      primitive is always shown, zero or not; a pointer to "" gives `''`. */
  lemma PointerFieldAlwaysShown(v: Value, k: nat, x: Value, fl: Flags, fmts: Formatters)
    requires k >= 1 && Derefs(v, k) == Some(x) && HandledPrimitive(x)
    ensures FieldValue(v, false, fl, fmts) != ""
    ensures x == Str("") ==> FieldValue(v, false, fl, fmts) == "''"
    ensures x == Int(Plain, 0) ==> FieldValue(v, false, fl, fmts) == "0"
    ensures x == Bool(false) ==> FieldValue(v, false, fl, fmts) == "false"
  {
    FieldThroughPointers(v, k, x, false, fl, fmts);
    PrimitiveFieldShownIff(x, true, fl, fmts);
  }

  /** Nil pointers, and kinds the formatter does not handle (slices, maps,
      interfaces, float32, int32, ...), are always omitted. */
  lemma UnhandledFieldOmitted(v: Value, isPointer: bool, fl: Flags, fmts: Formatters)
    requires (v.Ptr? && v.target.None?) || v.Slice? || v.Iface? || v.Other? || v.Nil?
    ensures FieldValue(v, isPointer, fl, fmts) == ""
  {
  }

  /** No field among the first `n` is shown exactly when there are no fragments. */
  lemma {:induction false} FragmentsEmptyIff(v: Value, fl: Flags, fmts: Formatters, n: nat)
    requires v.Struct? && n <= |v.fields|
    ensures Fragments(v, fl, fmts, n) == [] <==> forall i :: 0 <= i < n ==> FieldText(v.fields[i], fl, fmts) == ""
  {
    if n > 0 {
      FragmentsEmptyIff(v, fl, fmts, n - 1);
    }
  }

  /** A nested struct (other than time.Time) is omitted exactly when none of
      its own fields is shown. */
  lemma NestedStructOmittedIff(v: Value, fl: Flags, fmts: Formatters)
    requires v.Struct? && v.qualified != "time.Time"
    ensures ChildStruct(v, fl, fmts) == "" <==> forall i :: 0 <= i < |v.fields| ==> FieldText(v.fields[i], fl, fmts) == ""
  {
    FragmentsEmptyIff(v, fl, fmts, |v.fields|);
    var frags := Fragments(v, fl, fmts, |v.fields|);
    if frags != [] {
      assert (v.qualified + "{" + Join(frags, ", ") + "}")[|v.qualified|] == '{';
    }
  }

  /** Reaching a struct with no shown field through pointers does not force
      it to be shown: the field is still omitted. */
  lemma PointerToEmptyStructOmitted(v: Value, k: nat, x: Value, fl: Flags, fmts: Formatters)
    requires k >= 1 && Derefs(v, k) == Some(x)
    requires x.Struct? && x.qualified != "time.Time"
    requires forall i :: 0 <= i < |x.fields| ==> FieldText(x.fields[i], fl, fmts) == ""
    ensures FieldValue(v, false, fl, fmts) == ""
  {
    FieldThroughPointers(v, k, x, false, fl, fmts);
    NestedStructOmittedIff(x, fl, fmts);
  }

  /** A zero value in a field not reached through a pointer is omitted,
      whatever its kind: zero primitives, nil pointers, nil slices and
      interfaces, zero times and nested structs whose fields are all zero. */
  lemma {:induction false} ZeroOmitted(v: Value, fl: Flags, fmts: Formatters)
    requires IsZero(v)
    ensures FieldValue(v, false, fl, fmts) == ""
    decreases v
  {
    if v.Struct? && v.qualified != "time.Time" {
      forall i | 0 <= i < |v.fields|
        ensures FieldText(v.fields[i], fl, fmts) == ""
      {
        assert v.fields[i] in v.fields;
        ZeroOmitted(v.fields[i].value, FieldFlags(fl, v.fields[i]), fmts);
      }
      NestedStructOmittedIff(v, fl, fmts);
    }
  }

  /** An all-zero struct renders as `Name{}` at the top. */
  lemma AllZeroStruct(v: Value, fmts: Formatters)
    requires v.Struct? && v.name != "Time" && IsZero(v)
    ensures Rendered(v, fmts) == v.name + "{}"
  {
    forall i | 0 <= i < |v.fields|
      ensures FieldText(v.fields[i], Fresh, fmts) == ""
    {
      ZeroOmitted(v.fields[i].value, FieldFlags(Fresh, v.fields[i]), fmts);
    }
    FragmentsEmptyIff(v, Fresh, fmts, |v.fields|);
  }

  /** A non-nil pointer field to a zero time is omitted like the zero time. */
  lemma PointerToZeroTimeOmitted(v: Value, k: nat, t: Value, fl: Flags, fmts: Formatters)
    requires k >= 1 && Derefs(v, k) == Some(t)
    requires t.Struct? && t.qualified == "time.Time" && IsZero(t)
    ensures FieldValue(v, false, fl, fmts) == ""
  {
    FieldThroughPointers(v, k, t, false, fl, fmts);
  }

  /** A struct whose every field is omitted renders as `Name{}` at the top,
      while the same struct nested in a field is dropped. */
  lemma AllFieldsOmitted(v: Value, fmts: Formatters)
    requires v.Struct? && v.name != "Time" && v.qualified != "time.Time"
    requires forall i :: 0 <= i < |v.fields| ==> FieldText(v.fields[i], Fresh, fmts) == ""
    ensures Rendered(v, fmts) == v.name + "{}"
    ensures ChildStruct(v, Fresh, fmts) == ""
  {
    FragmentsEmptyIff(v, Fresh, fmts, |v.fields|);
  }

  /** The fragments of a struct depend only on the fields considered. */
  lemma {:induction false} FragmentsSameFields(v: Value, w: Value, fl: Flags, fmts: Formatters, n: nat)
    requires v.Struct? && w.Struct? && n <= |v.fields| && n <= |w.fields|
    requires v.fields[..n] == w.fields[..n]
    ensures Fragments(v, fl, fmts, n) == Fragments(w, fl, fmts, n)
  {
    if n > 0 {
      assert v.fields[n - 1] == v.fields[..n][n - 1] == w.fields[..n][n - 1] == w.fields[n - 1];
      assert v.fields[..n - 1] == v.fields[..n][..n - 1];
      assert w.fields[..n - 1] == w.fields[..n][..n - 1];
      FragmentsSameFields(v, w, fl, fmts, n - 1);
    }
  }

  /** Fragments follow declaration order: the fields `a ++ b` give the
      fragments of `a` followed by those of `b`. */
  lemma {:induction false} FragmentsAppend(v: Value, a: Value, b: Value, fl: Flags, fmts: Formatters, n: nat)
    requires v.Struct? && a.Struct? && b.Struct? && v.fields == a.fields + b.fields
    requires n <= |b.fields|
    ensures Fragments(v, fl, fmts, |a.fields| + n) == Fragments(a, fl, fmts, |a.fields|) + Fragments(b, fl, fmts, n)
  {
    if n == 0 {
      assert v.fields[..|a.fields|] == a.fields[..|a.fields|];
      FragmentsSameFields(v, a, fl, fmts, |a.fields|);
    } else {
      FragmentsAppend(v, a, b, fl, fmts, n - 1);
      assert v.fields[|a.fields| + n - 1] == b.fields[n - 1];
    }
  }

  /** An omitted last field contributes no fragment. */
  lemma OmittedLastField(v: Value, w: Value, fl: Flags, fmts: Formatters)
    requires v.Struct? && w.Struct? && |v.fields| == |w.fields| + 1
    requires v.fields[..|w.fields|] == w.fields
    requires FieldText(v.fields[|w.fields|], fl, fmts) == ""
    ensures Fragments(v, fl, fmts, |v.fields|) == Fragments(w, fl, fmts, |w.fields|)
  {
    var n := |w.fields|;
    assert v.fields[..n] == w.fields[..n];
    FragmentsSameFields(v, w, fl, fmts, n);
  }

  /** Removing an omitted field leaves the fragments of the other fields. */
  lemma FragmentsWithout(name: string, qualified: string, before: seq<Field>, f: Field, after: seq<Field>, fl: Flags, fmts: Formatters)
    requires FieldText(f, fl, fmts) == ""
    ensures var with := Struct(name, qualified, before + [f] + after);
            var without := Struct(name, qualified, before + after);
            Fragments(with, fl, fmts, |with.fields|) == Fragments(without, fl, fmts, |without.fields|)
  {
    var with := Struct(name, qualified, before + [f] + after);
    var without := Struct(name, qualified, before + after);
    var a := Struct(name, qualified, before);
    var af := Struct(name, qualified, before + [f]);
    var b := Struct(name, qualified, after);
    FragmentsAppend(with, af, b, fl, fmts, |after|);
    FragmentsAppend(without, a, b, fl, fmts, |after|);
    assert af.fields[..|before|] == before;
    OmittedLastField(af, a, fl, fmts);
  }

  /** Removing a field that is omitted changes neither the top-level nor the
      nested rendering of the struct. */
  lemma OmittedFieldInvisible(name: string, qualified: string, before: seq<Field>, f: Field, after: seq<Field>, fl: Flags, fmts: Formatters)
    requires name != "Time" && qualified != "time.Time"
    requires FieldText(f, fl, fmts) == ""
    ensures var with := Struct(name, qualified, before + [f] + after);
            var without := Struct(name, qualified, before + after);
            ChildStruct(with, fl, fmts) == ChildStruct(without, fl, fmts)
            && (fl == Fresh ==> Rendered(with, fmts) == Rendered(without, fmts))
  {
    FragmentsWithout(name, qualified, before, f, after, fl, fmts);
  }

  // ----------------------------------------------------------------- slices

  /** The joined element renderings of a slice of `elems`. */
  function SliceBody(t: string, isNil: bool, elems: seq<Value>, fmts: Formatters): string
  {
    var s := Slice(t, isNil, elems);
    Join(ElementTexts(s, fmts, |elems|), ", ")
  }

  /** One position of ElementTextsAppend. */
  lemma ElementTextAppendAt(t: string, isNil: bool, a: seq<Value>, b: seq<Value>, fmts: Formatters, i: nat)
    requires i < |a| + |b|
    ensures ElementTexts(Slice(t, isNil, a + b), fmts, |a + b|)[i]
            == (ElementTexts(Slice(t, isNil, a), fmts, |a|) + ElementTexts(Slice(t, isNil, b), fmts, |b|))[i]
  {
    if i < |a| {
      assert (a + b)[i] == a[i];
    } else {
      assert (a + b)[i] == b[i - |a|];
    }
  }

  /** The element texts of `a ++ b` are those of `a` followed by those of `b`. */
  lemma ElementTextsAppend(t: string, isNil: bool, a: seq<Value>, b: seq<Value>, fmts: Formatters)
    ensures ElementTexts(Slice(t, isNil, a + b), fmts, |a + b|)
            == ElementTexts(Slice(t, isNil, a), fmts, |a|) + ElementTexts(Slice(t, isNil, b), fmts, |b|)
  {
    forall i | 0 <= i < |a| + |b|
      ensures ElementTexts(Slice(t, isNil, a + b), fmts, |a + b|)[i]
              == (ElementTexts(Slice(t, isNil, a), fmts, |a|) + ElementTexts(Slice(t, isNil, b), fmts, |b|))[i]
    {
      ElementTextAppendAt(t, isNil, a, b, fmts, i);
    }
  }

  /** The body of `a ++ b` is the body of `a`, a separator, the body of `b`. */
  lemma SliceBodyAppend(t: string, isNil: bool, a: seq<Value>, b: seq<Value>, fmts: Formatters)
    requires a != [] && b != []
    ensures SliceBody(t, isNil, a + b, fmts) == SliceBody(t, isNil, a, fmts) + ", " + SliceBody(t, isNil, b, fmts)
  {
    var ta := ElementTexts(Slice(t, isNil, a), fmts, |a|);
    var tb := ElementTexts(Slice(t, isNil, b), fmts, |b|);
    ElementTextsAppend(t, isNil, a, b, fmts);
    JoinAppend(ta, tb, ", ");
  }

  /** Slices keep element order and render elements independently: the
      elements `a ++ b` render as the body of `a`, a separator, the body of `b`. */
  lemma SliceAppend(t: string, isNil: bool, a: seq<Value>, b: seq<Value>, fmts: Formatters)
    requires a != [] && b != []
    ensures Rendered(Slice(t, isNil, a + b), fmts)
            == t + ": [" + (SliceBody(t, isNil, a, fmts) + ", " + SliceBody(t, isNil, b, fmts)) + "]"
  {
    SliceBodyAppend(t, isNil, a, b, fmts);
    assert Rendered(Slice(t, isNil, a + b), fmts) == t + ": [" + SliceBody(t, isNil, a + b, fmts) + "]";
  }

  /** A two-element slice: `Type: [r1, r2]`. */
  lemma SliceOfTwo(t: string, isNil: bool, e1: Value, e2: Value, fmts: Formatters)
    ensures Rendered(Slice(t, isNil, [e1, e2]), fmts) == t + ": [" + (Rendered(e1, fmts) + ", " + Rendered(e2, fmts)) + "]"
  {
    var texts := ElementTexts(Slice(t, isNil, [e1, e2]), fmts, 2);
    assert texts == [Rendered(e1, fmts), Rendered(e2, fmts)];
    assert texts[..1] == [Rendered(e1, fmts)];
    assert Join(texts, ", ") == Rendered(e1, fmts) + ", " + Rendered(e2, fmts);
  }

  // ------------------------------------------------------------------- time

  /** The time special case is recognised by the bare name `Time` at the top
      and by the qualified name `time.Time` when nested, so a nested struct
      named Time from another package is rendered like any other struct. */
  lemma TimeDetection(v: Value, fl: Flags, fmts: Formatters)
    requires v.Struct?
    ensures v.name == "Time" ==> Rendered(v, fmts) == fmts.sprint(v)
    ensures v.qualified == "time.Time" ==>
      ChildStruct(v, fl, fmts) == if IsZero(v) then "" else if CanInterface(fl) then fmts.rfc3339(v) else "unexported date"
  {
  }

  /** A non-zero time value reached through an unexported field, embedded or
      not, directly or through pointers, prints as `unexported date`. */
  lemma UnexportedTimeField(f: Field, k: nat, t: Value, fl: Flags, fmts: Formatters)
    requires !Exported(f.name)
    requires Derefs(f.value, k) == Some(t) && t.Struct? && t.qualified == "time.Time" && !IsZero(t)
    ensures FieldText(f, fl, fmts) == "unexported date"
  {
    var ffl := FieldFlags(fl, f);
    assert !CanInterface(ffl);
    if k >= 1 {
      FieldThroughPointers(f.value, k, t, false, ffl, fmts);
      assert FieldValue(t, true, ffl, fmts) == ChildStruct(t, ffl, fmts);
    } else {
      assert f.value == t;
      assert FieldValue(t, false, ffl, fmts) == ChildStruct(t, ffl, fmts);
    }
  }

  /** A non-zero time value reached from the top only through exported fields
      and pointers prints its RFC 3339 text. */
  lemma ExportedTimeField(f: Field, k: nat, t: Value, fl: Flags, fmts: Formatters)
    requires CanInterface(fl) && Exported(f.name)
    requires Derefs(f.value, k) == Some(t) && t.Struct? && t.qualified == "time.Time" && !IsZero(t)
    ensures FieldText(f, fl, fmts) == fmts.rfc3339(t)
  {
    var ffl := FieldFlags(fl, f);
    assert CanInterface(ffl);
    if k >= 1 {
      FieldThroughPointers(f.value, k, t, false, ffl, fmts);
      assert FieldValue(t, true, ffl, fmts) == ChildStruct(t, ffl, fmts);
    } else {
      assert f.value == t;
      assert FieldValue(t, false, ffl, fmts) == ChildStruct(t, ffl, fmts);
    }
  }
}
