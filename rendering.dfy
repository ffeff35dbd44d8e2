/** What pretty.go's renderer produces, as functions of the value: the
    top-level dispatcher (Print), the per-field formatter with its zero-value
    omission policy (getFieldValue), the nested-struct formatter
    (printChildStruct) and the display name of a struct (getType). The
    imperative methods in module Pretty are proved to compute exactly these. */
module Rendering {
  import opened Values
  import opened Strings

  /** The kinds the field formatter prints (the %v leaves of the default case). */
  predicate IsLeaf(v: Value)
  {
    v.Str? || v.Int? || v.Uint? || v.Bool? || v.Float64? || v.Other?
  }

  function BoolText(b: bool): string
  {
    if b then "true" else "false"
  }

  /** `%v` of a leaf value: strings unquoted, integers in decimal, floats and
      other kinds by their own text. */
  function Text(v: Value): (r: string)
    requires IsLeaf(v)
    ensures v.Int? ==> DecimalValue(r) == v.i
    ensures v.Uint? ==> DecimalValue(r) == v.u
    ensures v.Bool? ==> (r == "true" <==> v.b)
  {
    match v
    case Str(s) => s
    case Int(_, i) => DecimalRoundTrip(i); Decimal(i)
    case Uint(u) => DecimalRoundTrip(u); Decimal(u)
    case Bool(b) => BoolText(b)
    case Float64(text, _) => text
    case Other(_, text, _) => text
  }

  /** getType: the display name of a struct, or of a pointer's element type
      prefixed by one star. */
  function GetType(v: Value): (r: string)
    requires v.Struct? || v.Ptr?
    ensures v.Struct? ==> r == v.name
    ensures v.Ptr? ==> |r| > 0 && r[0] == '*' && r[1..] == v.elemName
    ensures r == "Time" <==> v.Struct? && v.name == "Time"
  {
    if v.Ptr? then "*" + v.elemName else v.name
  }

  /** Print: the text the renderer returns for `v`. */
  function Rendered(v: Value, fmts: Formatters): (r: string)
    ensures r == "" ==> v.Iface? || (v.Struct? && v.name == "Time")
    decreases v, 1
  {
    match v
    case Ptr(typeStr, _, target) =>
      if target.Some? then "*" + Rendered(target.value, fmts) else typeStr + "{nil}"
    case Struct(_, _, fields) =>
      if GetType(v) == "Time" then fmts.sprint(v)
      else GetType(v) + "{" + Join(Fragments(v, Fresh, fmts, |fields|), ", ") + "}"
    case Slice(typeStr, _, elems) =>
      typeStr + ": [" + Join(ElementTexts(v, fmts, |elems|), ", ") + "]"
    case Nil => "nil"
    case Iface(dyn) => Rendered(dyn, fmts)
    case _ => KindName(v) + "{" + Text(v) + "}"
  }

  /** The renderings of the first `n` elements of slice `v`, in order, each
      rendered on its own by the top-level renderer. */
  function ElementTexts(v: Value, fmts: Formatters, n: nat): (r: seq<string>)
    requires v.Slice? && n <= |v.elems|
    ensures |r| == n
    ensures forall i :: 0 <= i < n ==> r[i] == Rendered(v.elems[i], fmts)
    decreases v, 0, n
  {
    if n == 0 then [] else ElementTexts(v, fmts, n - 1) + [Rendered(v.elems[n - 1], fmts)]
  }

  /** getFieldValue: the text of a field's value, or "" when the field is
      omitted. `isPointer` records that the value was reached through a
      non-nil pointer. */
  function FieldValue(v: Value, isPointer: bool, fl: Flags, fmts: Formatters): (r: string)
    ensures v.Str? || v.Int? || v.Uint? || v.Bool? ==> (r == "" <==> !isPointer && IsZero(v))
    ensures v.Float64? ==> (r == "" <==> (!isPointer && v.zero) || v.text == "")
    ensures v.Ptr? && v.target.None? ==> r == ""
    ensures !(v.Ptr? || v.Struct? || IsLeaf(v)) || v.Other? ==> r == ""
    decreases v, 2
  {
    match v
    case Ptr(_, _, target) =>
      if target.None? then "" else FieldValue(target.value, true, fl, fmts)
    case Str(s) => if s != "" || isPointer then "'" + s + "'" else ""
    case Int(_, i) => if i != 0 || isPointer then Decimal(i) else ""
    case Uint(u) => if u != 0 || isPointer then Decimal(u) else ""
    case Bool(b) => if b || isPointer then BoolText(b) else ""
    case Float64(text, zero) => if !zero || isPointer then text else ""
    case Struct(_, _, _) => ChildStruct(v, fl, fmts)
    case _ => ""
  }

  /** printChildStruct: a nested struct as `pkg.Type{...}`, or "" when none of
      its fields is shown; a nested time.Time is "" when zero, its RFC 3339 text
      when reflection lets it be read, and `unexported date` otherwise. */
  function ChildStruct(v: Value, fl: Flags, fmts: Formatters): (r: string)
    requires v.Struct?
    ensures v.qualified == "time.Time" ==> (r == "" <==> IsZero(v) || (CanInterface(fl) && fmts.rfc3339(v) == ""))
    decreases v, 1
  {
    if v.qualified == "time.Time" then
      if IsZero(v) then ""
      else if CanInterface(fl) then fmts.rfc3339(v)
      else "unexported date"
    else
      var frags := Fragments(v, fl, fmts, |v.fields|);
      if frags == [] then "" else v.qualified + "{" + Join(frags, ", ") + "}"
  }

  /** The `name: value` fragments of the shown fields among the first `n`
      fields of struct `v` (whose own flags are `fl`), in declaration order. */
  function Fragments(v: Value, fl: Flags, fmts: Formatters, n: nat): (r: seq<string>)
    requires v.Struct? && n <= |v.fields|
    ensures |r| <= n
    ensures forall k :: 0 <= k < |r| ==> r[k] != ""
    decreases v, 0, n
  {
    if n == 0 then []
    else
      var f := v.fields[n - 1];
      var text := FieldText(f, fl, fmts);
      Fragments(v, fl, fmts, n - 1) + (if text != "" then [f.name + ": " + text] else [])
  }

  /** The formatted value of field `f` of a struct whose flags are `fl`: a
      field is visited with `isPointer` false and its own reflection flags. */
  function FieldText(f: Field, fl: Flags, fmts: Formatters): string
  {
    FieldValue(f.value, false, FieldFlags(fl, f), fmts)
  }
}
