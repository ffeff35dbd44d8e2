/** The renderer of pretty.go as it computes: the struct cases accumulate a
    `fields` string with `+=` and trim the trailing separator, the slice case
    fills an array of element texts. Each method is proved to return what the
    functions of module Rendering describe. */
module Pretty {
  import opened Values
  import opened Strings
  import opened Rendering

  /** Print: render any value. */
  method Print(v: Value, fmts: Formatters) returns (output: string)
    ensures output == Rendered(v, fmts)
    decreases v
  {
    match v {
      case Ptr(typeStr, _, target) =>
        if target.Some? {
          var inner := Print(target.value, fmts);
          return "*" + inner;
        }
        return typeStr + "{nil}";
      case Struct(_, _, fs) =>
        if GetType(v) == "Time" {
          return fmts.sprint(v);
        }
        var fields := AccumulateFields(v, Fresh, fmts);
        TrimTerminatedIsJoin(Fragments(v, Fresh, fmts, |fs|), ", ");
        fields := TrimSuffix(fields, ", ");
        return GetType(v) + "{" + fields + "}";
      case Slice(typeStr, _, elems) =>
        var elements := new string[|elems|];
        for i := 0 to |elems|
          invariant elements[..i] == ElementTexts(v, fmts, i)
        {
          elements[i] := Print(elems[i], fmts);
        }
        assert elements[..] == elements[..|elems|];
        return typeStr + ": [" + Join(elements[..], ", ") + "]";
      case Nil =>
        return "nil";
      case Iface(dyn) =>
        output := Print(dyn, fmts);
      case _ =>
        return KindName(v) + "{" + Text(v) + "}";
    }
  }

  /** getFieldValue: the text of one field's value, "" to omit the field. */
  method GetFieldValue(v: Value, isPointer: bool, fl: Flags, fmts: Formatters) returns (text: string)
    ensures text == FieldValue(v, isPointer, fl, fmts)
    decreases v, 2
  {
    var s := "";
    var invalid := false;
    match v {
      case Ptr(_, _, target) =>
        if target.None? {
          return "";
        }
        text := GetFieldValue(target.value, true, fl, fmts);
        return;
      case Str(str) =>
        if str != "" || isPointer { s := "'" + str + "'"; } else { invalid := true; }
      case Int(_, i) =>
        if i != 0 || isPointer { s := Decimal(i); } else { invalid := true; }
      case Uint(u) =>
        if u != 0 || isPointer { s := Decimal(u); } else { invalid := true; }
      case Bool(b) =>
        if b || isPointer { s := BoolText(b); } else { invalid := true; }
      case Float64(t, zero) =>
        if !zero || isPointer { s := t; } else { invalid := true; }
      case Struct(_, _, _) =>
        s := PrintChildStruct(v, fl, fmts);
      case _ =>
        invalid := true;
    }
    if invalid || s == "" {
      return "";
    }
    return s;
  }

  /** printChildStruct: a nested struct, "" when none of its fields is shown. */
  method PrintChildStruct(v: Value, fl: Flags, fmts: Formatters) returns (text: string)
    requires v.Struct?
    ensures text == ChildStruct(v, fl, fmts)
    decreases v, 1
  {
    if v.qualified == "time.Time" {
      if IsZero(v) {
        return "";
      }
      if CanInterface(fl) {
        return fmts.rfc3339(v);
      }
      return "unexported date";
    }
    var fields := AccumulateFields(v, fl, fmts);
    ghost var frags := Fragments(v, fl, fmts, |v.fields|);
    TrimTerminatedIsJoin(frags, ", ");
    if fields == "" {
      return "";
    }
    fields := TrimSuffix(fields, ", ");
    return v.qualified + "{" + fields + "}";
  }

  /** The loop shared by Print's struct case and printChildStruct: append
      `name: value, ` for every shown field, in declaration order. */
  method AccumulateFields(v: Value, fl: Flags, fmts: Formatters) returns (fields: string)
    requires v.Struct?
    ensures fields == Terminated(Fragments(v, fl, fmts, |v.fields|), ", ")
    decreases v, 0
  {
    var fs := v.fields;
    fields := "";
    var i := 0;
    while i < |fs|
      invariant 0 <= i <= |fs|
      invariant fields == Terminated(Fragments(v, fl, fmts, i), ", ")
    {
      var f := GetFieldValue(fs[i].value, false, FieldFlags(fl, fs[i]), fmts);
      AccumulateStep(v, fl, fmts, i);
      if f != "" {
        fields := fields + (fs[i].name + ": " + f + ", ");
      }
      i := i + 1;
    }
  }

  /** One loop step: the accumulated text grows by `name: value, ` exactly
      when the field is shown. */
  lemma AccumulateStep(v: Value, fl: Flags, fmts: Formatters, i: nat)
    requires v.Struct? && i < |v.fields|
    ensures var f := v.fields[i];
            var text := FieldText(f, fl, fmts);
            Terminated(Fragments(v, fl, fmts, i + 1), ", ")
            == Terminated(Fragments(v, fl, fmts, i), ", ") + (if text != "" then f.name + ": " + text + ", " else "")
  {
    var f := v.fields[i];
    var text := FieldText(f, fl, fmts);
    var parts := Fragments(v, fl, fmts, i);
    assert Fragments(v, fl, fmts, i + 1) == parts + (if text != "" then [f.name + ": " + text] else []);
    if text != "" {
      var more := parts + [f.name + ": " + text];
      assert more[..|more| - 1] == parts;
      assert Terminated(more, ", ") == Terminated(parts, ", ") + (f.name + ": " + text) + ", ";
    } else {
      assert parts + [] == parts;
    }
  }
}
