/** The expectations of pretty_test.go, stated on the model: each Example
    lemma builds the value a test passes to Print and states the text the test
    expects. Helper lemmas compute one struct or one list of texts each; the
    `...Shape` lemmas regroup a concatenation around a variable part and the
    `...Literal` lemmas join adjacent string literals. */
module Examples {
  import opened Values
  import opened Strings
  import opened Rendering
  import opened Properties

  lemma DecimalOne()
    ensures Decimal(1) == "1"
  {
  }

  lemma JoinSnoc(p: seq<string>, x: string, sep: string)
    requires p != []
    ensures Join(p + [x], sep) == Join(p, sep) + sep + x
  {
    JoinAppend(p, [x], sep);
  }

  lemma ExampleEmptyStruct(fmts: Formatters)
    ensures Rendered(Struct("MyStruct", "pretty.MyStruct", []), fmts) == "MyStruct{}"
  {
  }

  lemma ExampleBools(fmts: Formatters)
    ensures Rendered(Bool(true), fmts) == "bool{true}"
    ensures Rendered(Bool(false), fmts) == "bool{false}"
  {
  }

  lemma ExampleString(fmts: Formatters)
    ensures Rendered(Str("string"), fmts) == "string{string}"
  {
  }

  /** An interface{} argument reaches Print as its dynamic value. */
  lemma ExampleInterface(fmts: Formatters)
    ensures Rendered(Int(Plain, 1), fmts) == "int{1}"
    ensures Rendered(Str("hello world"), fmts) == "string{hello world}"
    ensures Rendered(Nil, fmts) == "nil"
  {
    DecimalOne();
  }

  lemma ExampleIntegers(fmts: Formatters)
    ensures Rendered(Int(Plain, 2), fmts) == "int{2}"
    ensures Rendered(Int(Bits64, 2), fmts) == "int64{2}"
    ensures Rendered(Uint(3), fmts) == "uint{3}"
  {
  }

  lemma ExampleOpaqueText(fmts: Formatters)
    ensures Rendered(Other("float32", "3.2", false), fmts) == "float32{3.2}"
    ensures Rendered(Float64("6.4", false), fmts) == "float64{6.4}"
    ensures Rendered(Other("map", "map[]", false), fmts) == "map{map[]}"
  {
  }

  // MyStruct{A: 1, B: "hello", C: 0, D: ""}
  const PublicFields := Struct("MyStruct", "pretty.MyStruct", [
    Field("A", false, Int(Plain, 1)), Field("B", false, Str("hello")),
    Field("C", false, Int(Plain, 0)), Field("D", false, Str(""))])

  lemma PublicFieldsFragments(fmts: Formatters)
    ensures Fragments(PublicFields, Fresh, fmts, 4) == ["A: 1", "B: 'hello'"]
  {
    var v := PublicFields;
    DecimalOne();
    assert FieldText(v.fields[0], Fresh, fmts) == "1";
    assert FieldText(v.fields[1], Fresh, fmts) == "'hello'";
    assert FieldText(v.fields[2], Fresh, fmts) == "";
    assert FieldText(v.fields[3], Fresh, fmts) == "";
    assert Fragments(v, Fresh, fmts, 0) == [];
    assert "A" + ": " + "1" == "A: 1";
    assert "B" + ": " + "'hello'" == "B: 'hello'";
  }

  lemma PublicFieldsText()
    ensures "MyStruct" + "{" + ("A: 1" + ", " + "B: 'hello'") + "}" == "MyStruct{A: 1, B: 'hello'}"
  {
  }

  lemma ExampleStructWithPublicFields(fmts: Formatters)
    ensures Rendered(PublicFields, fmts) == "MyStruct{A: 1, B: 'hello'}"
  {
    PublicFieldsFragments(fmts);
    JoinSnoc(["A: 1"], "B: 'hello'", ", ");
    assert ["A: 1"] + ["B: 'hello'"] == ["A: 1", "B: 'hello'"];
    PublicFieldsText();
  }

  // c{b: b{a: a{myIntFilled: 1}}}
  const SubA := Struct("a", "pretty.a", [
    Field("myIntFilled", false, Int(Plain, 1)), Field("myIntEmpty", false, Int(Plain, 0))])
  const SubB := Struct("b", "pretty.b", [Field("a", false, SubA)])
  const SubC := Struct("c", "pretty.c", [Field("b", false, SubB)])

  lemma SubAFragments(fl: Flags, fmts: Formatters)
    ensures Fragments(SubA, fl, fmts, 2) == ["myIntFilled" + ": " + "1"]
  {
    DecimalOne();
    assert Fragments(SubA, fl, fmts, 0) == [];
  }

  lemma SubALiteral()
    ensures "pretty.a" + "{" + ("myIntFilled" + ": " + "1") + "}" == "pretty.a{myIntFilled: 1}"
  {
  }

  lemma SubAText(fl: Flags, fmts: Formatters)
    ensures ChildStruct(SubA, fl, fmts) == "pretty.a{myIntFilled: 1}"
  {
    SubAFragments(fl, fmts);
    SubALiteral();
  }

  lemma SubBShape(x: string)
    ensures "pretty.b" + "{" + ("a" + ": " + x) + "}" == "pretty.b{a: " + x + "}"
  {
  }

  lemma SubBLiteral()
    ensures "pretty.b{a: " + "pretty.a{myIntFilled: 1}" + "}" == "pretty.b{a: pretty.a{myIntFilled: 1}}"
  {
  }

  lemma SubBText(fl: Flags, fmts: Formatters)
    ensures ChildStruct(SubB, fl, fmts) == "pretty.b{a: pretty.a{myIntFilled: 1}}"
  {
    var a := ChildStruct(SubA, FieldFlags(fl, SubB.fields[0]), fmts);
    SubAText(FieldFlags(fl, SubB.fields[0]), fmts);
    assert FieldText(SubB.fields[0], fl, fmts) == a;
    assert a != "";
    assert Fragments(SubB, fl, fmts, 0) == [];
    assert Fragments(SubB, fl, fmts, 1) == ["a" + ": " + a];
    assert ChildStruct(SubB, fl, fmts) == "pretty.b" + "{" + ("a" + ": " + a) + "}";
    SubBShape(a);
    SubBLiteral();
  }

  lemma SubCShape(x: string)
    ensures "c" + "{" + ("b" + ": " + x) + "}" == "c{b: " + x + "}"
  {
  }

  lemma SubCLiteral()
    ensures "c{b: " + "pretty.b{a: pretty.a{myIntFilled: 1}}" + "}" == "c{b: pretty.b{a: pretty.a{myIntFilled: 1}}}"
  {
  }

  lemma ExampleStructWithSubStructs(fmts: Formatters)
    ensures Rendered(SubC, fmts) == "c{b: pretty.b{a: pretty.a{myIntFilled: 1}}}"
  {
    var b := ChildStruct(SubB, FieldFlags(Fresh, SubC.fields[0]), fmts);
    SubBText(FieldFlags(Fresh, SubC.fields[0]), fmts);
    assert FieldText(SubC.fields[0], Fresh, fmts) == b;
    assert b != "";
    assert Fragments(SubC, Fresh, fmts, 0) == [];
    assert Fragments(SubC, Fresh, fmts, 1) == ["b" + ": " + b];
    assert Rendered(SubC, fmts) == "c" + "{" + ("b" + ": " + b) + "}";
    SubCShape(b);
    SubCLiteral();
  }

  // **MyStruct, whose fields are those of SubA
  const Filled := Struct("MyStruct", "pretty.MyStruct", SubA.fields)

  lemma FilledShape(x: string)
    ensures "MyStruct" + "{" + x + "}" == "MyStruct{" + x + "}"
  {
  }

  lemma FilledLiteral()
    ensures "**" + ("MyStruct{" + "myIntFilled: 1" + "}") == "**MyStruct{myIntFilled: 1}"
  {
  }

  lemma ExamplePointerStruct(fmts: Formatters)
    ensures Rendered(Ptr("**pretty.MyStruct", "", Some(Ptr("*pretty.MyStruct", "MyStruct", Some(Filled)))), fmts)
            == "**MyStruct{myIntFilled: 1}"
  {
    var v := Ptr("**pretty.MyStruct", "", Some(Ptr("*pretty.MyStruct", "MyStruct", Some(Filled))));
    assert Derefs(v, 2) == Some(Filled);
    PointerStars(v, 2, Filled, fmts);
    assert Stars(2) == "**";
    FragmentsSameFields(Filled, SubA, Fresh, fmts, 2);
    SubAFragments(Fresh, fmts);
    var inner := "myIntFilled" + ": " + "1";
    assert Rendered(Filled, fmts) == "MyStruct" + "{" + inner + "}";
    FilledShape(inner);
    assert inner == "myIntFilled: 1";
    FilledLiteral();
  }

  lemma ExamplePointerEmptyString(fmts: Formatters)
    ensures Rendered(Ptr("*string", "string", Some(Str(""))), fmts) == "*string{}"
  {
  }

  // A struct of twelve zero fields, half of them nil pointers.
  const AllZero := Struct("MyStruct", "pretty.MyStruct", [
    Field("a", false, Str("")), Field("b", false, Ptr("*string", "string", None)),
    Field("c", false, Int(Plain, 0)), Field("d", false, Ptr("*int", "int", None)),
    Field("e", false, Bool(false)), Field("f", false, Ptr("*bool", "bool", None)),
    Field("g", false, Int(Bits64, 0)), Field("h", false, Ptr("*int64", "int64", None)),
    Field("i", false, Uint(0)), Field("j", false, Ptr("*uint", "uint", None)),
    Field("k", false, Float64("0", true)), Field("l", false, Ptr("*float64", "float64", None))])

  lemma ExampleEmptyStructFieldsOmitted(fmts: Formatters)
    ensures Rendered(AllZero, fmts) == "MyStruct{}"
  {
    AllZeroStruct(AllZero, fmts);
  }

  // []interface{}{0, nil, &zero, (*int)(nil)}
  const Interfaces := Slice("[]interface {}", false, [
    Iface(Int(Plain, 0)), Iface(Nil),
    Iface(Ptr("*int", "int", Some(Int(Plain, 0)))), Iface(Ptr("*int", "int", None))])

  lemma InterfacesTexts(fmts: Formatters)
    ensures ElementTexts(Interfaces, fmts, 4) == ["int" + "{" + "0" + "}", "nil", "*" + ("int" + "{" + "0" + "}"), "*int" + "{nil}"]
  {
  }

  lemma InterfacesJoin(a: string, b: string, c: string, d: string)
    ensures Join([a, b, c, d], ", ") == a + ", " + b + ", " + c + ", " + d
  {
    JoinSnoc([a], b, ", ");
    assert [a] + [b] == [a, b];
    JoinSnoc([a, b], c, ", ");
    assert [a, b] + [c] == [a, b, c];
    JoinSnoc([a, b, c], d, ", ");
    assert [a, b, c] + [d] == [a, b, c, d];
  }

  lemma InterfacesLiteral()
    ensures "[]interface {}" + ": [" + (("int" + "{" + "0" + "}") + ", " + "nil" + ", " + ("*" + ("int" + "{" + "0" + "}")) + ", " + ("*int" + "{nil}")) + "]"
            == "[]interface {}: [int{0}, nil, *int{0}, *int{nil}]"
  {
  }

  lemma ExampleSliceOfInterfaces(fmts: Formatters)
    ensures Rendered(Interfaces, fmts) == "[]interface {}: [int{0}, nil, *int{0}, *int{nil}]"
  {
    InterfacesTexts(fmts);
    InterfacesJoin("int" + "{" + "0" + "}", "nil", "*" + ("int" + "{" + "0" + "}"), "*int" + "{nil}");
    InterfacesLiteral();
  }

  /** Stands for time.Date(2010, 7, 20, ...): a time.Time with its unexported
      fields wall, ext and loc. The field values are arbitrary non-zero
      stand-ins, not Go's encoding of that date; the renderer only asks whether
      the value is zero, and its text comes from the formatters. */
  const Date := Struct("Time", "time.Time", [
    Field("wall", false, Other("uint64", "100000", false)),
    Field("ext", false, Int(Bits64, 63416765594)),
    Field("loc", false, Ptr("*time.Location", "Location", None))])

  // struct { date time.Time; date2 *time.Time; date3 *time.Time }{date, &date, nil}
  const Anonymous := Struct("", "struct { date time.Time; date2 *time.Time; date3 *time.Time }", [
    Field("date", false, Date),
    Field("date2", false, Ptr("*time.Time", "Time", Some(Date))),
    Field("date3", false, Ptr("*time.Time", "Time", None))])

  lemma AnonymousFragments(fmts: Formatters)
    ensures Fragments(Anonymous, Fresh, fmts, 3) == ["date" + ": " + "unexported date", "date2" + ": " + "unexported date"]
  {
    assert !IsZero(Date) by { assert !IsZero(Date.fields[0].value); }
    UnexportedTimeField(Anonymous.fields[0], 0, Date, Fresh, fmts);
    assert Derefs(Anonymous.fields[1].value, 1) == Some(Date);
    UnexportedTimeField(Anonymous.fields[1], 1, Date, Fresh, fmts);
    assert FieldText(Anonymous.fields[2], Fresh, fmts) == "";
    assert Fragments(Anonymous, Fresh, fmts, 0) == [];
    assert Fragments(Anonymous, Fresh, fmts, 1) == ["date" + ": " + "unexported date"];
  }

  lemma AnonymousShape(x: string)
    ensures "" + "{" + (("date" + ": " + x) + ", " + ("date2" + ": " + x)) + "}" == "{" + ("date: " + x + ", ") + ("date2: " + x) + "}"
  {
  }

  lemma AnonymousLiteral()
    ensures "date: " + "unexported date" + ", " == "date: unexported date, "
    ensures "date2: " + "unexported date" == "date2: unexported date"
  {
  }

  /** A time value given to Print goes to fmt.Sprint, behind a pointer with a
      star; inside a struct through unexported fields it is `unexported date`
      and the nil pointer field is omitted. */
  lemma ExampleTimeStamp(fmts: Formatters)
    ensures Rendered(Date, fmts) == fmts.sprint(Date)
    ensures Rendered(Ptr("*time.Time", "Time", Some(Date)), fmts) == "*" + fmts.sprint(Date)
    ensures Rendered(Anonymous, fmts) == "{" + "date: unexported date, " + "date2: unexported date" + "}"
  {
    AnonymousFragments(fmts);
    JoinSnoc(["date" + ": " + "unexported date"], "date2" + ": " + "unexported date", ", ");
    assert ["date" + ": " + "unexported date"] + ["date2" + ": " + "unexported date"]
        == ["date" + ": " + "unexported date", "date2" + ": " + "unexported date"];
    AnonymousShape("unexported date");
    AnonymousLiteral();
  }

  /** Stands for time.Date(2020, 1, 1, 1, 1, 1, 1, time.UTC), with arbitrary
      non-zero stand-ins for its unexported fields, and the zero time, whose
      fields are all zero. */
  const Date2020 := Struct("Time", "time.Time", [
    Field("wall", false, Other("uint64", "1", false)),
    Field("ext", false, Int(Bits64, 63713062861)),
    Field("loc", false, Ptr("*time.Location", "Location", None))])
  const ZeroTime := Struct("Time", "time.Time", [
    Field("wall", false, Other("uint64", "0", true)),
    Field("ext", false, Int(Bits64, 0)),
    Field("loc", false, Ptr("*time.Location", "Location", None))])

  // gorm.DeletedAt{Time: date, Valid: false}
  const DeletedAt := Struct("DeletedAt", "gorm.DeletedAt", [
    Field("Time", false, Date2020), Field("Valid", false, Bool(false))])
  // gorm.Model{ID: 0, CreatedAt: date, UpdatedAt: date, DeletedAt: ...}
  const Model := Struct("Model", "gorm.Model", [
    Field("ID", false, Uint(0)), Field("CreatedAt", false, Date2020),
    Field("UpdatedAt", false, Date2020), Field("DeletedAt", false, DeletedAt)])
  // testStruct{gorm.Model; t, tNil time.Time; pT, pNilT *time.Time}
  const WithModel := Struct("testStruct", "pretty.testStruct", [
    Field("Model", true, Model), Field("t", false, Date2020), Field("tNil", false, ZeroTime),
    Field("pT", false, Ptr("*time.Time", "Time", Some(Date2020))),
    Field("pNilT", false, Ptr("*time.Time", "Time", None))])

  lemma Date2020NotZero()
    ensures !IsZero(Date2020)
  {
    assert !IsZero(Date2020.fields[0].value);
  }

  lemma DeletedAtFragments(fl: Flags, fmts: Formatters)
    requires CanInterface(fl) && fmts.rfc3339(Date2020) != ""
    ensures Fragments(DeletedAt, fl, fmts, 2) == ["Time" + ": " + fmts.rfc3339(Date2020)]
  {
    Date2020NotZero();
    ExportedTimeField(DeletedAt.fields[0], 0, Date2020, fl, fmts);
    assert FieldText(DeletedAt.fields[1], fl, fmts) == "";
    assert Fragments(DeletedAt, fl, fmts, 0) == [];
  }

  lemma DeletedAtText(fl: Flags, fmts: Formatters)
    requires CanInterface(fl) && fmts.rfc3339(Date2020) != ""
    ensures ChildStruct(DeletedAt, fl, fmts) == "gorm.DeletedAt{Time: " + fmts.rfc3339(Date2020) + "}"
  {
    DeletedAtFragments(fl, fmts);
  }

  lemma ModelTexts(fl: Flags, fmts: Formatters)
    requires CanInterface(fl) && fmts.rfc3339(Date2020) != ""
    ensures FieldText(Model.fields[0], fl, fmts) == ""
    ensures FieldText(Model.fields[1], fl, fmts) == fmts.rfc3339(Date2020)
    ensures FieldText(Model.fields[2], fl, fmts) == fmts.rfc3339(Date2020)
    ensures FieldText(Model.fields[3], fl, fmts) == ChildStruct(DeletedAt, fl, fmts) != ""
  {
    Date2020NotZero();
    ExportedTimeField(Model.fields[1], 0, Date2020, fl, fmts);
    ExportedTimeField(Model.fields[2], 0, Date2020, fl, fmts);
    DeletedAtText(fl, fmts);
  }

  lemma ModelFragments(fl: Flags, fmts: Formatters)
    requires CanInterface(fl) && fmts.rfc3339(Date2020) != ""
    ensures var r := fmts.rfc3339(Date2020);
            Fragments(Model, fl, fmts, 4)
            == ["CreatedAt" + ": " + r, "UpdatedAt" + ": " + r, "DeletedAt" + ": " + ChildStruct(DeletedAt, fl, fmts)]
  {
    var r := fmts.rfc3339(Date2020);
    ModelTexts(fl, fmts);
    assert Fragments(Model, fl, fmts, 1) == [];
    assert Fragments(Model, fl, fmts, 2) == ["CreatedAt" + ": " + r];
    assert Fragments(Model, fl, fmts, 3) == ["CreatedAt" + ": " + r, "UpdatedAt" + ": " + r];
  }

  lemma Join3(a: string, b: string, c: string)
    ensures Join([a, b, c], ", ") == a + ", " + b + ", " + c
  {
    JoinSnoc([a], b, ", ");
    assert [a] + [b] == [a, b];
    JoinSnoc([a, b], c, ", ");
    assert [a, b] + [c] == [a, b, c];
  }

  lemma ModelShape(r: string, d: string)
    ensures "gorm.Model" + "{" + (("CreatedAt" + ": " + r) + ", " + ("UpdatedAt" + ": " + r) + ", " + ("DeletedAt" + ": " + d)) + "}"
            == "gorm.Model{CreatedAt: " + r + ", UpdatedAt: " + r + ", DeletedAt: " + d + "}"
  {
  }

  lemma ModelText(fl: Flags, fmts: Formatters)
    requires CanInterface(fl) && fmts.rfc3339(Date2020) != ""
    ensures var r := fmts.rfc3339(Date2020);
            ChildStruct(Model, fl, fmts)
            == "gorm.Model{CreatedAt: " + r + ", UpdatedAt: " + r + ", DeletedAt: " + ("gorm.DeletedAt{Time: " + r + "}") + "}"
  {
    var r := fmts.rfc3339(Date2020);
    var d := ChildStruct(DeletedAt, fl, fmts);
    ModelFragments(fl, fmts);
    Join3("CreatedAt" + ": " + r, "UpdatedAt" + ": " + r, "DeletedAt" + ": " + d);
    ModelShape(r, d);
    DeletedAtText(fl, fmts);
  }

  lemma WithModelEmbedded(fmts: Formatters)
    requires fmts.rfc3339(Date2020) != ""
    ensures FieldText(WithModel.fields[0], Fresh, fmts) == ChildStruct(Model, Fresh, fmts) != ""
  {
    assert FieldFlags(Fresh, WithModel.fields[0]) == Fresh;
    ModelText(Fresh, fmts);
  }

  lemma WithModelUnexported(fmts: Formatters)
    ensures FieldText(WithModel.fields[1], Fresh, fmts) == "unexported date"
    ensures FieldText(WithModel.fields[3], Fresh, fmts) == "unexported date"
  {
    Date2020NotZero();
    UnexportedTimeField(WithModel.fields[1], 0, Date2020, Fresh, fmts);
    assert Derefs(WithModel.fields[3].value, 1) == Some(Date2020);
    UnexportedTimeField(WithModel.fields[3], 1, Date2020, Fresh, fmts);
  }

  lemma WithModelOmitted(fmts: Formatters)
    ensures FieldText(WithModel.fields[2], Fresh, fmts) == ""
    ensures FieldText(WithModel.fields[4], Fresh, fmts) == ""
  {
    assert IsZero(ZeroTime);
  }

  lemma WithModelFragments(fmts: Formatters)
    requires fmts.rfc3339(Date2020) != ""
    ensures Fragments(WithModel, Fresh, fmts, 5)
            == ["Model" + ": " + ChildStruct(Model, Fresh, fmts), "t" + ": " + "unexported date", "pT" + ": " + "unexported date"]
  {
    var m := ChildStruct(Model, Fresh, fmts);
    WithModelEmbedded(fmts);
    WithModelUnexported(fmts);
    WithModelOmitted(fmts);
    assert Fragments(WithModel, Fresh, fmts, 0) == [];
    assert Fragments(WithModel, Fresh, fmts, 1) == ["Model" + ": " + m];
    assert Fragments(WithModel, Fresh, fmts, 2) == ["Model" + ": " + m, "t" + ": " + "unexported date"];
    assert Fragments(WithModel, Fresh, fmts, 3) == ["Model" + ": " + m, "t" + ": " + "unexported date"];
  }

  lemma WithModelShape(m: string, u: string)
    ensures "testStruct" + "{" + (("Model" + ": " + m) + ", " + ("t" + ": " + u) + ", " + ("pT" + ": " + u)) + "}"
            == "testStruct{Model: " + m + ", t: " + u + ", pT: " + u + "}"
  {
  }

  lemma WithModelRegroup(m: string, u: string)
    ensures "testStruct{Model: " + m + ", t: " + u + ", pT: " + u + "}" == "testStruct{Model: " + m + (", t: " + u + ", pT: " + u + "}")
  {
  }

  lemma WithModelLiteral()
    ensures ", t: " + "unexported date" + ", pT: " + "unexported date" + "}" == ", t: unexported date, pT: unexported date}"
  {
  }

  /** An embedded exported gorm.Model keeps its time fields readable, so they
      are formatted as RFC 3339; the unexported time fields are
      `unexported date`; the zero time and the nil pointer are omitted. */
  lemma ExampleStructWithSqlNullTime(fmts: Formatters)
    requires fmts.rfc3339(Date2020) != ""
    ensures var r := fmts.rfc3339(Date2020);
            Rendered(WithModel, fmts)
            == "testStruct{Model: "
               + ("gorm.Model{CreatedAt: " + r + ", UpdatedAt: " + r + ", DeletedAt: " + ("gorm.DeletedAt{Time: " + r + "}") + "}")
               + ", t: unexported date, pT: unexported date}"
  {
    var m := ChildStruct(Model, Fresh, fmts);
    WithModelFragments(fmts);
    Join3("Model" + ": " + m, "t" + ": " + "unexported date", "pT" + ": " + "unexported date");
    WithModelShape(m, "unexported date");
    WithModelRegroup(m, "unexported date");
    WithModelLiteral();
    ModelText(Fresh, fmts);
  }

  // MyStruct{a: 1, b: "hello", c: 0, d: ""}
  const PrivateFields := Struct("MyStruct", "pretty.MyStruct", [
    Field("a", false, Int(Plain, 1)), Field("b", false, Str("hello")),
    Field("c", false, Int(Plain, 0)), Field("d", false, Str(""))])

  lemma PrivateFieldsFragments(fmts: Formatters)
    ensures Fragments(PrivateFields, Fresh, fmts, 4) == ["a" + ": " + "1", "b" + ": " + "'hello'"]
  {
    var v := PrivateFields;
    DecimalOne();
    assert FieldText(v.fields[0], Fresh, fmts) == "1";
    assert FieldText(v.fields[1], Fresh, fmts) == "'hello'";
    assert FieldText(v.fields[2], Fresh, fmts) == "";
    assert FieldText(v.fields[3], Fresh, fmts) == "";
    assert Fragments(v, Fresh, fmts, 0) == [];
  }

  lemma PrivateFieldsLiteral()
    ensures "MyStruct" + "{" + (("a" + ": " + "1") + ", " + ("b" + ": " + "'hello'")) + "}" == "MyStruct{a: 1, b: 'hello'}"
  {
  }

  lemma ExampleStructWithPrivateFields(fmts: Formatters)
    ensures Rendered(PrivateFields, fmts) == "MyStruct{a: 1, b: 'hello'}"
  {
    PrivateFieldsFragments(fmts);
    JoinSnoc(["a" + ": " + "1"], "b" + ": " + "'hello'", ", ");
    assert ["a" + ": " + "1"] + ["b" + ": " + "'hello'"] == ["a" + ": " + "1", "b" + ": " + "'hello'"];
    PrivateFieldsLiteral();
  }

  lemma StringsShape(x: string, y: string)
    ensures "[]string" + ": [" + (("string" + "{" + x + "}") + ", " + ("string" + "{" + y + "}")) + "]"
            == "[]string: [string{" + x + "}, string{" + y + "}]"
  {
  }

  lemma StringsLiteral()
    ensures "[]string: [string{" + "1" + "}, string{" + "2" + "}]" == "[]string: [string{1}, string{2}]"
  {
  }

  lemma ExampleSliceOfStrings(fmts: Formatters)
    ensures Rendered(Slice("[]string", false, [Str("1"), Str("2")]), fmts) == "[]string: [string{1}, string{2}]"
  {
    SliceOfTwo("[]string", false, Str("1"), Str("2"), fmts);
    StringsShape("1", "2");
    StringsLiteral();
  }

  // []Temp{{a: 1, b: &s}, {a: -1, c: true}} with s = "hello"
  const Temp1 := Struct("Temp", "pretty.Temp", [
    Field("a", false, Int(Plain, 1)), Field("b", false, Ptr("*string", "string", Some(Str("hello")))),
    Field("c", false, Bool(false))])
  const Temp2 := Struct("Temp", "pretty.Temp", [
    Field("a", false, Int(Plain, -1)), Field("b", false, Ptr("*string", "string", None)),
    Field("c", false, Bool(true))])

  lemma Temp1Fragments(fmts: Formatters)
    ensures Fragments(Temp1, Fresh, fmts, 3) == ["a" + ": " + "1", "b" + ": " + "'hello'"]
  {
    DecimalOne();
    assert FieldText(Temp1.fields[0], Fresh, fmts) == "1";
    assert FieldText(Temp1.fields[1], Fresh, fmts) == "'hello'";
    assert FieldText(Temp1.fields[2], Fresh, fmts) == "";
    assert Fragments(Temp1, Fresh, fmts, 0) == [];
  }

  lemma Temp2Fragments(fmts: Formatters)
    ensures Fragments(Temp2, Fresh, fmts, 3) == ["a" + ": " + "-1", "c" + ": " + "true"]
  {
    assert Decimal(-1) == "-" + "1" == "-1" by { DecimalOne(); }
    assert FieldText(Temp2.fields[0], Fresh, fmts) == "-1";
    assert FieldText(Temp2.fields[1], Fresh, fmts) == "";
    assert FieldText(Temp2.fields[2], Fresh, fmts) == "true";
    assert Fragments(Temp2, Fresh, fmts, 0) == [];
  }

  lemma Temp1Shape(x: string, y: string)
    ensures "Temp" + "{" + (("a" + ": " + x) + ", " + ("b" + ": " + y)) + "}" == "Temp{a: " + x + ", b: " + y + "}"
  {
  }

  lemma Temp2Shape(x: string, y: string)
    ensures "Temp" + "{" + (("a" + ": " + x) + ", " + ("c" + ": " + y)) + "}" == "Temp{a: " + x + ", c: " + y + "}"
  {
  }

  lemma TempElementsLiteral()
    ensures "Temp{a: " + "1" + ", b: " + "'hello'" + "}" == "Temp{a: 1, b: 'hello'}"
    ensures "Temp{a: " + "-1" + ", c: " + "true" + "}" == "Temp{a: -1, c: true}"
  {
  }

  lemma Temp1Text(fmts: Formatters)
    ensures Rendered(Temp1, fmts) == "Temp{a: 1, b: 'hello'}"
  {
    Temp1Fragments(fmts);
    JoinSnoc(["a" + ": " + "1"], "b" + ": " + "'hello'", ", ");
    assert ["a" + ": " + "1"] + ["b" + ": " + "'hello'"] == ["a" + ": " + "1", "b" + ": " + "'hello'"];
    Temp1Shape("1", "'hello'");
    TempElementsLiteral();
  }

  lemma Temp2Text(fmts: Formatters)
    ensures Rendered(Temp2, fmts) == "Temp{a: -1, c: true}"
  {
    Temp2Fragments(fmts);
    JoinSnoc(["a" + ": " + "-1"], "c" + ": " + "true", ", ");
    assert ["a" + ": " + "-1"] + ["c" + ": " + "true"] == ["a" + ": " + "-1", "c" + ": " + "true"];
    Temp2Shape("-1", "true");
    TempElementsLiteral();
  }

  lemma TempsShape(x: string, y: string)
    ensures "[]pretty.Temp" + ": [" + (x + ", " + y) + "]" == "[]pretty.Temp: [" + x + ", " + y + "]"
  {
  }

  lemma ExampleSliceOfStructs(fmts: Formatters)
    ensures Rendered(Slice("[]pretty.Temp", false, [Temp1, Temp2]), fmts)
            == "[]pretty.Temp: [" + "Temp{a: 1, b: 'hello'}" + ", " + "Temp{a: -1, c: true}" + "]"
  {
    SliceOfTwo("[]pretty.Temp", false, Temp1, Temp2, fmts);
    Temp1Text(fmts);
    Temp2Text(fmts);
    TempsShape("Temp{a: 1, b: 'hello'}", "Temp{a: -1, c: true}");
  }

  // testStruct{} embedding a zero gorm.Model
  const ZeroDeletedAt := Struct("DeletedAt", "gorm.DeletedAt", [
    Field("Time", false, ZeroTime), Field("Valid", false, Bool(false))])
  const ZeroModel := Struct("Model", "gorm.Model", [
    Field("ID", false, Uint(0)), Field("CreatedAt", false, ZeroTime),
    Field("UpdatedAt", false, ZeroTime), Field("DeletedAt", false, ZeroDeletedAt)])
  const EmptyModel := Struct("testStruct", "pretty.testStruct", [Field("Model", true, ZeroModel)])

  lemma ExampleGormModelWithEmptyFields(fmts: Formatters)
    ensures Rendered(EmptyModel, fmts) == "testStruct{}"
  {
    assert IsZero(ZeroTime);
    assert IsZero(ZeroDeletedAt);
    assert IsZero(ZeroModel);
    AllZeroStruct(EmptyModel, fmts);
  }

  // MyStruct{a: "a", b: &"", c: 1, d: &0, e: true, f: &false}, first half
  const FirstHalf := Struct("MyStruct", "pretty.MyStruct", [
    Field("a", false, Str("a")), Field("b", false, Ptr("*string", "string", Some(Str("")))),
    Field("c", false, Int(Plain, 1)), Field("d", false, Ptr("*int", "int", Some(Int(Plain, 0)))),
    Field("e", false, Bool(true)), Field("f", false, Ptr("*bool", "bool", Some(Bool(false))))])
  // ... g: 1, h: &0, i: 1, j: &0, k: 0.1, l: &0.0, second half
  const SecondHalf := Struct("MyStruct", "pretty.MyStruct", [
    Field("g", false, Int(Bits64, 1)), Field("h", false, Ptr("*int64", "int64", Some(Int(Bits64, 0)))),
    Field("i", false, Uint(1)), Field("j", false, Ptr("*uint", "uint", Some(Uint(0)))),
    Field("k", false, Float64("0.1", false)), Field("l", false, Ptr("*float64", "float64", Some(Float64("0", true))))])
  const FilledAll := Struct("MyStruct", "pretty.MyStruct", FirstHalf.fields + SecondHalf.fields)

  lemma FirstHalfTexts(fmts: Formatters)
    ensures FieldText(FirstHalf.fields[0], Fresh, fmts) == "'a'"
    ensures FieldText(FirstHalf.fields[1], Fresh, fmts) == "''"
    ensures FieldText(FirstHalf.fields[2], Fresh, fmts) == "1"
    ensures FieldText(FirstHalf.fields[3], Fresh, fmts) == "0"
    ensures FieldText(FirstHalf.fields[4], Fresh, fmts) == "true"
    ensures FieldText(FirstHalf.fields[5], Fresh, fmts) == "false"
  {
    DecimalOne();
  }

  lemma FirstHalfFirstThree(fmts: Formatters)
    ensures Fragments(FirstHalf, Fresh, fmts, 3) == ["a: 'a'", "b: ''", "c: 1"]
  {
    var v := FirstHalf;
    FirstHalfTexts(fmts);
    assert Fragments(v, Fresh, fmts, 0) == [];
    assert "a" + ": " + "'a'" == "a: 'a'";
    assert Fragments(v, Fresh, fmts, 1) == ["a: 'a'"];
    assert "b" + ": " + "''" == "b: ''";
    assert Fragments(v, Fresh, fmts, 2) == ["a: 'a'", "b: ''"];
    assert "c" + ": " + "1" == "c: 1";
  }

  lemma FirstHalfFragments(fmts: Formatters)
    ensures Fragments(FirstHalf, Fresh, fmts, 6) == ["a: 'a'", "b: ''", "c: 1", "d: 0", "e: true", "f: false"]
  {
    var v := FirstHalf;
    FirstHalfTexts(fmts);
    FirstHalfFirstThree(fmts);
    assert "d" + ": " + "0" == "d: 0";
    assert Fragments(v, Fresh, fmts, 4) == ["a: 'a'", "b: ''", "c: 1", "d: 0"];
    assert "e" + ": " + "true" == "e: true";
    assert Fragments(v, Fresh, fmts, 5) == ["a: 'a'", "b: ''", "c: 1", "d: 0", "e: true"];
    assert "f" + ": " + "false" == "f: false";
  }

  lemma SecondHalfTexts(fmts: Formatters)
    ensures FieldText(SecondHalf.fields[0], Fresh, fmts) == "1"
    ensures FieldText(SecondHalf.fields[1], Fresh, fmts) == "0"
    ensures FieldText(SecondHalf.fields[2], Fresh, fmts) == "1"
    ensures FieldText(SecondHalf.fields[3], Fresh, fmts) == "0"
    ensures FieldText(SecondHalf.fields[4], Fresh, fmts) == "0.1"
    ensures FieldText(SecondHalf.fields[5], Fresh, fmts) == "0"
  {
    DecimalOne();
  }

  lemma SecondHalfFirstThree(fmts: Formatters)
    ensures Fragments(SecondHalf, Fresh, fmts, 3) == ["g: 1", "h: 0", "i: 1"]
  {
    var v := SecondHalf;
    SecondHalfTexts(fmts);
    assert Fragments(v, Fresh, fmts, 0) == [];
    assert "g" + ": " + "1" == "g: 1";
    assert Fragments(v, Fresh, fmts, 1) == ["g: 1"];
    assert "h" + ": " + "0" == "h: 0";
    assert Fragments(v, Fresh, fmts, 2) == ["g: 1", "h: 0"];
    assert "i" + ": " + "1" == "i: 1";
  }

  lemma SecondHalfFragments(fmts: Formatters)
    ensures Fragments(SecondHalf, Fresh, fmts, 6) == ["g: 1", "h: 0", "i: 1", "j: 0", "k: 0.1", "l: 0"]
  {
    var v := SecondHalf;
    SecondHalfTexts(fmts);
    SecondHalfFirstThree(fmts);
    assert "j" + ": " + "0" == "j: 0";
    assert Fragments(v, Fresh, fmts, 4) == ["g: 1", "h: 0", "i: 1", "j: 0"];
    assert "k" + ": " + "0.1" == "k: 0.1";
    assert Fragments(v, Fresh, fmts, 5) == ["g: 1", "h: 0", "i: 1", "j: 0", "k: 0.1"];
    assert "l" + ": " + "0" == "l: 0";
  }

  /** Every field of a filled struct is shown, pointers to zero values
      included, in declaration order. */
  lemma ExampleFilledStructFieldsPrinted(fmts: Formatters)
    ensures Fragments(FilledAll, Fresh, fmts, 12)
            == ["a: 'a'", "b: ''", "c: 1", "d: 0", "e: true", "f: false"]
               + ["g: 1", "h: 0", "i: 1", "j: 0", "k: 0.1", "l: 0"]
  {
    assert |FirstHalf.fields| == 6;
    FragmentsAppend(FilledAll, FirstHalf, SecondHalf, Fresh, fmts, 6);
    FirstHalfFragments(fmts);
    SecondHalfFragments(fmts);
  }

  /** The filled struct renders as its name around the join of those fragments. */
  lemma FilledAllRendered(frags: seq<string>, fmts: Formatters)
    requires Fragments(FilledAll, Fresh, fmts, 12) == frags
    ensures Rendered(FilledAll, fmts) == "MyStruct{" + Join(frags, ", ") + "}"
  {
    assert |FilledAll.fields| == 12;
  }

  /** Six parts joined: each neighbouring pair separated once. */
  lemma Join6(a: string, b: string, c: string, d: string, e: string, f: string, sep: string)
    ensures Join([a, b, c, d, e, f], sep) == a + sep + b + sep + c + sep + d + sep + e + sep + f
  {
    JoinSnoc([a], b, sep);
    assert [a] + [b] == [a, b];
    JoinSnoc([a, b], c, sep);
    assert [a, b] + [c] == [a, b, c];
    JoinSnoc([a, b, c], d, sep);
    assert [a, b, c] + [d] == [a, b, c, d];
    JoinSnoc([a, b, c, d], e, sep);
    assert [a, b, c, d] + [e] == [a, b, c, d, e];
    JoinSnoc([a, b, c, d, e], f, sep);
    assert [a, b, c, d, e] + [f] == [a, b, c, d, e, f];
  }

  /** The two halves joined, then wrapped in the struct's head. */
  lemma HalvesShape(x: seq<string>, y: seq<string>, jx: string, jy: string)
    requires x != [] && y != [] && Join(x, ", ") == jx && Join(y, ", ") == jy
    ensures "MyStruct{" + Join(x + y, ", ") + "}" == "MyStruct{" + jx + ", " + jy + "}"
  {
    JoinAppend(x, y, ", ");
  }

  /** The text TestFilledStructFieldsPrinted expects, piece by piece as the
      test writes it. */
  lemma ExampleFilledStructRendered(fmts: Formatters)
    ensures Rendered(FilledAll, fmts)
            == "MyStruct{" + ("a: 'a'" + ", " + "b: ''" + ", " + "c: 1" + ", " + "d: 0" + ", " + "e: true" + ", " + "f: false")
               + ", " + ("g: 1" + ", " + "h: 0" + ", " + "i: 1" + ", " + "j: 0" + ", " + "k: 0.1" + ", " + "l: 0") + "}"
  {
    var first := ["a: 'a'", "b: ''", "c: 1", "d: 0", "e: true", "f: false"];
    var second := ["g: 1", "h: 0", "i: 1", "j: 0", "k: 0.1", "l: 0"];
    ExampleFilledStructFieldsPrinted(fmts);
    FilledAllRendered(first + second, fmts);
    Join6("a: 'a'", "b: ''", "c: 1", "d: 0", "e: true", "f: false", ", ");
    Join6("g: 1", "h: 0", "i: 1", "j: 0", "k: 0.1", "l: 0", ", ");
    HalvesShape(first, second, Join(first, ", "), Join(second, ", "));
  }
}
