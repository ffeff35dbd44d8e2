/** The shapes of Go values the renderer inspects through reflection, the
    read-only flags reflection attaches to values reached through unexported
    struct fields, and the foreign formatters the renderer hands values to. */
module Values {

  datatype Option<T> = None | Some(value: T)

  /** The two signed integer kinds the field formatter handles; every other
      integer width is an `Other` value. */
  datatype IntKind = Plain | Bits64

  /** A Go value as reflection sees it.
      - `Nil`: the absent value (reflect.Invalid), e.g. a nil interface{} argument.
      - `Str`, `Int`, `Uint`, `Bool`, `Float64`: the kinds string, int / int64,
        uint, bool and float64. A float carries its `%v` text and whether it is 0.
      - `Ptr`: a pointer with its type string (`*int`, `**pretty.MyStruct`), the
        Name() of its element type (empty for unnamed types) and its target.
      - `Struct`: Name() (`MyStruct`, empty for an anonymous struct), String()
        (`pretty.MyStruct`, `time.Time`) and the fields in declaration order.
      - `Slice`: its type string (`[]string`, `[]interface {}`), whether it is a
        nil slice, and its elements. Go's nil slice has no elements, so only
        `isNil ==> elems == []` describes a real slice.
      - `Iface`: a value of interface kind (a field, slice element or pointee of
        type interface{}) holding the dynamic value `dyn` (`Nil` when nil).
      - `Other`: any other kind (float32, int32, uint64, map, array, chan, ...):
        its kind name, its `%v` text and whether it is its type's zero value. */
  datatype Value =
    | Nil
    | Str(s: string)
    | Int(ikind: IntKind, i: int)
    | Uint(u: nat)
    | Bool(b: bool)
    | Float64(text: string, zero: bool)
    | Ptr(typeStr: string, elemName: string, target: Option<Value>)
    | Struct(name: string, qualified: string, fields: seq<Field>)
    | Slice(typeStr: string, isNil: bool, elems: seq<Value>)
    | Iface(dyn: Value)
    | Other(kind: string, text: string, zero: bool)

  /** A struct field: its name, whether it is embedded (anonymous), its value. */
  datatype Field = Field(name: string, embedded: bool, value: Value)

  /** reflect.Value.Kind().String() of each shape. */
  function KindName(v: Value): (r: string)
    ensures !v.Other? ==> r != ""
    ensures v.Int? ==> (r == "int" <==> v.ikind == Plain)
  {
    match v
    case Nil => "invalid"
    case Str(_) => "string"
    case Int(k, _) => if k == Plain then "int" else "int64"
    case Uint(_) => "uint"
    case Bool(_) => "bool"
    case Float64(_, _) => "float64"
    case Ptr(_, _, _) => "ptr"
    case Struct(_, _, _) => "struct"
    case Slice(_, _, _) => "slice"
    case Iface(_) => "interface"
    case Other(kind, _, _) => kind
  }

  /** reflect.Value.IsZero: the value equals its type's zero value. A bare
      `Nil` never sits inside a container (a nil interface field is
      `Iface(Nil)`), so its answer is immaterial. A `Float64` has one `zero`
      flag, which is the field formatter's `!= 0` test; reflect's IsZero
      differs on -0.0 (not zero, its bits are set), but the renderer asks
      IsZero only of time.Time values, which hold no floats. */
  function IsZero(v: Value): bool
  {
    match v
    case Nil => true
    case Str(s) => s == ""
    case Int(_, i) => i == 0
    case Uint(u) => u == 0
    case Bool(b) => !b
    case Float64(_, zero) => zero
    case Ptr(_, _, target) => target.None?
    case Struct(_, _, fields) => forall i :: 0 <= i < |fields| ==> IsZero(fields[i].value)
    case Slice(_, isNil, _) => isNil
    case Iface(dyn) => dyn == Nil
    case Other(_, _, zero) => zero
  }

  /** The read-only marks reflection keeps on a value: `stickyRO` once any
      non-embedded unexported field was crossed (inherited by everything below),
      `embedRO` when the value itself is an unexported embedded field (inherited
      through pointer dereference only). */
  datatype Flags = Flags(stickyRO: bool, embedRO: bool)

  /** The flags of a value passed to reflect.ValueOf. */
  const Fresh := Flags(false, false)

  /** A Go identifier is exported when it starts with an upper-case letter. */
  predicate Exported(name: string)
  {
    |name| > 0 && 'A' <= name[0] <= 'Z'
  }

  /** The flags reflect.Value.Field gives field `f` of a struct with flags `parent`. */
  function FieldFlags(parent: Flags, f: Field): (fl: Flags)
    ensures parent.stickyRO ==> fl.stickyRO
    ensures Exported(f.name) ==> fl.stickyRO == parent.stickyRO && !fl.embedRO
    ensures !Exported(f.name) ==> fl.stickyRO || fl.embedRO
    ensures CanInterface(fl) <==> !parent.stickyRO && Exported(f.name)
  {
    if Exported(f.name) then Flags(parent.stickyRO, false)
    else if f.embedded then Flags(parent.stickyRO, true)
    else Flags(true, false)
  }

  /** reflect.Value.CanInterface: no read-only mark. */
  predicate CanInterface(fl: Flags)
  {
    !fl.stickyRO && !fl.embedRO
  }

  /** Formatting the renderer delegates to Go's libraries: `sprint` is
      fmt.Sprint of a struct named Time passed to the renderer directly, and
      `rfc3339` is time.Time.Format(time.RFC3339) of a nested time value. */
  datatype Formatters = Formatters(sprint: Value -> string, rfc3339: Value -> string)
}
