# pretty: a verified model of a reflective Go value printer

The Go package `pretty` turns any value into a one-line debugging text. Its
entry point `Print` works by reflection:

- a pointer renders as `*` followed by what it points to, and a nil pointer as
  `*T{nil}`;
- a struct renders as `Name{field: value, ...}`;
- a slice renders as `[]T: [e1, e2]`;
- an absent value renders as `nil`;
- anything else renders as `kind{value}`.

Inside a struct, `getFieldValue` decides for each field whether it is shown.
Zero primitives, nil pointers and kinds it does not handle are omitted.
A string, int, int64, uint, bool or float64 reached through a pointer is
always shown. Pointers to other numeric kinds (float32, int8, uint64, ...) are
omitted, like those kinds themselves. A nested struct is formatted by
`printChildStruct` and omitted when none of its own fields is shown.
`time.Time` values get special treatment:

- a top-level struct named `Time` goes to `fmt.Sprint`;
- a nested `time.Time` is omitted when zero;
- otherwise it prints as RFC 3339 text (section 5.6 of RFC 3339) when reflection
  allows reading it;
- in every other case it prints as `unexported date`.

The project has six modules:

- `Values` (values.dfy): the shapes of Go values that reflection distinguishes.
  It also holds reflection's read-only flags. These flags decide whether a time
  value "can interface", and they follow Go's rules for unexported and embedded
  fields. Finally it holds the two foreign time formatters, which are passed in
  as function parameters.
- `Strings` (strings.dfy): `strings.Join`, `strings.TrimSuffix`, the
  `+= "..., "` accumulation, and decimal integer text with its read-back.
- `Rendering` (rendering.dfy): what the renderer produces, as functions. These
  are `Rendered` (Print), `FieldValue` (getFieldValue), `ChildStruct`
  (printChildStruct), `GetType` (getType), `Fragments` (the shown
  `name: value` fragments of a struct) and `ElementTexts`.
- `Pretty` (pretty.dfy): the renderer as the Go code computes it. The struct
  cases accumulate a `fields` string in a loop and trim the trailing `, `. The
  slice case fills an array in a loop. Each method is proved to return exactly
  what the corresponding `Rendering` function describes.
- `Properties` (properties.dfy): the behaviour the package promises, proved
  about the `Rendering` functions.
- `Examples` (examples.dfy): the expectations of `pretty_test.go`, stated on
  the model. The helper lemmas named `...Shape`, `...Literal`, `...Texts` and
  `...Fragments` compute one step of an example each.

## Model

| member | source | states |
|---|---|---|
| Rendering.Rendered | pretty.go:10-50 | The text Print returns for every value. It is empty only where the text is delegated: a struct named `Time` given to fmt.Sprint, possibly behind an interface |
| Rendering.GetType | pretty.go:85-91 | A struct's display name is its bare name. A pointer's is `*` followed by its element's name. So the `Time` test matches exactly the structs named `Time` and never a pointer |
| Rendering.Text | pretty.go:47-48 | The `%v` text of a leaf: integer texts read back as the integer, and a bool's text is `true` exactly when it is true |
| Rendering.ChildStruct | pretty.go:93-119 | A nested time is omitted iff it is zero, or it can interface and its RFC 3339 text is empty. For any other nested struct the omission law is `NestedStructOmittedIff` |
| Rendering.FieldText | pretty.go:31 | A field is formatted with `isPointer` false and the read-only marks reflect's Field gives it. The omission laws are in `FieldValue`, `ZeroOmitted` and the time lemmas |
| Values.KindName | pretty.go:48 | The reflect kind names: never empty for a modelled kind, and `int` versus `int64` decided by the integer kind |
| Values.IsZero | pretty.go:96 | reflect.Value.IsZero, exact on every time.Time value (a float64 -0.0 is not distinguished): every field of a struct is zero, a pointer is nil, a slice is nil, an interface is nil. Its consequence for fields is `ZeroOmitted` |
| Values.CanInterface | pretty.go:99 | reflect.Value.CanInterface: no read-only mark. It is characterised per field by `FieldFlags` |
| Strings.Join | pretty.go:44 | strings.Join: "" for no parts. Its length and its split over `a ++ b` are `JoinLength` and `JoinAppend` |
| Strings.JoinLength | pretty.go:44 | A join is as long as its parts plus one separator between each neighbouring pair |
| Strings.Terminated | pretty.go:29-35 | What the `+=` loop accumulates. Its relation to the join is `TerminatedIsJoinPlusSep` |
| Strings.TerminatedLength | pretty.go:29-35 | The accumulated text is as long as its parts plus one separator per part |
| Pretty.Print | pretty.go:10-50 | The loop-based renderer returns exactly `Rendered(v)` for every value: pointers, structs (accumulate, then trim), slices (array filled in order), nil, interface unwrapping and the `kind{value}` fallback |
| Pretty.GetFieldValue | pretty.go:52-83 | The switch of getFieldValue, with its `invalid` flag and its final `s == ""` test, returns exactly `FieldValue` |
| Pretty.PrintChildStruct | pretty.go:93-119 | Returns exactly `ChildStruct`: the three time.Time branches, "" when no field is shown, and otherwise `Qualified{...}` without a trailing separator |
| Pretty.AccumulateFields | pretty.go:29-35 | After the `fields +=` loop, `fields` is every shown fragment in declaration order, each followed by `, ` |
| Pretty.AccumulateStep | pretty.go:31-34 | One loop iteration appends `name: value, ` exactly when the field's text is non-empty, and nothing otherwise |
| Rendering.ElementTexts | pretty.go:40-43 | The element texts have one entry per element, and entry i is the top-level rendering of element i |
| Rendering.FieldValue | pretty.go:52-83 | A string, int, uint or bool field is omitted iff it is zero and not behind a pointer. A float64 field is omitted iff it is zero and not behind a pointer (or its text is empty). Nil pointers, and kinds outside the handled set, are omitted |
| Rendering.Fragments | pretty.go:107-113 | There are at most as many fragments as fields, and no fragment is empty |
| Values.FieldFlags | pretty.go:99-103 | A field inherits the sticky read-only mark. An unexported field is marked read-only. The field can interface iff the parent was not sticky read-only and the field is exported |
| Strings.TrimSuffix | pretty.go:36 | When `s` ends in the suffix, the result followed by the suffix is `s`; otherwise `s` is returned unchanged |
| Strings.TrimTerminatedIsJoin | pretty.go:29-37 | Appending `, ` after every fragment and then trimming one `, ` gives exactly `strings.Join(fragments, ", ")`. The accumulated text is empty iff there are no fragments |
| Strings.TerminatedIsJoinPlusSep | pretty.go:107-117 | The accumulated text is the join plus one trailing separator, or "" for no parts |
| Strings.JoinAppend | pretty.go:44 | Joining `a ++ b` is joining `a`, a separator, then joining `b` |
| Strings.Stars | pretty.go:21 | The prefix of k pointer levels is k characters, all `*` |
| Strings.Decimal | pretty.go:64-69 | Integer text is never empty, starts with `-` iff the value is negative, and is `0` iff the value is zero |
| Strings.DigitsRoundTrip | pretty.go:82 | Reading the decimal digits of n back gives n |
| Strings.NegativeRoundTrip | pretty.go:82 | The text of a negative integer reads back as that integer |
| Strings.DecimalRoundTrip | pretty.go:82 | Every integer's decimal text reads back as the integer |
| Strings.DecimalInjective | pretty.go:82 | Two integers have the same text iff they are equal |
| Properties.AbsentIsNil | pretty.go:45-46 | An absent value, and a nil interface{} element, render as `nil` |
| Properties.PointerStars | pretty.go:19-22 | Following k non-nil pointers from v to x: v renders as k stars followed by the rendering of x |
| Properties.NilPointerChain | pretty.go:19-23 | k non-nil pointers ending in a nil pointer of type T render as k stars, then T, then `{nil}` |
| Properties.LeafIsKindWrapped | pretty.go:47-48 | At the top a leaf renders as `kind{%v}` and is never omitted, even when zero (`string{}`, `bool{false}`) |
| Properties.StructHeads | pretty.go:24-38 | A top-level struct renders as `Name{...}`. A shown nested struct starts with `pkg.Name{` |
| Properties.FieldThroughPointers | pretty.go:56-61 | Through k >= 1 non-nil pointers, a field formats its target as if reached through a pointer, without adding a star |
| Properties.PrimitiveFieldShownIff | pretty.go:62-73 | A handled primitive field is shown iff it is behind a pointer or non-zero. When shown, strings are single-quoted, ints and uints are decimal, bools are `true`/`false` and floats are their `%v` text |
| Properties.PointerFieldAlwaysShown | pretty.go:56-73 | A pointer to a primitive is always shown. A pointer to "" gives `''`, and pointers to 0 and false give `0` and `false` |
| Properties.UnhandledFieldOmitted | pretty.go:76-81 | Nil pointers, slices, interfaces, absent values and other kinds (float32, int32, maps, ...) are always omitted |
| Properties.FragmentsEmptyIff | pretty.go:107-116 | A struct has no fragments iff every field's text is empty |
| Properties.NestedStructOmittedIff | pretty.go:114-118 | A nested non-time struct is omitted iff none of its fields is shown |
| Properties.PointerToEmptyStructOmitted | pretty.go:74-75 | Reaching an all-omitted struct through pointers does not force it to be shown |
| Properties.ZeroOmitted | pretty.go:52-83 | A zero value in a field not reached through a pointer is omitted, whatever its kind. This covers zero primitives, nil pointers, nil slices and interfaces, zero `Other` values, zero times, and nested structs whose fields are all zero (by induction on the value) |
| Properties.AllZeroStruct | pretty.go:24-38 | An all-zero struct, not named `Time`, renders as `Name{}` at the top |
| Properties.PointerToZeroTimeOmitted | pretty.go:56-60 | A non-nil pointer field, at any depth, to a zero time is omitted (pretty.go:96-97 returns "") |
| Properties.AllFieldsOmitted | pretty.go:28-38 | A struct with every field omitted renders as `Name{}` at the top, but is dropped when nested |
| Properties.FragmentsSameFields | pretty.go:30-35 | The fragments depend only on the fields considered |
| Properties.FragmentsAppend | pretty.go:30-35 | The fields `a ++ b` give the fragments of `a` followed by those of `b` (declaration order) |
| Properties.OmittedLastField | pretty.go:31-34 | A last field whose text is empty adds no fragment: the fragments equal those of the struct without it |
| Properties.FragmentsWithout | pretty.go:30-35 | Removing an omitted field leaves the other fragments unchanged |
| Properties.OmittedFieldInvisible | pretty.go:107-118 | Removing an omitted field changes neither the nested nor the top-level rendering |
| Properties.ElementTextAppendAt | pretty.go:41-42 | Position i of the element texts of `a ++ b` is position i of the texts of `a` followed by the texts of `b` |
| Properties.ElementTextsAppend | pretty.go:40-43 | The element texts of `a ++ b` are those of `a` followed by those of `b` |
| Properties.SliceBodyAppend | pretty.go:44 | The joined body of `a ++ b` is the body of `a`, `, `, then the body of `b` |
| Properties.SliceAppend | pretty.go:39-44 | A slice of `a ++ b` renders as `T: [` + body(a) + `, ` + body(b) + `]`, in order, each element independently |
| Properties.SliceOfTwo | pretty.go:39-44 | A two-element slice renders as `T: [r1, r2]` |
| Properties.TimeDetection | pretty.go:95-103 | A top-level struct named `Time` goes to fmt.Sprint. A nested `time.Time` is "" when zero, RFC 3339 when it can interface, and `unexported date` otherwise |
| Properties.UnexportedTimeField | pretty.go:99-103 | A non-zero time behind an unexported field, embedded or not, directly or through pointers, prints `unexported date` |
| Properties.ExportedTimeField | pretty.go:99-100 | A non-zero time reached only through exported fields and pointers prints its RFC 3339 text |
| Examples.ExampleEmptyStruct | pretty_test.go:10-13 | `MyStruct{}` |
| Examples.ExampleBools | pretty_test.go:16-20 | `bool{true}`, `bool{false}` |
| Examples.ExampleString | pretty_test.go:22-23 | `string{string}` |
| Examples.ExampleIntegers | pretty_test.go:25-38 | `int{2}`, `int64{2}`, `uint{3}` |
| Examples.ExampleOpaqueText | pretty_test.go:31-43 | `float32{3.2}`, `float64{6.4}`, `map{map[]}` from their `%v` texts |
| Examples.ExampleInterface | pretty_test.go:54-65 | `int{1}`, `string{hello world}`, `nil` |
| Examples.ExampleStructWithPublicFields | pretty_test.go:67-76 | `MyStruct{A: 1, B: 'hello'}` |
| Examples.ExampleStructWithPrivateFields | pretty_test.go:78-87 | `MyStruct{a: 1, b: 'hello'}` |
| Examples.ExampleStructWithSubStructs | pretty_test.go:89-108 | `c{b: pretty.b{a: pretty.a{myIntFilled: 1}}}` |
| Examples.ExamplePointerStruct | pretty_test.go:110-121 | `**MyStruct{myIntFilled: 1}` |
| Examples.ExamplePointerEmptyString | pretty_test.go:123-126 | `*string{}` |
| Examples.ExampleEmptyStructFieldsOmitted | pretty_test.go:128-144 | `MyStruct{}` for twelve zero or nil fields |
| Examples.ExampleFilledStructFieldsPrinted | pretty_test.go:146-197 | All twelve fragments, in order, including the pointers to zero values |
| Examples.FilledAllRendered | pretty_test.go:183-196 | The filled struct renders as `MyStruct{` + the join of its fragments + `}` |
| Examples.ExampleFilledStructRendered | pretty_test.go:183-196 | `MyStruct{a: 'a', b: '', c: 1, d: 0, e: true, f: false, g: 1, h: 0, i: 1, j: 0, k: 0.1, l: 0}` |
| Examples.ExampleSliceOfStrings | pretty_test.go:199-202 | `[]string: [string{1}, string{2}]` |
| Examples.ExampleSliceOfInterfaces | pretty_test.go:204-209 | `[]interface {}: [int{0}, nil, *int{0}, *int{nil}]` |
| Examples.ExampleSliceOfStructs | pretty_test.go:211-220 | `[]pretty.Temp: [Temp{a: 1, b: 'hello'}, Temp{a: -1, c: true}]` |
| Examples.ExampleTimeStamp | pretty_test.go:222-243 | A time value and a pointer to it go to fmt.Sprint. In the anonymous struct both unexported dates print `unexported date`, and the nil pointer is omitted |
| Examples.ExampleStructWithSqlNullTime | pretty_test.go:245-277 | The embedded exported gorm.Model shows RFC 3339 times. The unexported times print `unexported date`. The zero time and the nil pointer are omitted |
| Examples.ExampleGormModelWithEmptyFields | pretty_test.go:279-284 | `testStruct{}` for an all-zero embedded gorm.Model |

## Left out

- Cyclic and shared values are not modelled. `Value` is an inductive datatype,
  so it cannot form a cycle, and every function of the model terminates. In Go a
  pointer cycle (`type N struct{ Next *N }` with `n.Next = &n`) makes
  getFieldValue and printChildStruct recurse until the stack overflows. That is
  a fatal error, which the recover at pretty.go:11-15 does not catch.
- Go reflection is replaced by the `Value` datatype. A value records only what
  the renderer asks of it: its kind, its type names, its fields, its elements,
  its zero-ness and its read-only marks.
- Float, map and other `%v` texts are carried in the value as opaque strings,
  together with a zero flag. Go's float and map formatting is not modelled.
- `fmt.Sprint` of a top-level `Time` struct and `Time.Format(time.RFC3339)` are
  the parameters `Formatters.sprint` and `Formatters.rfc3339`. Their outputs are
  not modelled.
- The `defer`/`recover` wrapper of `Print` (pretty.go:11-15) is left out.
  Reflection's panics are not modelled, and no path of the model fails.
- `makeTime` and the type `Time` with its `String` method (pretty.go:121-159)
  are left out. They are dead code: the only call is commented out.
- The `fieldName` parameter of getFieldValue is not modelled. It is never read.
- `Values.Exported` treats a name as exported when it starts with an ASCII
  capital letter. Go also accepts Unicode upper-case letters.
- A top-level value's `String()` or `Error()` method is not modelled. At
  pretty.go:48 `%v` calls that method, so `Print(time.January)` is
  `int{January}` and `Print(time.Second)` is `int64{1s}`. The model's
  `Int(Plain, 1)` and `Int(Bits64, 1000000000)` render as `int{1}` and
  `int64{1000000000}`. Only `Other` values can carry such a text, as their
  opaque `%v` text. Fields are not affected, because pretty.go:62-73 read
  `v.Int()` and `v.String()`, which bypass the method.
- `Rendering.GetType` models both branches of getType. Its pointer branch is
  never reached from `Print`, because pretty.go:25 and pretty.go:37 call getType
  only in the struct case. Its contract states that branch anyway.
- `Values.IsZero` of a bare `Nil` is fixed to true. A bare absent value never
  sits inside a struct, so the answer is never consulted.
- The text of the non-empty map in `TestMap` (pretty_test.go:46-52) depends on
  Go's sorted map printing. It is not modelled beyond the opaque `%v` text.
- Integer widths are unbounded. The source's `int`, `int64` and `uint` texts are
  the same for every value that fits those widths.
- `Examples.ExampleStructWithSqlNullTime` requires that the RFC 3339 text of
  its date is non-empty. The real formatter always meets this.
- `Examples.ExampleTimeStamp` checks the fmt.Sprint cases only up to the
  `sprint` parameter. The texts `2010-07-20 ...` belong to Go's time formatting.
