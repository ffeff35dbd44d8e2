/** Text helpers of the renderer: Go's strings.Join and strings.TrimSuffix, the
    "append the separator after every part" accumulation the renderer's loops
    perform, the star prefix of pointer chains and decimal integer text. */
module Strings {

  /** strings.Join: the parts with `sep` between neighbours and nowhere else. */
  function Join(parts: seq<string>, sep: string): (r: string)
    ensures parts == [] ==> r == ""
  {
    if |parts| == 0 then ""
    else if |parts| == 1 then parts[0]
    else Join(parts[..|parts| - 1], sep) + sep + parts[|parts| - 1]
  }

  /** What `acc += part + sep` over every part leaves behind: each part followed
      by one separator, the last one included. */
  function Terminated(parts: seq<string>, sep: string): string
  {
    if |parts| == 0 then "" else Terminated(parts[..|parts| - 1], sep) + parts[|parts| - 1] + sep
  }

  /** The summed length of the parts. */
  function TotalLength(parts: seq<string>): nat
  {
    if |parts| == 0 then 0 else TotalLength(parts[..|parts| - 1]) + |parts[|parts| - 1]|
  }

  /** strings.TrimSuffix: drop one trailing occurrence of `suffix`, if any. */
  function TrimSuffix(s: string, suffix: string): (r: string)
    ensures |s| >= |suffix| && s[|s| - |suffix|..] == suffix ==> s == r + suffix
    ensures !(|s| >= |suffix| && s[|s| - |suffix|..] == suffix) ==> r == s
  {
    if |s| >= |suffix| && s[|s| - |suffix|..] == suffix then s[..|s| - |suffix|] else s
  }

  /** `k` copies of '*', the prefix a chain of `k` non-nil pointers adds. */
  function Stars(k: nat): (r: string)
    ensures |r| == k && forall i :: 0 <= i < k ==> r[i] == '*'
  {
    if k == 0 then "" else Stars(k - 1) + "*"
  }

  /** The character of decimal digit `d`. */
  function DigitChar(d: nat): (c: char)
    requires d < 10
    ensures '0' <= c <= '9' && c as int - '0' as int == d
  {
    "0123456789"[d]
  }

  /** Decimal digits of a natural number, most significant first. */
  function Digits(n: nat): (r: string)
    ensures |r| >= 1 && forall i :: 0 <= i < |r| ==> '0' <= r[i] <= '9'
    ensures (r[0] == '0') == (n == 0)
  {
    if n < 10 then [DigitChar(n)] else Digits(n / 10) + [DigitChar(n % 10)]
  }

  /** Go's base-10 integer text (strconv.FormatInt): a minus sign for negative
      values, then the digits of the magnitude; never empty. */
  function Decimal(i: int): (r: string)
    ensures r != ""
    ensures (r[0] == '-') == (i < 0)
    ensures r == "0" <==> i == 0
  {
    if i < 0 then "-" + Digits(-i) else Digits(i)
  }

  /** The number a string of decimal digits denotes, read most significant
      digit first (the reading direction of Digits). */
  function DigitsValue(s: string): nat
  {
    if |s| == 0 then 0
    else
      var c := s[|s| - 1];
      DigitsValue(s[..|s| - 1]) * 10 + (if '0' <= c <= '9' then c as int - '0' as int else 0)
  }

  /** The integer a Decimal text denotes: an optional minus sign, then digits. */
  function DecimalValue(s: string): int
  {
    if |s| > 0 && s[0] == '-' then -(DigitsValue(s[1..]) as int) else DigitsValue(s)
  }

  /** Reading the digits of `n` back gives `n`. */
  lemma {:induction false} DigitsRoundTrip(n: nat)
    ensures DigitsValue(Digits(n)) == n
  {
    var r := Digits(n);
    if n >= 10 {
      DigitsRoundTrip(n / 10);
      assert r[..|r| - 1] == Digits(n / 10);
    }
  }

  /** The text of a negative integer reads back as that integer. */
  lemma NegativeRoundTrip(i: int)
    requires i < 0
    ensures DecimalValue(Decimal(i)) == i
  {
    var n: nat := -i;
    var d := Digits(n);
    DigitsRoundTrip(n);
    assert Decimal(i) == "-" + d;
    assert Decimal(i)[1..] == d;
  }

  /** Decimal loses nothing: its text reads back as the integer. */
  lemma DecimalRoundTrip(i: int)
    ensures DecimalValue(Decimal(i)) == i
  {
    if i < 0 {
      NegativeRoundTrip(i);
    } else {
      DigitsRoundTrip(i);
    }
  }

  /** Distinct integers have distinct decimal texts. */
  lemma DecimalInjective(i: int, j: int)
    ensures Decimal(i) == Decimal(j) <==> i == j
  {
    DecimalRoundTrip(i);
    DecimalRoundTrip(j);
  }

  /** Concatenating two non-empty lists of parts joins their two joins with one
      separator. */
  lemma {:induction false} JoinAppend(a: seq<string>, b: seq<string>, sep: string)
    requires a != [] && b != []
    ensures Join(a + b, sep) == Join(a, sep) + sep + Join(b, sep)
  {
    if |b| == 1 {
      assert (a + b)[..|a + b| - 1] == a;
    } else {
      var b' := b[..|b| - 1];
      assert (a + b)[..|a + b| - 1] == a + b';
      JoinAppend(a, b', sep);
    }
  }

  /** A join is as long as its parts plus one separator between each
      neighbouring pair. */
  lemma {:induction false} JoinLength(parts: seq<string>, sep: string)
    requires parts != []
    ensures |Join(parts, sep)| == TotalLength(parts) + (|parts| - 1) * |sep|
  {
    if |parts| > 1 {
      var init, n, m := parts[..|parts| - 1], |parts| - 2, |sep|;
      JoinLength(init, sep);
      assert Join(parts, sep) == Join(init, sep) + sep + parts[|parts| - 1];
      assert TotalLength(parts) == TotalLength(init) + |parts[|parts| - 1]|;
      assert (n + 1) * m == n * m + m;
    }
  }

  /** The accumulated text is as long as its parts plus one separator per part. */
  lemma {:induction false} TerminatedLength(parts: seq<string>, sep: string)
    ensures |Terminated(parts, sep)| == TotalLength(parts) + |parts| * |sep|
  {
    if |parts| > 0 {
      var init, n, m := parts[..|parts| - 1], |parts| - 1, |sep|;
      TerminatedLength(init, sep);
      assert (n + 1) * m == n * m + m;
    }
  }

  /** The accumulated text is the join plus one trailing separator, and is
      empty exactly when there are no parts (for a non-empty separator). */
  lemma {:induction false} TerminatedIsJoinPlusSep(parts: seq<string>, sep: string)
    ensures Terminated(parts, sep) == if parts == [] then "" else Join(parts, sep) + sep
  {
    if |parts| > 1 {
      TerminatedIsJoinPlusSep(parts[..|parts| - 1], sep);
    }
  }

  /** Trimming one separator from the accumulated text gives exactly the join:
      the loops "append `, ` after every field, then TrimSuffix" and
      strings.Join agree. */
  lemma TrimTerminatedIsJoin(parts: seq<string>, sep: string)
    ensures TrimSuffix(Terminated(parts, sep), sep) == Join(parts, sep)
    ensures sep != "" ==> (Terminated(parts, sep) == "" <==> parts == [])
  {
    TerminatedIsJoinPlusSep(parts, sep);
    if parts != [] {
      var j := Join(parts, sep);
      assert (j + sep)[|j + sep| - |sep|..] == sep;
      assert (j + sep)[..|j + sep| - |sep|] == j;
    }
  }
}
