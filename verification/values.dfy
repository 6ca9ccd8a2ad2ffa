/** JavaScript values as the style expander sees them, with the two pieces of
    the runtime it leans on: truthiness and the string conversion performed
    by `Array.prototype.join`. */
module JsValues {

  datatype Option<+T> = None | Some(value: T)

  /** A style value: a primitive string or number, a plain object whose own
      keys are kept in insertion order, or an array. */
  datatype Value =
    | Str(s: string)
    | Num(n: int)
    | Obj(entries: seq<(string, Value)>)
    | Arr(items: seq<Value>)

  predicate IsPrimitive(v: Value) {
    v.Str? || v.Num?
  }

  /** JavaScript truthiness: the empty string and zero are falsy; every
      object and every array, even an empty one, is truthy. */
  predicate Truthy(v: Value)
    ensures Truthy(v) <==> v != Str("") && v != Num(0)
  {
    match v
    case Str(s) => s != ""
    case Num(n) => n != 0
    case _ => true
  }

  /* ---------------- decimal rendering of numbers ---------------- */

  function DigitChar(d: nat): (c: char)
    requires d < 10
    ensures '0' <= c <= '9'
    ensures DigitValue(c) == d
  {
    "0123456789"[d]
  }

  function DigitValue(c: char): nat
  {
    if '0' <= c <= '9' then (c as int - '0' as int) else 0
  }

  predicate AllDigits(s: string) {
    forall i :: 0 <= i < |s| ==> '0' <= s[i] <= '9'
  }

  /** Decimal digits of a natural number, most significant first. */
  function NatToString(n: nat): (r: string)
    ensures |r| > 0
    ensures AllDigits(r)
    ensures n > 0 ==> r[0] != '0'
    decreases n
  {
    if n < 10 then [DigitChar(n)] else NatToString(n / 10) + [DigitChar(n % 10)]
  }

  /** Reads a string of decimal digits back as a natural number. */
  function ParseNat(s: string): nat
    decreases |s|
  {
    if |s| == 0 then 0 else ParseNat(s[..|s| - 1]) * 10 + DigitValue(s[|s| - 1])
  }

  lemma {:induction false} ParseNatToString(n: nat)
    ensures ParseNat(NatToString(n)) == n
    decreases n
  {
    if n >= 10 {
      var p := NatToString(n / 10);
      var r := p + [DigitChar(n % 10)];
      assert r[..|r| - 1] == p;
      ParseNatToString(n / 10);
    }
  }

  /** Decimal rendering, as `String(n)` gives for |n| < 10^21. */
  function IntToString(n: int): (r: string)
    ensures ',' !in r && ' ' !in r
    ensures n >= 0 ==> AllDigits(r)
    ensures n < 0 ==> |r| > 1 && r[0] == '-' && AllDigits(r[1..])
  {
    if n < 0 then "-" + NatToString(-n) else NatToString(n)
  }

  function ParseInt(s: string): int
  {
    if |s| > 0 && s[0] == '-' then 0 - ParseNat(s[1..]) as int else ParseNat(s) as int
  }

  lemma ParseIntToString(n: int)
    ensures ParseInt(IntToString(n)) == n
  {
    if n < 0 {
      NegativeParses(NatToString(-n));
      ParseNatToString(-n);
    } else {
      ParseNatToString(n);
    }
  }

  lemma NegativeParses(d: string)
    ensures ParseInt("-" + d) == 0 - ParseNat(d) as int
  {
    assert ("-" + d)[1..] == d;
  }

  /* ---------------- join and split ---------------- */

  /** `Array.prototype.join(sep)` over strings: the elements with one
      separator between each neighbouring pair. */
  function Join(xs: seq<string>, sep: char): (r: string)
    ensures |xs| > 0 ==> |r| == TotalLength(xs) + |xs| - 1
    ensures |xs| > 0 ==> xs[0] <= r
    decreases |xs|
  {
    if |xs| == 0 then ""
    else if |xs| == 1 then xs[0]
    else xs[0] + [sep] + Join(xs[1..], sep)
  }

  /** The summed lengths of the strings. */
  function TotalLength(xs: seq<string>): nat
    decreases |xs|
  {
    if |xs| == 0 then 0 else |xs[0]| + TotalLength(xs[1..])
  }

  /** `String.prototype.split(sep)` for a one-character separator: the
      maximal separator-free pieces, so splitting "" yields [""]. */
  function Split(s: string, sep: char): (r: seq<string>)
    ensures |r| > 0
    decreases |s|
  {
    if |s| == 0 then [""]
    else if s[0] == sep then [""] + Split(s[1..], sep)
    else
      var rest := Split(s[1..], sep);
      [[s[0]] + rest[0]] + rest[1..]
  }

  lemma {:induction false} SplitFree(a: string, sep: char)
    requires sep !in a
    ensures Split(a, sep) == [a]
    decreases |a|
  {
    if |a| > 0 {
      SplitFree(a[1..], sep);
      assert [a[0]] + a[1..] == a;
    }
  }

  lemma {:induction false} SplitAfterPiece(a: string, sep: char, b: string)
    requires sep !in a
    ensures Split(a + [sep] + b, sep) == [a] + Split(b, sep)
    decreases |a|
  {
    var s := a + [sep] + b;
    if |a| == 0 {
      assert s[0] == sep && s[1..] == b;
    } else {
      assert s[0] == a[0];
      assert s[1..] == a[1..] + [sep] + b;
      SplitAfterPiece(a[1..], sep, b);
      assert [a[0]] + a[1..] == a;
    }
  }

  /** Joining and splitting on the same separator are inverse as long as no
      element already contains the separator. */
  lemma {:induction false} SplitJoin(xs: seq<string>, sep: char)
    requires |xs| > 0
    requires forall i :: 0 <= i < |xs| ==> sep !in xs[i]
    ensures Split(Join(xs, sep), sep) == xs
    decreases |xs|
  {
    if |xs| == 1 {
      SplitFree(xs[0], sep);
    } else {
      SplitJoin(xs[1..], sep);
      SplitAfterPiece(xs[0], sep, Join(xs[1..], sep));
      assert [xs[0]] + xs[1..] == xs;
    }
  }

  /* ---------------- string conversion of values ---------------- */

  /** `String(v)` as `join` applies it to each element: an array renders as
      its elements joined with commas, a plain object as "[object Object]". */
  function JsString(v: Value): (r: string)
    ensures v.Str? ==> r == v.s
    ensures v.Num? ==> ParseInt(r) == v.n && ',' !in r
    ensures v.Obj? ==> r == "[object Object]"
    ensures v.Arr? && |v.items| > 0 && (forall i :: 0 <= i < |v.items| ==> ',' !in JsString(v.items[i])) ==>
              |Split(r, ',')| == |v.items|
              && forall i :: 0 <= i < |v.items| ==> Split(r, ',')[i] == JsString(v.items[i])
    decreases v
  {
    match v
    case Str(s) => s
    case Num(n) => ParseIntToString(n); IntToString(n)
    case Obj(_) => "[object Object]"
    case Arr(xs) =>
      var strs := seq(|xs|, i requires 0 <= i < |xs| => JsString(xs[i]));
      if |xs| > 0 && forall i :: 0 <= i < |xs| ==> ',' !in strs[i] then
        SplitJoin(strs, ','); Join(strs, ',')
      else Join(strs, ',')
  }

  /** The element-wise string conversion `join` performs before joining. */
  function JsStrings(xs: seq<Value>): (r: seq<string>)
    ensures |r| == |xs|
    ensures forall i :: 0 <= i < |xs| ==> r[i] == JsString(xs[i])
  {
    seq(|xs|, i requires 0 <= i < |xs| => JsString(xs[i]))
  }
}
