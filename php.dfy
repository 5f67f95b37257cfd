/** The pieces of the PHP runtime that the batch-save engine and the change
    loggers lean on: scalar attribute values, the `(string)` cast, loose `==`,
    `implode`/`explode`, `array_unique`, and order-keeping filters. */
module Php {

  datatype Option<+T> = None | Some(value: T)

  /** A scalar attribute value: PHP `null`, an integer or a string. */
  datatype Value = Null | Int(i: int) | Str(s: string)

  predicate IsDigit(c: char) {
    '0' <= c <= '9'
  }

  predicate AllDigits(s: string) {
    forall i :: 0 <= i < |s| ==> IsDigit(s[i])
  }

  function Digit(d: nat): (c: char)
    requires d < 10
    ensures IsDigit(c) && c as int - '0' as int == d
  {
    (d + '0' as int) as char
  }

  /** Decimal text of a natural number, without leading zeros. */
  function NatToDecimal(n: nat): (s: string)
    ensures |s| > 0 && AllDigits(s)
    ensures s[0] == '0' ==> n == 0
    decreases n
  {
    if n < 10 then [Digit(n)] else NatToDecimal(n / 10) + [Digit(n % 10)]
  }

  /** The number a string of decimal digits denotes. */
  function DigitsValue(s: string): nat
    requires AllDigits(s)
  {
    if s == [] then 0 else DigitsValue(s[..|s| - 1]) * 10 + (s[|s| - 1] as int - '0' as int)
  }

  lemma {:induction false} DecimalRoundTrip(n: nat)
    ensures DigitsValue(NatToDecimal(n)) == n
    decreases n
  {
    if n >= 10 {
      var s := NatToDecimal(n);
      assert s[..|s| - 1] == NatToDecimal(n / 10);
      DecimalRoundTrip(n / 10);
    }
  }

  /** `(string)` of an integer. */
  function IntToDecimal(i: int): string {
    if i < 0 then "-" + NatToDecimal(-i) else NatToDecimal(i)
  }

  /** An integer-like numeric string: optional minus sign and decimal digits. */
  predicate IsIntString(s: string) {
    (|s| > 0 && AllDigits(s)) || (|s| > 1 && s[0] == '-' && AllDigits(s[1..]))
  }

  function IntValue(s: string): int
    requires IsIntString(s)
  {
    if s[0] == '-' then 0 - DigitsValue(s[1..]) else DigitsValue(s)
  }

  lemma IntStringRoundTrip(i: int)
    ensures IsIntString(IntToDecimal(i)) && IntValue(IntToDecimal(i)) == i
  {
    if i < 0 {
      var s := IntToDecimal(i);
      assert s[1..] == NatToDecimal(-i);
      DecimalRoundTrip(-i);
    } else {
      DecimalRoundTrip(i);
    }
  }

  /** PHP's `(string)` cast on a scalar: null is the empty string. */
  function ToString(v: Value): string {
    match v
    case Null => ""
    case Int(i) => IntToDecimal(i)
    case Str(s) => s
  }

  /** PHP truthiness of a string: everything but "" and "0". */
  predicate TruthyString(s: string) {
    s != "" && s != "0"
  }

  /** PHP's loose `==` on scalars. Null against an integer compares as
      booleans, null against a string as strings; integer-like numeric
      strings compare by their integer value. */
  predicate LooseEquals(a: Value, b: Value) {
    match (a, b)
    case (Null, Null) => true
    case (Null, Int(j)) => j == 0
    case (Int(i), Null) => i == 0
    case (Null, Str(t)) => t == ""
    case (Str(s), Null) => s == ""
    case (Int(i), Int(j)) => i == j
    case (Int(i), Str(t)) => IsIntString(t) && IntValue(t) == i
    case (Str(s), Int(j)) => IsIntString(s) && IntValue(s) == j
    case (Str(s), Str(t)) =>
      if IsIntString(s) && IsIntString(t) then IntValue(s) == IntValue(t) else s == t
  }

  /** Loose equality is an equivalence on the modelled scalars' identity:
      it is reflexive and symmetric, and an integer equals its own text. */
  lemma LooseEqualsProperties(a: Value, b: Value, i: int)
    ensures LooseEquals(a, a)
    ensures LooseEquals(a, b) <==> LooseEquals(b, a)
    ensures LooseEquals(Int(i), Str(IntToDecimal(i)))
  {
    IntStringRoundTrip(i);
  }

  /** `implode($sep, $xs)`. */
  function Join(sep: string, xs: seq<string>): string {
    if |xs| == 0 then "" else if |xs| == 1 then xs[0] else xs[0] + sep + Join(sep, xs[1..])
  }

  function IndexOf(s: string, c: char): (i: nat)
    requires c in s
    ensures i < |s| && s[i] == c && c !in s[..i]
  {
    if s[0] == c then 0 else 1 + IndexOf(s[1..], c)
  }

  /** `explode($c, $s)` for a one-character separator. */
  function Explode(c: char, s: string): (parts: seq<string>)
    ensures |parts| > 0
    decreases |s|
  {
    if c in s then
      var i := IndexOf(s, c);
      [s[..i]] + Explode(c, s[i + 1..])
    else
      [s]
  }

  lemma {:induction false} ExplodeJoin(c: char, xs: seq<string>)
    requires |xs| > 0
    requires forall k :: 0 <= k < |xs| ==> c !in xs[k]
    ensures Explode(c, Join([c], xs)) == xs
    decreases |xs|
  {
    if |xs| > 1 {
      var rest := Join([c], xs[1..]);
      assert Join([c], xs) == xs[0] + [c] + rest;
      ExplodeStep(c, xs[0], rest);
      ExplodeJoin(c, xs[1..]);
    }
  }

  /** The first separator of `a + [c] + rest` is the one after `a`. */
  lemma ExplodeStep(c: char, a: string, rest: string)
    requires c !in a
    ensures Explode(c, a + [c] + rest) == [a] + Explode(c, rest)
  {
    var s := a + [c] + rest;
    var i := IndexOf(s, c);
    assert s[|a|] == c;
    assert forall k :: 0 <= k < |a| ==> s[k] == a[k];
    assert i == |a|;
    assert s[..i] == a;
    assert s[i + 1..] == rest;
  }

  /** The PostgreSQL array literal `{a,b,...}` the loggers store and filter by. */
  function BraceList(names: seq<string>): string {
    "{" + Join(",", names) + "}"
  }

  function ParseBraceList(s: string): Option<seq<string>> {
    if |s| >= 2 && s[0] == '{' && s[|s| - 1] == '}' then Some(Explode(',', s[1..|s| - 1])) else None
  }

  /** A non-empty list of comma-free names is recovered from its brace literal. */
  lemma BraceListRoundTrip(names: seq<string>)
    requires |names| > 0
    requires forall k :: 0 <= k < |names| ==> ',' !in names[k]
    ensures ParseBraceList(BraceList(names)) == Some(names)
  {
    var s := BraceList(names);
    assert s[1..|s| - 1] == Join(",", names);
    ExplodeJoin(',', names);
  }

  predicate Distinct<T(==)>(xs: seq<T>) {
    forall i, j :: 0 <= i < j < |xs| ==> xs[i] != xs[j]
  }

  /** Position of the first occurrence of `x` in `s`. */
  function FirstIndex<T(==)>(s: seq<T>, x: T): (i: nat)
    requires x in s
    ensures i < |s| && s[i] == x && x !in s[..i]
  {
    if s[0] == x then 0 else 1 + FirstIndex(s[1..], x)
  }

  /** `array_unique`: keeps the first occurrence of every element. */
  function Dedup<T(==)>(s: seq<T>): seq<T> {
    if s == [] then []
    else
      var init := s[..|s| - 1];
      if s[|s| - 1] in init then Dedup(init) else Dedup(init) + [s[|s| - 1]]
  }

  lemma {:induction false} FirstIndexExtend<T>(s: seq<T>, y: T, x: T)
    requires x in s
    ensures x in s + [y] && FirstIndex(s + [y], x) == FirstIndex(s, x)
  {
    var i := FirstIndex(s, x);
    var j := FirstIndex(s + [y], x);
    assert (s + [y])[i] == x;
    assert forall k :: 0 <= k < i ==> (s + [y])[k] == s[..i][k] && s[..i][k] != x;
    assert j == i;
  }

  /** `Dedup(s)` holds every element of `s` exactly once, in the order of
      their first occurrences in `s`. */
  lemma {:induction false} DedupSpec<T>(s: seq<T>)
    ensures Distinct(Dedup(s))
    ensures forall x :: x in Dedup(s) ==> x in s
    ensures forall x :: x in s ==> x in Dedup(s)
    ensures forall i, j :: 0 <= i < j < |Dedup(s)| ==>
              FirstIndex(s, Dedup(s)[i]) < FirstIndex(s, Dedup(s)[j])
    decreases |s|
  {
    if s != [] {
      var init := s[..|s| - 1];
      var y := s[|s| - 1];
      DedupSpec(init);
      assert s == init + [y];
      var d := Dedup(init);
      forall x | x in d
        ensures FirstIndex(s, x) == FirstIndex(init, x)
      {
        assert x in init;
        FirstIndexExtend(init, y, x);
      }
      if y !in init {
        assert y !in d;
        var r := d + [y];
        assert FirstIndex(s, y) == |init| by {
          assert forall k :: 0 <= k < |init| ==> s[k] == init[k];
        }
        forall i, j | 0 <= i < j < |r|
          ensures FirstIndex(s, r[i]) < FirstIndex(s, r[j])
        {
          if j == |d| {
            assert r[i] == d[i];
            assert FirstIndex(s, r[i]) == FirstIndex(init, d[i]) < |init|;
          } else {
            assert r[i] == d[i] && r[j] == d[j];
          }
        }
      }
    }
  }

  /** The elements of `xs` whose flag in `keep` is set, in their order. */
  function Select<T>(xs: seq<T>, keep: seq<bool>): seq<T>
    requires |xs| == |keep|
  {
    if xs == [] then []
    else
      var n := |xs| - 1;
      Select(xs[..n], keep[..n]) + (if keep[n] then [xs[n]] else [])
  }

  /** Extending both sequences by one position extends the selection by
      that element when its flag is set. */
  lemma SelectSnoc<T>(xs: seq<T>, keep: seq<bool>, i: nat)
    requires |xs| == |keep| && i < |xs|
    ensures Select(xs[..i + 1], keep[..i + 1]) == Select(xs[..i], keep[..i]) + (if keep[i] then [xs[i]] else [])
  {
    assert xs[..i + 1][..i] == xs[..i];
    assert keep[..i + 1][..i] == keep[..i];
  }

  /** `Select` of the first `i` positions, built one position at a time. */
  function SelectUpTo<T>(xs: seq<T>, keep: seq<bool>, i: nat): seq<T>
    requires |xs| == |keep| && i <= |xs|
  {
    if i == 0 then [] else SelectUpTo(xs, keep, i - 1) + (if keep[i - 1] then [xs[i - 1]] else [])
  }

  lemma {:induction false} SelectUpToPrefix<T>(xs: seq<T>, keep: seq<bool>, i: nat)
    requires |xs| == |keep| && i <= |xs|
    ensures SelectUpTo(xs, keep, i) == Select(xs[..i], keep[..i])
    decreases i
  {
    if i > 0 {
      SelectUpToPrefix(xs, keep, i - 1);
      SelectSnoc(xs, keep, i - 1);
    }
  }

  /** Number of set flags. */
  function CountTrue(keep: seq<bool>): nat {
    if keep == [] then 0 else CountTrue(keep[..|keep| - 1]) + (if keep[|keep| - 1] then 1 else 0)
  }

  function Negate(keep: seq<bool>): (r: seq<bool>)
    ensures |r| == |keep| && forall i :: 0 <= i < |keep| ==> r[i] == !keep[i]
  {
    seq(|keep|, i requires 0 <= i < |keep| => !keep[i])
  }

  lemma {:induction false} SelectLength<T>(xs: seq<T>, keep: seq<bool>)
    requires |xs| == |keep|
    ensures |Select(xs, keep)| == CountTrue(keep)
    decreases |xs|
  {
    if xs != [] {
      SelectLength(xs[..|xs| - 1], keep[..|xs| - 1]);
    }
  }

  lemma {:induction false} CountTruePrefix(keep: seq<bool>, i: nat, j: nat)
    requires i <= j <= |keep|
    ensures CountTrue(keep[..i]) <= CountTrue(keep[..j])
    ensures i < j && keep[i] ==> CountTrue(keep[..i]) < CountTrue(keep[..j])
    decreases j
  {
    if i < j {
      assert keep[..j][..j - 1] == keep[..j - 1];
      CountTruePrefix(keep, i, j - 1);
    }
  }

  lemma {:induction false} CountTrueSplit(keep: seq<bool>)
    ensures CountTrue(keep) + CountTrue(Negate(keep)) == |keep|
    decreases |keep|
  {
    if keep != [] {
      var n := |keep| - 1;
      assert Negate(keep)[..n] == Negate(keep[..n]);
      CountTrueSplit(keep[..n]);
    }
  }

  /** Selection keeps order: the j-th element, when kept, lands at the
      position counted by the kept flags before it. */
  lemma {:induction false} SelectAt<T>(xs: seq<T>, keep: seq<bool>, j: nat)
    requires |xs| == |keep| && j < |xs| && keep[j]
    ensures CountTrue(keep[..j]) < |Select(xs, keep)|
    ensures Select(xs, keep)[CountTrue(keep[..j])] == xs[j]
    decreases |xs|
  {
    var n := |xs| - 1;
    SelectLength(xs, keep);
    SelectLength(xs[..n], keep[..n]);
    assert keep[..n + 1] == keep;
    if j < n {
      assert keep[..n][..j] == keep[..j];
      SelectAt(xs[..n], keep[..n], j);
      CountTruePrefix(keep, j, n);
    } else {
      assert keep[..n] == keep[..j];
    }
  }

  /** Every selected element comes from a kept position. */
  lemma {:induction false} SelectFrom<T>(xs: seq<T>, keep: seq<bool>, x: T)
    requires |xs| == |keep| && x in Select(xs, keep)
    ensures exists j :: 0 <= j < |xs| && keep[j] && xs[j] == x
    decreases |xs|
  {
    var n := |xs| - 1;
    if x in Select(xs[..n], keep[..n]) {
      SelectFrom(xs[..n], keep[..n], x);
      var j :| 0 <= j < n && keep[..n][j] && xs[..n][j] == x;
      assert keep[j] && xs[j] == x;
    } else {
      assert keep[n] && xs[n] == x;
    }
  }

  lemma {:induction false} SelectDistinct<T>(xs: seq<T>, keep: seq<bool>)
    requires |xs| == |keep| && Distinct(xs)
    ensures Distinct(Select(xs, keep))
    decreases |xs|
  {
    if xs != [] {
      var n := |xs| - 1;
      SelectDistinct(xs[..n], keep[..n]);
      if keep[n] && xs[n] in Select(xs[..n], keep[..n]) {
        SelectFrom(xs[..n], keep[..n], xs[n]);
        assert false;
      }
    }
  }

  /** A distinct element whose flag is clear is not selected. */
  lemma SelectExcludes<T>(xs: seq<T>, keep: seq<bool>, j: nat)
    requires |xs| == |keep| && Distinct(xs) && j < |xs| && !keep[j]
    ensures xs[j] !in Select(xs, keep)
  {
    if xs[j] in Select(xs, keep) {
      SelectFrom(xs, keep, xs[j]);
      assert false;
    }
  }

  /** Index of the last set flag. */
  function LastTrue(keep: seq<bool>): (j: nat)
    requires CountTrue(keep) > 0
    ensures j < |keep| && keep[j] && forall k :: j < k < |keep| ==> !keep[k]
  {
    var n := |keep| - 1;
    if keep[n] then n else LastTrue(keep[..n])
  }

  /** The last selected element sits at the last set flag. */
  lemma {:induction false} SelectLast<T>(xs: seq<T>, keep: seq<bool>)
    requires |xs| == |keep| && CountTrue(keep) > 0
    ensures |Select(xs, keep)| > 0 && Select(xs, keep)[|Select(xs, keep)| - 1] == xs[LastTrue(keep)]
    decreases |xs|
  {
    var n := |xs| - 1;
    if !keep[n] {
      SelectLast(xs[..n], keep[..n]);
    }
  }

  /** `array_diff($xs, $drop)` on lists of names, keeping order. */
  function Without(xs: seq<string>, drop: seq<string>): (r: seq<string>)
    ensures forall x :: x in r <==> x in xs && x !in drop
  {
    if xs == [] then []
    else Without(xs[..|xs| - 1], drop) + (if xs[|xs| - 1] in drop then [] else [xs[|xs| - 1]])
  }
}
