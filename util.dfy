/** The interpreter's utilities (interpreter/util.py): the Python values the
    interpreter stores and compares, `parse_value`, which turns the text of a
    literal into such a value, and `flatten_list`.  The list clean-up the
    interpreter imports alongside them keeps the non-empty strings. */
module Util {
  import opened Wrappers
  import opened PyText

  /** The Python values an expression can produce and a variable can hold. */
  datatype PyVal = NoneVal | BoolVal(b: bool) | IntVal(i: int) | FloatVal(r: real) | StrVal(s: string)

  /** Python truthiness. */
  predicate Truthy(v: PyVal) {
    match v
    case NoneVal => false
    case BoolVal(b) => b
    case IntVal(i) => i != 0
    case FloatVal(r) => r != 0.0
    case StrVal(s) => s != ""
  }

  // ---------------------------------------------------------------------------
  // Numeric literals.

  predicate IsDigit(c: char) {
    '0' <= c <= '9'
  }

  predicate AllDigits(d: string) {
    forall i :: 0 <= i < |d| ==> IsDigit(d[i])
  }

  /** The value of a run of decimal digits. */
  function DigitsValue(d: string): (n: nat)
    requires AllDigits(d)
  {
    if d == [] then 0 else 10 * DigitsValue(d[..|d| - 1]) + (d[|d| - 1] as int - '0' as int)
  }

  /** The sign of a literal and the text after it. */
  function Unsigned(t: string): (int, string) {
    if t != [] && t[0] == '-' then (-1, t[1..])
    else if t != [] && t[0] == '+' then (1, t[1..])
    else (1, t)
  }

  /** Text `int()` accepts: surrounding whitespace, an optional sign and at least
      one decimal digit. */
  predicate IntText(s: string) {
    var d := Unsigned(Strip(s)).1;
    d != [] && AllDigits(d)
  }

  function IntOf(s: string): int
    requires IntText(s)
  {
    var (sign, d) := Unsigned(Strip(s));
    sign * DigitsValue(d)
  }

  /** Index of the first '.' in `d`, or |d|. */
  function Dot(d: string): (k: nat)
    ensures k <= |d| && (k < |d| ==> d[k] == '.')
    ensures forall i :: 0 <= i < k ==> d[i] != '.'
  {
    if d == [] || d[0] == '.' then 0 else 1 + Dot(d[1..])
  }

  /** Unsigned float text: digits, a point and digits, with at least one digit
      on either side. */
  predicate PointDigits(d: string) {
    var k := Dot(d);
    k < |d| && |d| > 1 && AllDigits(d[..k]) && AllDigits(d[k + 1..])
  }

  /** Text `float()` accepts in positional notation: surrounding whitespace, an
      optional sign, then digits, a point and digits. */
  predicate FloatText(s: string) {
    PointDigits(Unsigned(Strip(s)).1)
  }

  function Pow10(n: nat): (p: nat)
    ensures p >= 1
  {
    if n == 0 then 1 else 10 * Pow10(n - 1)
  }

  /** The number with integer part `whole` and `scale` fraction digits `frac`. */
  function Decimal(whole: nat, frac: nat, scale: nat): real {
    whole as real + frac as real / Pow10(scale) as real
  }

  /** No fraction digits leave the whole part. */
  lemma DecimalWhole(whole: nat, scale: nat)
    ensures Decimal(whole, 0, scale) == whole as real
  {
    assert 0 as real / Pow10(scale) as real == 0.0;
  }

  /** The value of unsigned float text, read off at its point. */
  function PointNumber(d: string): real
    requires PointDigits(d)
  {
    var k := Dot(d);
    Decimal(DigitsValue(d[..k]), DigitsValue(d[k + 1..]), |d| - k - 1)
  }

  function FloatOf(s: string): real
    requires FloatText(s)
  {
    var (sign, d) := Unsigned(Strip(s));
    if sign < 0 then -PointNumber(d) else PointNumber(d)
  }

  /** `int(x)` of a float: truncation toward zero. */
  function Truncate(r: real): int {
    if r >= 0.0 then r.Floor else -((-r).Floor)
  }

  /** A literal `int()` accepts has no point, so it is never float text. */
  lemma IntTextNotFloat(s: string)
    ensures IntText(s) ==> !FloatText(s)
  {
  }

  // ---------------------------------------------------------------------------
  // parse_value.

  /** `parse_value` as written: when `int()` fails but `float()` succeeds,
      `to_return` is never assigned and the `return` raises UnboundLocalError. */
  function ParseValueAsWritten(v: PyVal): Result<PyVal> {
    match v
    case NoneVal => Ok(NoneVal)
    case BoolVal(b) => Ok(IntVal(if b then 1 else 0))
    case IntVal(i) => Ok(IntVal(i))
    case FloatVal(r) => Ok(IntVal(Truncate(r)))
    case StrVal(s) =>
      if IntText(s) then Ok(IntVal(IntOf(s)))
      else if FloatText(s) then Err(UnboundLocalError)
      else Ok(StrVal(s))
  }

  /** What the code as written returns: it raises exactly on float text, and
      then UnboundLocalError; integer text is the integer, other text is kept,
      None and ints come back as they are, and bools and floats become ints. */
  lemma ParseValueAsWrittenFacts(v: PyVal)
    ensures ParseValueAsWritten(v).Err? <==> v.StrVal? && FloatText(v.s)
    ensures ParseValueAsWritten(v).Err? ==> ParseValueAsWritten(v).error == UnboundLocalError
    ensures v.StrVal? && IntText(v.s) ==> ParseValueAsWritten(v) == Ok(IntVal(IntOf(v.s)))
    ensures v.StrVal? && !IntText(v.s) && !FloatText(v.s) ==> ParseValueAsWritten(v) == Ok(v)
    ensures v.NoneVal? || v.IntVal? ==> ParseValueAsWritten(v) == Ok(v)
    ensures v.BoolVal? || v.FloatVal? ==> ParseValueAsWritten(v).Ok? && ParseValueAsWritten(v).value.IntVal?
  {
    if v.StrVal? {
      IntTextNotFloat(v.s);
    }
  }

  /** `parse_value` as its documentation describes it: float text becomes the
      float. */
  function ParseValue(v: PyVal): (r: Result<PyVal>)
    ensures r.Ok?
  {
    match v
    case StrVal(s) =>
      if IntText(s) then Ok(IntVal(IntOf(s)))
      else if FloatText(s) then Ok(FloatVal(FloatOf(s)))
      else Ok(StrVal(s))
    case _ => ParseValueAsWritten(v)
  }

  /** The two differ exactly on float text, where the code as written raises. */
  lemma ParseValueDrafts(v: PyVal)
    ensures ParseValueAsWritten(v) != ParseValue(v) <==> v.StrVal? && FloatText(v.s)
    ensures ParseValueAsWritten(v) != ParseValue(v) ==> ParseValueAsWritten(v) == Err(UnboundLocalError)
  {
    if v.StrVal? { IntTextNotFloat(v.s); }
  }

  /** The decimal text of an integer, as `str()` writes it. */
  function NatText(n: nat): (t: string)
    ensures t != [] && AllDigits(t)
  {
    if n < 10 then [('0' as int + n) as char]
    else NatText(n / 10) + [('0' as int + n % 10) as char]
  }

  function DecimalText(n: int): string {
    if n < 0 then "-" + NatText(-n) else NatText(n)
  }

  lemma {:induction false} NatTextValue(n: nat)
    ensures DigitsValue(NatText(n)) == n
  {
    if n >= 10 {
      NatTextValue(n / 10);
      var t := NatText(n);
      assert t[..|t| - 1] == NatText(n / 10);
    }
  }

  lemma DigitsNoSpace(w: string)
    requires AllDigits(w)
    ensures NoSpace(w)
  {
    assert forall i :: 0 <= i < |w| ==> IsDigit(w[i]);
  }

  /** Digits are one unsigned word. */
  lemma DigitsWord(w: string)
    requires w != [] && AllDigits(w)
    ensures Strip(w) == w && Unsigned(w) == (1, w)
  {
    DigitsNoSpace(w);
    StripOfWord(w);
    assert IsDigit(w[0]);
  }

  /** A minus and digits are one word whose sign is negative. */
  lemma NegDigitsWord(w: string)
    requires w != [] && AllDigits(w)
    ensures Strip("-" + w) == "-" + w && Unsigned("-" + w) == (-1, w)
  {
    var t := "-" + w;
    DigitsNoSpace(w);
    assert NoSpace(t) by {
      assert forall i :: 1 <= i < |t| ==> t[i] == w[i - 1];
    }
    StripOfWord(t);
    assert t[1..] == w;
  }

  /** The decimal text of an integer is integer text of that value. */
  lemma DecimalTextIsInt(n: int)
    ensures IntText(DecimalText(n)) && IntOf(DecimalText(n)) == n
  {
    var m := if n < 0 then -n else n;
    NatTextValue(m);
    if n < 0 {
      NegDigitsWord(NatText(m));
    } else {
      DigitsWord(NatText(m));
    }
  }

  /** Parsing the text of an integer gives the integer back, in both versions. */
  lemma ParseValueRoundTrip(n: int)
    ensures ParseValue(StrVal(DecimalText(n))) == Ok(IntVal(n))
    ensures ParseValueAsWritten(StrVal(DecimalText(n))) == Ok(IntVal(n))
  {
    DecimalTextIsInt(n);
  }

  /** The documented examples: "4" is 4 and None is None. */
  lemma ParseIntExample()
    ensures ParseValue(StrVal("4")) == Ok(IntVal(4))
    ensures ParseValue(NoneVal) == Ok(NoneVal)
  {
    ParseValueRoundTrip(4);
    assert DecimalText(4) == "4";
  }

  /** Digits, a point and digits contain no whitespace and start with no sign. */
  lemma PointNoSpace(a: string, b: string)
    requires AllDigits(a) && AllDigits(b)
    ensures NoSpace(a + "." + b) && (a + "." + b)[0] != '-' && (a + "." + b)[0] != '+'
  {
    DigitsNoSpace(a);
    DigitsNoSpace(b);
    assert NoSpace(".");
    NoSpaceConcat3(a, ".", b);
    if a == [] { assert (a + "." + b)[0] == '.'; }
    else { assert (a + "." + b)[0] == a[0] && IsDigit(a[0]); }
  }

  /** ... so they are one unsigned word. */
  lemma PointWord(a: string, b: string)
    requires AllDigits(a) && AllDigits(b)
    ensures Strip(a + "." + b) == a + "." + b && Unsigned(a + "." + b) == (1, a + "." + b)
  {
    PointNoSpace(a, b);
    StripOfWord(a + "." + b);
  }

  /** ... whose first point is the one between the two digit runs. */
  lemma PointAt(a: string, b: string)
    requires AllDigits(a)
    ensures var d := a + "." + b; Dot(d) == |a| && d[..|a|] == a && d[|a| + 1..] == b
  {
    var d := a + "." + b;
    assert d[|a|] == '.';
    assert forall i :: 0 <= i < |a| ==> d[i] == a[i];
    assert d[..|a|] == a && d[|a| + 1..] == b;
  }

  /** Digits, a point and digits are unsigned float text, worth the integer part
      plus the fraction. */
  lemma PointDigitsValue(a: string, b: string)
    requires AllDigits(a) && AllDigits(b) && a + b != []
    ensures PointDigits(a + "." + b)
    ensures PointNumber(a + "." + b) == Decimal(DigitsValue(a), DigitsValue(b), |b|)
  {
    PointAt(a, b);
  }

  /** Digits, a point and digits: float text, which `int()` refuses. */
  lemma PointIsFloat(a: string, b: string)
    requires AllDigits(a) && AllDigits(b) && a + b != []
    ensures FloatText(a + "." + b) && !IntText(a + "." + b)
  {
    var d := a + "." + b;
    PointWord(a, b);
    PointDigitsValue(a, b);
    PointAt(a, b);
    assert !IsDigit(d[|a|]);
  }

  /** ... whose value is the integer part plus the fraction. */
  lemma PointValue(a: string, b: string)
    requires AllDigits(a) && AllDigits(b) && a + b != []
    ensures FloatText(a + "." + b)
    ensures FloatOf(a + "." + b) == Decimal(DigitsValue(a), DigitsValue(b), |b|)
  {
    PointWord(a, b);
    PointDigitsValue(a, b);
  }

  /** The code as written raises on such text; the documented version gives
      the float. */
  lemma PointParsed(a: string, b: string)
    requires AllDigits(a) && AllDigits(b) && a + b != []
    ensures ParseValueAsWritten(StrVal(a + "." + b)) == Err(UnboundLocalError)
    ensures ParseValue(StrVal(a + "." + b))
      == Ok(FloatVal(Decimal(DigitsValue(a), DigitsValue(b), |b|)))
  {
    PointIsFloat(a, b);
    PointValue(a, b);
  }

  /** "4.0" is the float 4.0 as documented, while the code as written raises. */
  lemma ParseFloatExample()
    ensures ParseValue(StrVal("4.0")) == Ok(FloatVal(4.0))
    ensures ParseValueAsWritten(StrVal("4.0")) == Err(UnboundLocalError)
  {
    var a, b := "4", "0";
    assert a + "." + b == "4.0" by {
      var d := a + "." + b;
      assert |d| == 3 && d[0] == '4' && d[1] == '.' && d[2] == '0';
    }
    assert AllDigits(a) && AllDigits(b);
    PointParsed(a, b);
    assert DigitsValue(a) == 4 by { assert a[..0] == ""; }
    assert DigitsValue(b) == 0 by { assert b[..0] == ""; }
    DecimalWhole(4, 1);
  }

  /** A word that starts with neither a digit nor a sign and has no point is
      kept as the string it is. */
  lemma {:induction false} WordKept(w: string)
    requires NoSpace(w) && w != [] && !IsDigit(w[0]) && w[0] != '-' && w[0] != '+'
    requires forall i :: 0 <= i < |w| ==> w[i] != '.'
    ensures ParseValue(StrVal(w)) == Ok(StrVal(w))
    ensures ParseValueAsWritten(StrVal(w)) == Ok(StrVal(w))
  {
    StripOfWord(w);
    assert Unsigned(w) == (1, w);
    assert Dot(w) == |w|;
  }

  /** `parse_value("string")` is "string". */
  lemma ParseWordExample()
    ensures ParseValue(StrVal("string")) == Ok(StrVal("string"))
  {
    WordKept("string");
  }

  // ---------------------------------------------------------------------------
  // flatten_list.

  /** An element of a nested Python list: a value or another list. */
  datatype Nested<T> = Leaf(v: T) | List(items: seq<Nested<T>>)

  /** `flatten_list`: the values of the nested lists, left to right. */
  function Flatten<T>(lst: seq<Nested<T>>): seq<T>
    decreases lst
  {
    if lst == [] then []
    else
      assert lst[0] in lst;
      match lst[0]
      case List(xs) => Flatten(xs) + Flatten(lst[1..])
      case Leaf(v) => [v] + Flatten(lst[1..])
  }

  /** A flat list as a nested one. */
  function Leaves<T>(xs: seq<T>): (lst: seq<Nested<T>>)
    ensures |lst| == |xs|
  {
    seq(|xs|, i requires 0 <= i < |xs| => Leaf(xs[i]))
  }

  /** The number of values in a nested list. */
  function LeafCount<T>(lst: seq<Nested<T>>): nat
    decreases lst
  {
    if lst == [] then 0
    else
      assert lst[0] in lst;
      match lst[0]
      case List(xs) => LeafCount(xs) + LeafCount(lst[1..])
      case Leaf(_) => 1 + LeafCount(lst[1..])
  }

  /** Flattening distributes over concatenation. */
  lemma {:induction false} FlattenAppend<T>(a: seq<Nested<T>>, b: seq<Nested<T>>)
    ensures Flatten(a + b) == Flatten(a) + Flatten(b)
    decreases a
  {
    if a == [] {
      assert a + b == b;
    } else {
      assert (a + b)[0] == a[0] && (a + b)[1..] == a[1..] + b;
      FlattenAppend(a[1..], b);
    }
  }

  /** Flattening an already flat list gives it back, so flattening twice is
      flattening once. */
  lemma {:induction false} FlattenLeaves<T>(xs: seq<T>)
    ensures Flatten(Leaves(xs)) == xs
  {
    if xs != [] {
      FlattenLeaves(xs[1..]);
      assert Leaves(xs)[1..] == Leaves(xs[1..]);
    }
  }

  /** Every value of the nested list appears once in the result. */
  lemma {:induction false} FlattenLength<T>(lst: seq<Nested<T>>)
    ensures |Flatten(lst)| == LeafCount(lst)
    decreases lst
  {
    if lst != [] {
      assert lst[0] in lst;
      if lst[0].List? { FlattenLength(lst[0].items); }
      FlattenLength(lst[1..]);
    }
  }

  /** `flatten_list([1, 2, [3, 4], [[[3], 4]]])` is `[1, 2, 3, 4, 3, 4]`, and
      `flatten_list([])` is `[]`. */
  lemma FlattenExample()
    ensures Flatten<int>([Leaf(1), Leaf(2), List([Leaf(3), Leaf(4)]), List([List([List([Leaf(3)]), Leaf(4)])])])
      == [1, 2, 3, 4, 3, 4]
    ensures Flatten<int>([]) == []
  {
    var a: seq<Nested<int>> := [Leaf(3), Leaf(4)];
    assert Flatten(a) == [3, 4] by { assert a[1..] == [Leaf(4)]; assert a[1..][1..] == []; }
    var inner: seq<Nested<int>> := [List([Leaf(3)]), Leaf(4)];
    assert Flatten([Leaf(3)]) == [3] by { assert [Leaf(3)][1..] == []; }
    assert Flatten<int>([List([Leaf(3)])]) == [3] by { assert [List([Leaf(3)])][1..] == []; }
    assert Flatten(inner) == [3, 4] by { assert inner[1..] == [Leaf(4)]; assert inner[1..][1..] == []; }
    var b: seq<Nested<int>> := [List(inner)];
    assert Flatten(b) == [3, 4] by { assert b[1..] == []; }
    var top: seq<Nested<int>> := [Leaf(1), Leaf(2), List(a), List(inner)];
    FlattenAppend([Leaf(1), Leaf(2)], [List(a), List(inner)]);
    FlattenAppend([Leaf(1)], [Leaf(2)]);
    FlattenAppend([List(a)], [List(inner)]);
    assert top == [Leaf(1), Leaf(2)] + [List(a), List(inner)];
    assert [Leaf(1), Leaf(2)] == [Leaf(1)] + [Leaf(2)];
    assert [List(a), List(inner)] == [List(a)] + [List(inner)];
    assert Flatten([Leaf(1)]) == [1] by { assert [Leaf(1)][1..] == []; }
    assert Flatten([Leaf(2)]) == [2] by { assert [Leaf(2)][1..] == []; }
    assert Flatten([List(a)]) == [3, 4] by { assert [List(a)][1..] == []; }
  }

  // ---------------------------------------------------------------------------
  // Dropping empty strings.

  /** The non-empty strings of a list, in order: what the interpreter's list
      clean-up and `remove_empty` leave. */
  function NonEmpty(xs: seq<string>): (r: seq<string>)
    ensures |r| <= |xs|
  {
    if xs == [] then []
    else (if xs[0] == "" then [] else [xs[0]]) + NonEmpty(xs[1..])
  }

  lemma {:induction false} NonEmptyAppend(a: seq<string>, b: seq<string>)
    ensures NonEmpty(a + b) == NonEmpty(a) + NonEmpty(b)
  {
    if a == [] {
      assert a + b == b;
    } else {
      assert (a + b)[0] == a[0] && (a + b)[1..] == a[1..] + b;
      NonEmptyAppend(a[1..], b);
    }
  }

  /** Exactly the empty strings go: what is kept is non-empty, and every
      non-empty element is kept. */
  lemma {:induction false} NonEmptyFacts(xs: seq<string>)
    ensures forall i :: 0 <= i < |NonEmpty(xs)| ==> NonEmpty(xs)[i] != ""
    ensures forall x :: x in xs && x != "" ==> x in NonEmpty(xs)
    ensures (forall i :: 0 <= i < |xs| ==> xs[i] != "") ==> NonEmpty(xs) == xs
  {
    if xs != [] {
      var head, tail := if xs[0] == "" then [] else [xs[0]], NonEmpty(xs[1..]);
      NonEmptyFacts(xs[1..]);
      assert NonEmpty(xs) == head + tail;
      forall i | 0 <= i < |head + tail| ensures (head + tail)[i] != "" {
        if i >= |head| { assert (head + tail)[i] == tail[i - |head|]; }
      }
      assert forall x :: x in xs ==> x == xs[0] || x in xs[1..];
      if forall i :: 0 <= i < |xs| ==> xs[i] != "" {
        assert forall i :: 0 <= i < |xs[1..]| ==> xs[1..][i] == xs[i + 1];
        assert xs == [xs[0]] + xs[1..];
      }
    }
  }

  /** Dropping empty strings only removes. */
  lemma {:induction false} NonEmptyKeeps(xs: seq<string>)
    ensures forall x :: x in NonEmpty(xs) ==> x in xs
  {
    if xs != [] {
      NonEmptyKeeps(xs[1..]);
    }
  }
}
