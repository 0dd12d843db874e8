/** When comparing configurations by their text is exact. */
module HttpComparison {
  import opened HttpConfig

  // ---------- Texts that can be read back ----------

  /** The separator comes first where the text before it ends. */
  lemma SeparatorAt(c: char, a: string, x: string, i: nat)
    requires c !in a && i <= |a|
    ensures (a + [c] + x)[i] == c <==> i == |a|
  {
  }

  /** The text before the first separator and the text after it are determined. */
  lemma SplitIsUnique(c: char, a: string, x: string, b: string, y: string)
    requires c !in a && c !in b && a + [c] + x == b + [c] + y
    ensures a == b && x == y
  {
    var k := if |a| < |b| then |a| else |b|;
    SeparatorAt(c, a, x, k);
    SeparatorAt(c, b, y, k);
    assert (a + [c] + x)[..|a|] == a && (b + [c] + y)[..|b|] == b;
    assert (a + [c] + x)[|a| + 1..] == x && (b + [c] + y)[|b| + 1..] == y;
  }

  predicate IsDigit(c: char) { '0' <= c <= '9' }

  lemma {:induction false} DigitsOnly(k: nat)
    ensures forall c <- Digits(k) :: IsDigit(c)
    ensures k > 0 ==> Digits(k)[0] != '0'
  {
    if k >= 10 {
      DigitsOnly(k / 10);
    }
  }

  lemma {:induction false} DigitsInjective(a: nat, b: nat)
    requires Digits(a) == Digits(b)
    ensures a == b
  {
    if a >= 10 && b >= 10 {
      var front, back := Digits(a / 10), Digits(b / 10);
      assert Digits(a)[..|Digits(a)| - 1] == front && Digits(b)[..|Digits(b)| - 1] == back;
      assert Digits(a)[|Digits(a)| - 1] == Digit(a % 10) && Digits(b)[|Digits(b)| - 1] == Digit(b % 10);
      DigitsInjective(a / 10, b / 10);
    }
  }

  function Magnitude(k: int): nat { if k < 0 then -k else k }

  lemma SignShows(k: int)
    ensures Decimal(k) != "" && (Decimal(k)[0] == '-' <==> k < 0)
    ensures k < 0 ==> Decimal(k)[1..] == Digits(-k)
  {
    DigitsOnly(Magnitude(k));
    assert Digits(Magnitude(k))[0] in Digits(Magnitude(k));
  }

  lemma DecimalInjective(a: int, b: int)
    requires Decimal(a) == Decimal(b)
    ensures a == b
  {
    SignShows(a);
    SignShows(b);
    DigitsInjective(Magnitude(a), Magnitude(b));
  }

  lemma {:induction false} TrimmedAreZeros(s: string)
    ensures forall i :: |TrimZeros(s)| <= i < |s| ==> s[i] == '0'
  {
    if |s| > 1 && s[|s| - 1] == '0' {
      TrimmedAreZeros(s[..|s| - 1]);
    }
  }

  /** A number is given by its leading digits and their count. */
  lemma TrimKeepsNumber(a: string, b: string)
    requires |a| == |b| && TrimZeros(a) == TrimZeros(b)
    ensures a == b
  {
    TrimmedAreZeros(a);
    TrimmedAreZeros(b);
    forall i | 0 <= i < |a|
      ensures a[i] == b[i]
    {
      if i < |TrimZeros(a)| {
        assert a[i] == TrimZeros(a)[i] && b[i] == TrimZeros(b)[i];
      }
    }
  }

  /** An exponent of one digit is filled up with a zero, and no other begins with one. */
  lemma BackBegins(k: nat)
    ensures FloatBack(k) != "" && (FloatBack(k)[0] == '0' <==> k < 10)
    ensures FloatBack(k)[(if k < 10 then 1 else 0)..] == Digits(k)
  {
    DigitsOnly(k);
  }

  lemma BackInjective(a: nat, b: nat)
    requires FloatBack(a) == FloatBack(b)
    ensures a == b
  {
    BackBegins(a);
    BackBegins(b);
    DigitsInjective(a, b);
  }

  /** The digits between sign and point are those of the mantissa. */
  lemma FrontInjective(negative: bool, a: string, other: bool, b: string)
    requires a != "" && b != "" && IsDigit(a[0]) && IsDigit(b[0])
    requires FloatFront(negative, a) == FloatFront(other, b)
    ensures negative == other && a == b
  {
    var x, y := FloatFront(negative, a), FloatFront(other, b);
    assert x[0] == (if negative then '-' else a[0]) && y[0] == (if other then '-' else b[0]);
    var k := if negative then 1 else 0;
    assert x[k] == a[0] && y[k] == b[0];
    assert x[k + 1..] == (if |a| > 1 then "." + a[1..] else "");
    assert y[k + 1..] == (if |b| > 1 then "." + b[1..] else "");
    assert |a| > 1 ==> x[k + 2..] == a[1..];
    assert |b| > 1 ==> y[k + 2..] == b[1..];
    assert a == [a[0]] + a[1..] && b == [b[0]] + b[1..];
  }

  predicate Large(k: int) { !(-FLOAT_LIMIT < k < FLOAT_LIMIT) }

  function Mantissa(k: int): (r: string)
    ensures r != ""
  {
    TrimZeros(Digits(Magnitude(k)))
  }

  function Exponent(k: int): nat { |Digits(Magnitude(k))| - 1 }

  lemma MantissaDigits(k: int)
    ensures forall c <- Mantissa(k) :: IsDigit(c)
    ensures IsDigit(Mantissa(k)[0])
  {
    DigitsOnly(Magnitude(k));
    assert forall c <- Mantissa(k) :: c in Digits(Magnitude(k));
    assert Mantissa(k)[0] in Mantissa(k);
  }

  lemma FrontHasNo(c: char, negative: bool, mantissa: string)
    requires mantissa != "" && c !in mantissa && c != '-' && c != '.'
    ensures c !in FloatFront(negative, mantissa)
  {
    var sign, rest := if negative then "-" else "", if |mantissa| > 1 then "." + mantissa[1..] else "";
    assert c !in sign && c !in mantissa[..1] && c !in rest;
    assert c !in sign + mantissa[..1];
  }

  /** Scientific form, before and after the e. */
  lemma ScientificParts(k: int)
    requires Large(k)
    ensures var front := FloatFront(k < 0, Mantissa(k));
            && FloatText(k) == front + ['e'] + ("+" + FloatBack(Exponent(k)))
            && 'e' !in front && ' ' !in front
  {
    MantissaDigits(k);
    FrontHasNo('e', k < 0, Mantissa(k));
    FrontHasNo(' ', k < 0, Mantissa(k));
    Regroup(FloatFront(k < 0, Mantissa(k)), FloatBack(Exponent(k)));
  }

  lemma Regroup(a: string, b: string)
    ensures a + "e+" + b == a + ['e'] + ("+" + b)
  {
  }

  lemma ScientificInjective(a: int, b: int)
    requires Large(a) && Large(b) && FloatText(a) == FloatText(b)
    ensures a == b
  {
    ScientificParts(a);
    ScientificParts(b);
    MantissaDigits(a);
    MantissaDigits(b);
    var front, other := FloatFront(a < 0, Mantissa(a)), FloatFront(b < 0, Mantissa(b));
    SplitIsUnique('e', front, "+" + FloatBack(Exponent(a)), other, "+" + FloatBack(Exponent(b)));
    FrontInjective(a < 0, Mantissa(a), b < 0, Mantissa(b));
    SameNumber(a, b);
  }

  lemma SameNumber(a: int, b: int)
    requires (a < 0 <==> b < 0) && Mantissa(a) == Mantissa(b)
    requires "+" + FloatBack(Exponent(a)) == "+" + FloatBack(Exponent(b))
    ensures a == b
  {
    assert ("+" + FloatBack(Exponent(a)))[1..] == FloatBack(Exponent(a));
    assert ("+" + FloatBack(Exponent(b)))[1..] == FloatBack(Exponent(b));
    BackInjective(Exponent(a), Exponent(b));
    TrimKeepsNumber(Digits(Magnitude(a)), Digits(Magnitude(b)));
    DigitsInjective(Magnitude(a), Magnitude(b));
  }

  /** No number below the limit prints like one above it. */
  lemma FormsDiffer(a: int, b: int)
    requires Large(a)
    ensures FloatText(a) != Decimal(b)
  {
    ScientificHasE(a);
    DecimalHasNoE(b);
    NoEs(Decimal(b));
  }

  predicate Whole(v: Value) { v.Int? || v.Float? }

  lemma WholeExact(a: Value, b: Value)
    requires Whole(a) && Whole(b) && Render(a) == Render(b)
    ensures a.n == b.n
  {
    var largeA, largeB := a.Float? && Large(a.n), b.Float? && Large(b.n);
    if largeA && largeB {
      ScientificInjective(a.n, b.n);
    } else if largeA {
      FormsDiffer(a.n, b.n);
    } else if largeB {
      FormsDiffer(b.n, a.n);
    } else {
      DecimalInjective(a.n, b.n);
    }
  }

  // ---------- Lists ----------

  predicate SameScalarKind(a: Value, b: Value) {
    (a.Null? && b.Null?) || (a.Bool? && b.Bool?) || (a.Text? && b.Text?) || (a.Fraction? && b.Fraction?)
    || (Whole(a) && Whole(b))
  }

  /** Not empty and without a space. */
  predicate Word(s: string) { s != "" && ' ' !in s }

  predicate Wordy(v: Value) { (v.Text? ==> Word(v.s)) && (v.Fraction? ==> Word(v.text)) }

  /** Two values agree in kind: the same kind of scalar, or lists in which all items are of one kind and texts are
      words. */
  predicate SameKind(a: Value, b: Value) {
    if a.List? && b.List? then
      && (forall v <- a.items + b.items :: Wordy(v))
      && forall v <- a.items + b.items :: forall w <- a.items + b.items :: SameScalarKind(v, w)
    else SameScalarKind(a, b)
  }

  lemma DecimalIsWord(k: int)
    ensures Word(Decimal(k))
  {
    DigitsOnly(Magnitude(k));
  }

  lemma RendersWord(v: Value)
    requires Wordy(v) && SameScalarKind(v, v)
    ensures Word(Render(v))
  {
    match v
    case Int(k) => DecimalIsWord(k);
    case Float(k) =>
      DecimalIsWord(k);
      if Large(k) {
        ScientificParts(k);
        DigitsOnly(|Digits(Magnitude(k))| - 1);
      }
    case _ =>
  }

  lemma ScalarExact(a: Value, b: Value)
    requires SameScalarKind(a, b) && Render(a) == Render(b)
    ensures Decoded(a) == Decoded(b)
  {
    if Whole(a) {
      WholeExact(a, b);
    }
  }

  predicate Words(items: seq<Value>) { forall v <- items :: Word(Render(v)) }

  lemma RenderAllIsWord(items: seq<Value>)
    requires Words(items)
    ensures |items| == 0 ==> RenderAll(items) == ""
    ensures |items| == 1 ==> Word(RenderAll(items))
    ensures |items| > 1 ==> ' ' in RenderAll(items)
  {
    if |items| > 1 {
      assert RenderAll(items) == Render(items[0]) + [' '] + RenderAll(items[1..]);
    } else if |items| == 1 {
      assert items[0] in items;
    }
  }

  /** Joined by spaces, words can be told apart. */
  lemma {:induction false} JoinInjective(a: seq<Value>, b: seq<Value>)
    requires Words(a) && Words(b) && RenderAll(a) == RenderAll(b)
    ensures |a| == |b| && forall i :: 0 <= i < |a| ==> Render(a[i]) == Render(b[i])
  {
    RenderAllIsWord(a);
    RenderAllIsWord(b);
    if |a| > 1 && |b| > 1 {
      assert a[0] in a && b[0] in b;
      assert " " == [' '];
      SplitIsUnique(' ', Render(a[0]), RenderAll(a[1..]), Render(b[0]), RenderAll(b[1..]));
      JoinInjective(a[1..], b[1..]);
      forall i | 0 <= i < |a|
        ensures Render(a[i]) == Render(b[i])
      {
        if i > 0 {
          assert a[i] == a[1..][i - 1] && b[i] == b[1..][i - 1];
        }
      }
    }
  }

  lemma ListExact(a: seq<Value>, b: seq<Value>)
    requires SameKind(List(a), List(b)) && RenderAll(a) == RenderAll(b)
    ensures DecodedAll(a) == DecodedAll(b)
  {
    var both := a + b;
    assert forall v <- a :: v in both;
    assert forall v <- b :: v in both;
    forall v | v in both
      ensures Word(Render(v))
    {
      RendersWord(v);
    }
    JoinInjective(a, b);
    forall i | 0 <= i < |a|
      ensures DecodedAll(a)[i] == DecodedAll(b)[i]
    {
      assert a[i] in both && b[i] in both;
      ScalarExact(a[i], b[i]);
    }
  }

  /** Values that agree in kind and print alike are the same value, up to the number type of JSON. */
  lemma ValueExact(a: Value, b: Value)
    requires SameKind(a, b) && Render(a) == Render(b)
    ensures Decoded(a) == Decoded(b)
  {
    if a.List? {
      var x, y := Render(a), Render(b);
      assert x[1..|x| - 1] == RenderAll(a.items) && y[1..|y| - 1] == RenderAll(b.items);
      ListExact(a.items, b.items);
    } else {
      ScalarExact(a, b);
    }
  }

  lemma PlainExact(a: Value, b: Value)
    requires Plain(a) && Plain(b) && Decoded(a) == Decoded(b)
    ensures Render(a) == Render(b)
  {
    DecodedPrintsAlike(a);
    DecodedPrintsAlike(b);
  }

  // ---------- Configurations ----------

  /** What is compared of a configuration: without metadata, with canonical proxies. */
  function Meaning(n: Notation, d: Config): Config { Canon(n, Stripped(d)) }

  /** The options that both have agree in kind. */
  predicate Comparable(n: Notation, a: Config, b: Config) {
    forall k <- Meaning(n, a) :: k in Meaning(n, b) ==> SameKind(Meaning(n, a)[k], Meaning(n, b)[k])
  }

  predicate PlainConfig(d: Config) { forall k <- d :: Plain(d[k]) }

  /** The same configuration, metadata, the writing of proxies and the number type of JSON aside. */
  predicate Same(n: Notation, a: Config, b: Config) { DecodedConfig(Meaning(n, a)) == DecodedConfig(Meaning(n, b)) }

  /** Where values agree in kind, configurations that compare equal are the same. */
  lemma EqualMeansSame(n: Notation, a: Config, b: Config)
    requires Comparable(n, a, b) && Equal(n, a, b)
    ensures Same(n, a, b)
  {
    var x, y := Meaning(n, a), Meaning(n, b);
    forall k | k in x
      ensures k in y && DecodedConfig(x)[k] == DecodedConfig(y)[k]
    {
      ValueExact(x[k], y[k]);
    }
    assert DecodedConfig(x).Keys == x.Keys && DecodedConfig(y).Keys == y.Keys;
  }

  lemma SameMeansEqual(n: Notation, a: Config, b: Config)
    requires PlainConfig(Meaning(n, a)) && PlainConfig(Meaning(n, b)) && Same(n, a, b)
    ensures Equal(n, a, b)
  {
    var x, y := Meaning(n, a), Meaning(n, b);
    assert DecodedConfig(x).Keys == x.Keys && DecodedConfig(y).Keys == y.Keys;
    forall k | k in x
      ensures k in y && Render(x[k]) == Render(y[k])
    {
      assert DecodedConfig(x)[k] == DecodedConfig(y)[k];
      PlainExact(x[k], y[k]);
    }
  }

  /** With no integer of a million or more, the comparison is exact. */
  lemma ComparisonIsExact(n: Notation, a: Config, b: Config)
    requires Comparable(n, a, b) && PlainConfig(Meaning(n, a)) && PlainConfig(Meaning(n, b))
    ensures Equal(n, a, b) <==> Same(n, a, b)
  {
    if Equal(n, a, b) {
      EqualMeansSame(n, a, b);
    }
    if Same(n, a, b) {
      SameMeansEqual(n, a, b);
    }
  }
}
