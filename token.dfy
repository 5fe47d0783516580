/**
 * The correlation token that sendRequestToExtension builds with
 * `fmt.Sprintf("%s_%d_%d", method, time.Now().Unix(), rand.Intn(1000000))`
 * (main.go:446). The clock and the random draw are parameters. The module
 * shows that a token can be split back into its three parts. So two requests
 * get the same token exactly when their method, second and draw are all equal.
 */
module Token {
  import opened Messages

  /** The range of `rand.Intn(1000000)`. */
  type Suffix = r: int | 0 <= r < 1000000

  function DigitChar(d: nat): char
    requires d < 10
  {
    ('0' as int + d) as char
  }

  function DigitOf(c: char): nat
  {
    if '0' <= c <= '9' then c as int - '0' as int else 0
  }

  /** Decimal digits of `n`, most significant first, with no leading zeros. */
  function NatDigits(n: nat): string
    decreases n
  {
    if n < 10 then [DigitChar(n)] else NatDigits(n / 10) + [DigitChar(n % 10)]
  }

  /** Go's `%d` rendering of a (64-bit) integer; the Unix clock can be negative. */
  function Decimal(i: int): string
  {
    if i < 0 then "-" + NatDigits(-i) else NatDigits(i)
  }

  predicate AllDigits(s: string)
  {
    forall k | 0 <= k < |s| :: '0' <= s[k] <= '9'
  }

  /** The value of a string of digits, read left to right. */
  function DigitsValue(s: string): nat
    decreases |s|
  {
    if s == [] then 0 else DigitsValue(s[..|s| - 1]) * 10 + DigitOf(s[|s| - 1])
  }

  /** Reads back what `Decimal` writes. */
  function ReadDecimal(s: string): (v: int)
  {
    if |s| > 0 && s[0] == '-' then 0 - DigitsValue(s[1..]) as int else DigitsValue(s)
  }

  lemma {:induction false} NatDigitsInverse(n: nat)
    ensures |NatDigits(n)| > 0 && AllDigits(NatDigits(n))
    ensures DigitsValue(NatDigits(n)) == n
    decreases n
  {
    if n >= 10 {
      NatDigitsInverse(n / 10);
      var s := NatDigits(n);
      assert s[..|s| - 1] == NatDigits(n / 10);
    }
  }

  /** `Decimal` is undone by `ReadDecimal`, and never writes the separator. */
  lemma DecimalInverse(i: int)
    ensures ReadDecimal(Decimal(i)) == i
    ensures '_' !in Decimal(i)
  {
    var n: nat := if i < 0 then -i else i;
    NatDigitsInverse(n);
    var d := NatDigits(n);
    if i < 0 {
      assert Decimal(i)[1..] == d;
    }
    forall k | 0 <= k < |Decimal(i)|
      ensures Decimal(i)[k] != '_'
    {
      if i < 0 && k > 0 {
        assert Decimal(i)[k] == d[k - 1];
      }
    }
  }

  /** The request ID: `method + "_" + seconds + "_" + suffix`. */
  function Make(methodName: string, unixSeconds: int, suffix: Suffix): string
  {
    methodName + "_" + Decimal(unixSeconds) + "_" + Decimal(suffix)
  }

  /** Position of the last `_` in `s`, if any. */
  function LastSeparator(s: string): (k: Option<nat>)
    ensures k.Some? ==> k.value < |s| && s[k.value] == '_'
    ensures k.None? ==> '_' !in s
    decreases |s|
  {
    if s == [] then None
    else if s[|s| - 1] == '_' then Some(|s| - 1)
    else
      var k := LastSeparator(s[..|s| - 1]);
      assert k.None? ==> forall j | 0 <= j < |s| :: s[j] != '_' by {
        if k.None? {
          forall j | 0 <= j < |s| ensures s[j] != '_' {
            if j < |s| - 1 { assert s[j] == s[..|s| - 1][j]; }
          }
        }
      }
      k
  }

  lemma {:induction false} LastSeparatorOf(a: string, b: string)
    requires '_' !in b
    ensures LastSeparator(a + "_" + b) == Some(|a|)
    decreases |b|
  {
    if b != [] {
      var s := a + "_" + b;
      var b' := b[..|b| - 1];
      assert s[|s| - 1] == b[|b| - 1];
      assert s[..|s| - 1] == a + "_" + b';
      assert '_' !in b' by {
        forall j | 0 <= j < |b'| ensures b'[j] != '_' { assert b'[j] == b[j]; }
      }
      LastSeparatorOf(a, b');
    }
  }

  datatype Parts = Parts(methodName: string, unixSeconds: int, suffix: int)

  /** Splits a token at its last two separators, reading the numbers back. */
  function Split(token: string): Option<Parts>
  {
    match LastSeparator(token)
    case None => None
    case Some(k) =>
      match LastSeparator(token[..k])
      case None => None
      case Some(j) =>
        Some(Parts(token[..j], ReadDecimal(token[j + 1..k]), ReadDecimal(token[k + 1..])))
  }

  /** Every token splits back into the method, second and draw it was made from. */
  lemma SplitMake(methodName: string, unixSeconds: int, suffix: Suffix)
    ensures Split(Make(methodName, unixSeconds, suffix)) == Some(Parts(methodName, unixSeconds, suffix))
  {
    var ds, dr := Decimal(unixSeconds), Decimal(suffix);
    DecimalInverse(unixSeconds);
    DecimalInverse(suffix);
    var head := methodName + "_" + ds;
    var token := head + "_" + dr;
    assert token == Make(methodName, unixSeconds, suffix);
    LastSeparatorOf(head, dr);
    var k := |head|;
    assert token[..k] == head;
    LastSeparatorOf(methodName, ds);
    var j := |methodName|;
    assert head[..j] == methodName;
    assert head[j + 1..] == ds;
    assert token[..j] == methodName;
    assert token[j + 1..k] == ds;
    assert token[k + 1..] == dr;
    assert LastSeparator(token) == Some(k);
    assert LastSeparator(token[..k]) == Some(j);
    assert ReadDecimal(token[j + 1..k]) == unixSeconds;
    assert ReadDecimal(token[k + 1..]) == suffix;
    assert Split(token) == Some(Parts(methodName, unixSeconds, suffix));
  }

  /** Tokens coincide exactly when all three components do. */
  lemma MakeInjective(m1: string, s1: int, r1: Suffix, m2: string, s2: int, r2: Suffix)
    ensures Make(m1, s1, r1) == Make(m2, s2, r2) <==> (m1 == m2 && s1 == s2 && r1 == r2)
  {
    SplitMake(m1, s1, r1);
    SplitMake(m2, s2, r2);
  }

  /** A token is never empty, so the read loop's `request.ID != ""` test lets it through. */
  lemma MakeNonEmpty(methodName: string, unixSeconds: int, suffix: Suffix)
    ensures Make(methodName, unixSeconds, suffix) != ""
  {
  }
}
