/** Decimal evaluation with the 64-bit arithmetic of the original, and the
    printer it is the inverse of. */
module Strconv {
  const WORD: int := 0x1_0000_0000_0000_0000

  const LIMIT: int := 0x8000_0000_0000_0000

  /** Two's-complement truncation to 64 bits. */
  function Wrap(x: int): (r: int)
    ensures -LIMIT <= r < LIMIT
  {
    (x + LIMIT) % WORD - LIMIT
  }

  predicate IsDigit(c: char) {
    '0' <= c <= '9'
  }

  /** The digits of a text, everything else skipped. */
  function Digits(s: string): seq<nat> {
    if s == "" then []
    else Digits(s[..|s| - 1]) + if IsDigit(s[|s| - 1]) then [(s[|s| - 1] - '0') as nat] else []
  }

  /** The number a digit sequence denotes, most significant digit first. */
  function Decimal(ds: seq<nat>): nat {
    if ds == [] then 0 else 10 * Decimal(ds[..|ds| - 1]) + ds[|ds| - 1]
  }

  /** What the original returns: -1 without digits, else the signed value of
      all digits, truncated to 64 bits. */
  function Parse(s: string): int {
    if s == "" then -1
    else
      var body := if s[0] == '-' then s[1..] else s;
      if Digits(body) == [] then -1
      else if s[0] == '-' then Wrap(0 - Decimal(Digits(body)))
      else Wrap(Decimal(Digits(body)))
  }

  // ---- Truncation is a congruence ----

  lemma WrapShift(x: int, k: int)
    ensures Wrap(x + k * WORD) == Wrap(x)
  {
  }

  lemma WrapFactor(x: int) returns (k: int)
    ensures Wrap(x) == x + k * WORD
  {
    k := -((x + LIMIT) / WORD);
  }

  lemma WrapSum(x: int, y: int)
    ensures Wrap(Wrap(x) + y) == Wrap(x + y)
  {
  }

  lemma WrapProduct(x: int, y: int)
    ensures Wrap(Wrap(x) * y) == Wrap(x * y)
  {
    var k := WrapFactor(x);
    assert (x + k * WORD) * y == x * y + (k * y) * WORD;
    WrapShift(x * y, k * y);
  }

  // ---- The evaluation loop ----

  function Power(n: nat): nat {
    if n == 0 then 1 else 10 * Power(n - 1)
  }

  lemma {:induction false} DecimalSplit(ds: seq<nat>, i: nat)
    requires i < |ds|
    ensures Decimal(ds[i..]) == Power(|ds| - 1 - i) * ds[i] + Decimal(ds[i + 1..])
  {
    if i == |ds| - 1 {
      assert ds[i..] == [ds[i]] && ds[i + 1..] == [];
      assert Decimal([ds[i]]) == 10 * Decimal([ds[i]][..0]) + ds[i];
    } else {
      var front := ds[..|ds| - 1];
      DecimalSplit(front, i);
      assert ds[i..][..|ds| - i - 1] == front[i..];
      assert ds[i + 1..][..|ds| - i - 2] == front[i + 1..];
      assert Power(|ds| - 1 - i) == 10 * Power(|front| - 1 - i);
      assert 10 * (Power(|front| - 1 - i) * ds[i]) == (10 * Power(|front| - 1 - i)) * ds[i];
    }
  }

  /** One round of the loop over truncated numbers is the round over exact ones. */
  lemma RoundWraps(number: int, pow: int, digit: int)
    ensures Wrap(Wrap(number) + Wrap(Wrap(pow) * digit)) == Wrap(pow * digit + number)
    ensures Wrap(Wrap(pow) * 10) == Wrap(10 * pow)
  {
    WrapProduct(pow, digit);
    WrapProduct(pow, 10);
    WrapSum(number, Wrap(pow * digit));
    WrapSum(pow * digit, number);
  }

  lemma ScanStep(body: string, j: nat)
    requires j < |body|
    ensures Digits(body[..j + 1]) == Digits(body[..j]) + if IsDigit(body[j]) then [(body[j] - '0') as nat] else []
  {
    assert body[..j + 1][..j] == body[..j];
  }

  lemma EvalStep(out: seq<nat>, i: nat, number: int, pow: int)
    requires i < |out| && number == Wrap(Decimal(out[i + 1..])) && pow == Wrap(Power(|out| - i - 1))
    ensures Wrap(number + Wrap(pow * out[i])) == Wrap(Decimal(out[i..]))
    ensures Wrap(pow * 10) == Wrap(Power(|out| - i))
  {
    DecimalSplit(out, i);
    RoundWraps(Decimal(out[i + 1..]), Power(|out| - i - 1), out[i]);
  }

  lemma NegationWraps(x: int)
    ensures Wrap(-Wrap(x)) == Wrap(0 - x)
  {
    WrapProduct(x, -1);
  }

  method SimpleStrconv(s: string) returns (number: int)
    ensures number == Parse(s)
  {
    if |s| == 0 {
      return -1;
    }
    var sign := s[0] == '-';
    var body := if sign then s[1..] else s;
    var out: seq<nat> := [];
    for j := 0 to |body|
      invariant out == Digits(body[..j])
    {
      ScanStep(body, j);
      if IsDigit(body[j]) {
        out := out + [(body[j] - '0') as nat];
      }
    }
    assert body[..|body|] == body;
    var scanned := |out|;
    if scanned == 0 {
      return -1;
    }
    number := 0;
    var pow := 1;
    var i := scanned;
    while i > 0
      invariant 0 <= i <= scanned
      invariant number == Wrap(Decimal(out[i..]))
      invariant pow == Wrap(Power(scanned - i))
    {
      EvalStep(out, i - 1, number, pow);
      number := Wrap(number + Wrap(pow * out[i - 1]));
      pow := Wrap(pow * 10);
      i := i - 1;
    }
    assert out[0..] == out;
    if sign {
      NegationWraps(Decimal(out));
      number := Wrap(-number);
    }
  }

  // ---- What a number denotes, digit by digit ----

  /** The sum of the digits times their powers of ten. */
  function Positional(ds: seq<nat>): nat {
    if ds == [] then 0 else Power(|ds| - 1) * ds[0] + Positional(ds[1..])
  }

  lemma {:induction false} DecimalIsPositional(ds: seq<nat>)
    ensures Decimal(ds) == Positional(ds)
  {
    if ds != [] {
      DecimalSplit(ds, 0);
      assert ds[0..] == ds;
      DecimalIsPositional(ds[1..]);
    }
  }

  predicate AreDigits(ds: seq<nat>) {
    forall i | 0 <= i < |ds| :: ds[i] < 10
  }

  function Text(ds: seq<nat>): string
    requires AreDigits(ds)
  {
    seq(|ds|, i requires 0 <= i < |ds| => Digit(ds[i]))
  }

  lemma {:induction false} DigitsOfText(ds: seq<nat>)
    requires AreDigits(ds)
    ensures Digits(Text(ds)) == ds
  {
    if ds != [] {
      var front, last := ds[..|ds| - 1], ds[|ds| - 1];
      DigitsOfText(front);
      assert Text(ds)[..|ds| - 1] == Text(front);
      assert ds == front + [last];
    }
  }

  lemma {:induction false} TextOfDigits(s: string)
    requires forall i | 0 <= i < |s| :: IsDigit(s[i])
    ensures |Digits(s)| == |s| && AreDigits(Digits(s)) && Text(Digits(s)) == s
  {
    if s != "" {
      TextOfDigits(s[..|s| - 1]);
      assert s == s[..|s| - 1] + [s[|s| - 1]];
    }
  }

  // ---- Printing and reading back ----

  function Digit(d: nat): char
    requires d < 10
  {
    '0' + d as char
  }

  function Dec(n: nat): (s: string)
    ensures s != "" && forall i | 0 <= i < |s| :: IsDigit(s[i])
  {
    if n < 10 then [Digit(n)] else Dec(n / 10) + [Digit(n % 10)]
  }

  lemma {:induction false} DigitsOfDec(n: nat)
    ensures Decimal(Digits(Dec(n))) == n && Digits(Dec(n)) != []
  {
    var s := Dec(n);
    if n < 10 {
      assert s[..|s| - 1] == "";
      assert Digits(s) == [n];
      assert Decimal([n]) == 10 * Decimal([n][..0]) + n;
    } else {
      DigitsOfDec(n / 10);
      assert s[..|s| - 1] == Dec(n / 10);
      var ds := Digits(s);
      assert ds == Digits(Dec(n / 10)) + [n % 10];
      assert ds[..|ds| - 1] == Digits(Dec(n / 10));
    }
  }

  lemma WrapSmall(x: int)
    requires -LIMIT <= x < LIMIT
    ensures Wrap(x) == x
  {
  }

  lemma ParseText(s: string, n: nat)
    requires s != "" && s[0] != '-' && Digits(s) != [] && Decimal(Digits(s)) == n && n < LIMIT
    ensures Parse(s) == n && Parse("-" + s) == 0 - n
  {
    assert ("-" + s)[1..] == s;
    WrapSmall(n);
    WrapSmall(0 - n);
  }

  /** Reading back a printed number of the original's range gives that number. */
  lemma ParseDec(n: nat)
    requires n < LIMIT
    ensures Parse(Dec(n)) == n
    ensures Parse("-" + Dec(n)) == 0 - n
  {
    var s := Dec(n);
    DigitsOfDec(n);
    assert s != "" && IsDigit(s[0]);
    ParseText(s, n);
  }

  lemma {:induction false} DecLength(n: nat, d: nat)
    requires d >= 1 && n < Power(d)
    ensures |Dec(n)| <= d
  {
    if n >= 10 {
      DecLength(n / 10, d - 1);
    }
  }
}
