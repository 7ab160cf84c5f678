/** Names of the database tables, `DatabasePrivate::mapName`. */
module MapNames {
  /** A table: raw data when the resolution is 0, an archive at that many minutes otherwise. */
  datatype Series = Series(thingId: string, property: string, resolution: int)

  function Digit(d: nat): char
    requires d < 10
  {
    "0123456789"[d]
  }

  function Digits(n: nat): (r: string)
    ensures r != [] && '0' <= r[0] <= '9' && '.' !in r
  {
    if n < 10 then [Digit(n)] else Digits(n / 10) + [Digit(n % 10)]
  }

  /** `std::to_string`. */
  function Decimal(n: int): (r: string)
    ensures r != [] && ('0' <= r[0] <= '9' || r[0] == '-') && '.' !in r
  {
    if n < 0 then ['-'] + Digits(-n) else Digits(n)
  }

  function MapName(s: Series): string {
    var name := s.thingId + "." + s.property;
    if s.resolution != 0 then name + "." + (Decimal(s.resolution) + "min") else name
  }

  /** Property names are C++ identifiers: no dot, and neither a digit nor a minus in front. */
  predicate Identifier(p: string) {
    p != [] && '.' !in p && !('0' <= p[0] <= '9') && p[0] != '-'
  }

  lemma DigitInjective(a: nat, b: nat)
    requires a < 10 && b < 10 && Digit(a) == Digit(b)
    ensures a == b
  {
  }

  lemma {:induction false} DigitsInjective(a: nat, b: nat)
    requires Digits(a) == Digits(b)
    ensures a == b
  {
    var x, y := Digits(a), Digits(b);
    assert x[|x| - 1] == Digit(a % 10) && y[|y| - 1] == Digit(b % 10);
    DigitInjective(a % 10, b % 10);
    assert a < 10 <==> |x| == 1;
    if a >= 10 {
      assert Digits(a / 10) == x[..|x| - 1] && Digits(b / 10) == y[..|y| - 1];
      DigitsInjective(a / 10, b / 10);
    }
  }

  lemma DecimalInjective(a: int, b: int)
    requires Decimal(a) == Decimal(b)
    ensures a == b
  {
    if a < 0 {
      assert Decimal(a)[1..] == Digits(-a) && Decimal(b)[1..] == Digits(-b);
      DigitsInjective(-a, -b);
    } else {
      DigitsInjective(a, b);
    }
  }

  lemma DotBefore(a: string, b: string, c: string, d: string)
    requires a + "." + b == c + "." + d && |a| < |c|
    ensures '.' in b
  {
    var x, y := a + "." + b, c + "." + d;
    assert y[|c|] == '.' && x[|c|] == b[|c| - |a| - 1];
  }

  /** The last dot splits a name in one way only. */
  lemma LastDot(a: string, b: string, c: string, d: string)
    requires a + "." + b == c + "." + d && '.' !in b && '.' !in d
    ensures a == c && b == d
  {
    var x, y := a + "." + b, c + "." + d;
    if |a| < |c| {
      DotBefore(a, b, c, d);
    } else if |c| < |a| {
      DotBefore(c, d, a, b);
    }
    assert x[..|a|] == a && y[..|c|] == c && x[|a| + 1..] == b && y[|c| + 1..] == d;
  }

  /** No two series share a table. */
  lemma MapNameInjective(s: Series, r: Series)
    requires Identifier(s.property) && Identifier(r.property) && MapName(s) == MapName(r)
    ensures s == r
  {
    hide Decimal, Digits;
    var m, n := Decimal(s.resolution) + "min", Decimal(r.resolution) + "min";
    assert m[0] == Decimal(s.resolution)[0] && n[0] == Decimal(r.resolution)[0];
    if s.resolution == 0 && r.resolution == 0 {
      LastDot(s.thingId, s.property, r.thingId, r.property);
    } else if s.resolution == 0 {
      LastDot(s.thingId, s.property, r.thingId + "." + r.property, n);
      assert false;
    } else if r.resolution == 0 {
      LastDot(s.thingId + "." + s.property, m, r.thingId, r.property);
      assert false;
    } else {
      LastDot(s.thingId + "." + s.property, m, r.thingId + "." + r.property, n);
      LastDot(s.thingId, s.property, r.thingId, r.property);
      assert Decimal(s.resolution) == m[..|m| - 3] && Decimal(r.resolution) == n[..|n| - 3];
      DecimalInjective(s.resolution, r.resolution);
    }
  }

  /** The number that decimal digits stand for. */
  function Value(digits: string): int {
    if digits == "" then 0
    else 10 * Value(digits[..|digits| - 1]) + (digits[|digits| - 1] as int - '0' as int)
  }

  /** Decimal digits without a leading zero. */
  lemma {:induction false} DigitsMean(n: nat)
    ensures forall c | c in Digits(n) :: '0' <= c <= '9'
    ensures Value(Digits(n)) == n && (Digits(n)[0] == '0' <==> n == 0)
  {
    var digits := Digits(n);
    if n < 10 {
      assert digits[..0] == "";
    } else {
      DigitsMean(n / 10);
      assert digits[..|digits| - 1] == Digits(n / 10);
    }
  }

  /** The name: thing, dot, property, and for an archive a dot, the minutes in decimal and "min". */
  lemma NameForm(s: Series) returns (minutes: string)
    requires s.resolution >= 0
    ensures forall c | c in minutes :: '0' <= c <= '9'
    ensures Value(minutes) == s.resolution && minutes != "" && (minutes[0] == '0' <==> s.resolution == 0)
    ensures MapName(s) == s.thingId + "." + s.property + if s.resolution == 0 then "" else "." + minutes + "min"
  {
    minutes := Digits(s.resolution);
    DigitsMean(s.resolution);
    hide Digits;
    var name := s.thingId + "." + s.property;
    assert name + ("." + (minutes + "min")) == name + ("." + minutes + "min") && name + "" == name;
  }
}
