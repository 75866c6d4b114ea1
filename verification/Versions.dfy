/**
 Kubernetes resource versions as the sync controller reads them: decimal
 numerals that fit an unsigned 64-bit integer.  Anything else makes the
 comparison panic, which is modelled as the absence of a result.
 */
module Versions {
  import opened Common

  predicate AllDigits(s: string) {
    forall i :: 0 <= i < |s| ==> '0' <= s[i] <= '9'
  }

  function Value(s: string): nat
    requires AllDigits(s)
  {
    if s == "" then 0
    else Value(s[..|s| - 1]) * 10 + (s[|s| - 1] as int - '0' as int)
  }

  /** The strings strconv.ParseUint(s, 10, 64) accepts. */
  predicate IsNumeral(s: string) {
    s != "" && AllDigits(s) && Value(s) < UINT64_LIMIT
  }

  function ParseUint(s: string): Option<nat> {
    if IsNumeral(s) then Some(Value(s)) else None
  }

  /** The number a numeral denotes; 0 for every other string. */
  function Num(s: string): nat {
    if IsNumeral(s) then Value(s) else 0
  }

  /** CompareResourceVersion: None stands for the panic on a non-numeral. */
  function CompareResourceVersion(a: string, b: string): Option<int> {
    match (ParseUint(a), ParseUint(b))
    case (Some(x), Some(y)) => Some(if x > y then 1 else if x == y then 0 else -1)
    case _ => None
  }

  // ---------------------------------------------------------------- a total order

  /** Digits without a leading zero. */
  predicate Trimmed(s: string) {
    AllDigits(s) && (s != "" ==> s[0] != '0')
  }

  /** A numeral as the API server writes it. */
  predicate Canonical(s: string) {
    IsNumeral(s) && (s == "0" || Trimmed(s))
  }

  lemma {:induction false} TrimmedPositive(s: string)
    requires Trimmed(s) && s != ""
    ensures Value(s) > 0
  {
    if |s| > 1 {
      TrimmedPositive(s[..|s| - 1]);
    }
  }

  lemma {:induction false} TrimmedUnique(a: string, b: string)
    requires Trimmed(a) && Trimmed(b) && Value(a) == Value(b)
    ensures a == b
  {
    if a == "" || b == "" {
      if a != "" { TrimmedPositive(a); }
      if b != "" { TrimmedPositive(b); }
    } else {
      var a', b' := a[..|a| - 1], b[..|b| - 1];
      var x, y := a[|a| - 1], b[|b| - 1];
      assert Value(a) == Value(a') * 10 + (x as int - '0' as int);
      assert Value(b) == Value(b') * 10 + (y as int - '0' as int);
      TrimmedUnique(a', b');
      assert a == a' + [x] && b == b' + [y];
    }
  }

  lemma CanonicalUnique(a: string, b: string)
    requires Canonical(a) && Canonical(b) && Num(a) == Num(b)
    ensures a == b
  {
    ZeroIsNumeral();
    if a == "0" && b != "0" {
      TrimmedPositive(b);
    } else if a != "0" && b == "0" {
      TrimmedPositive(a);
    } else if a != "0" {
      TrimmedUnique(a, b);
    }
  }

  /** On numerals the comparison is a total order, which on canonical ones tells any two apart; on
      anything else it panics. */
  lemma CompareIsAnOrder(a: string, b: string, c: string)
    ensures CompareResourceVersion(a, b).Some? <==> IsNumeral(a) && IsNumeral(b)
    ensures IsNumeral(a) && IsNumeral(b) ==>
              CompareResourceVersion(a, b).value == -CompareResourceVersion(b, a).value
    ensures IsNumeral(a) && IsNumeral(b) && IsNumeral(c) &&
            CompareResourceVersion(a, b).value <= 0 && CompareResourceVersion(b, c).value <= 0 ==>
              CompareResourceVersion(a, c).value <= 0
    ensures Canonical(a) && Canonical(b) ==> (CompareResourceVersion(a, b).value == 0 <==> a == b)
  {
    if Canonical(a) && Canonical(b) && Num(a) == Num(b) {
      CanonicalUnique(a, b);
    }
  }

  lemma ZeroIsNumeral()
    ensures IsNumeral("0") && Num("0") == 0
  {
    assert Value("") == 0;
    assert "0"[..0] == "";
  }

  // ---------------------------------------------------------------- decimal notation

  /** The decimal notation of a number. */
  function Decimal(n: nat): string {
    if n < 10 then [Digit(n)] else Decimal(n / 10) + [Digit(n % 10)]
  }

  function Digit(d: nat): char
    requires d < 10
  {
    '0' + d as char
  }

  lemma {:induction false} DecimalValue(n: nat)
    ensures Decimal(n) != "" && AllDigits(Decimal(n)) && Value(Decimal(n)) == n
    ensures n > 0 ==> Trimmed(Decimal(n))
  {
    if n < 10 {
      assert Decimal(n)[..0] == "" && Value("") == 0;
    } else {
      DecimalValue(n / 10);
      var front := Decimal(n / 10);
      assert Decimal(n)[..|front|] == front && Decimal(n)[0] == front[0];
      assert forall i :: 0 <= i < |front| ==> Decimal(n)[i] == front[i];
    }
  }

  /** The comparison is that of the numbers: it reads decimal notation, up to 64 bits, and panics beyond. */
  lemma ComparesNumbers(a: nat, b: nat)
    ensures Canonical(Decimal(a)) <==> a < UINT64_LIMIT
    ensures CompareResourceVersion(Decimal(a), Decimal(b)).Some? <==> a < UINT64_LIMIT && b < UINT64_LIMIT
    ensures a < UINT64_LIMIT && b < UINT64_LIMIT ==>
              var c := CompareResourceVersion(Decimal(a), Decimal(b)).value;
              (c > 0 <==> a > b) && (c == 0 <==> a == b) && (c < 0 <==> a < b)
  {
    DecimalValue(a);
    DecimalValue(b);
    assert a == 0 ==> Decimal(a) == "0";
  }
}
