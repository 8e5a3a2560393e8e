/** Decimal integers as Go's strconv reads and writes them. */
module Decimal {
  import opened Common

  predicate IsDigit(c: char) { '0' <= c <= '9' }

  predicate AllDigits(s: string) { forall i | 0 <= i < |s| :: IsDigit(s[i]) }

  function Digit(d: nat): (c: char)
    requires d < 10
    ensures IsDigit(c)
  {
    '0' + d as char
  }

  function Digits(n: nat): (s: string)
    ensures s != "" && AllDigits(s)
  {
    if n < 10 then [Digit(n)] else Digits(n / 10) + [Digit(n % 10)]
  }

  function Value(s: string): nat
    requires AllDigits(s)
  {
    if s == "" then 0 else assert IsDigit(s[|s| - 1]); Value(s[..|s| - 1]) * 10 + (s[|s| - 1] as int - '0' as int)
  }

  function FormatInt(n: int): string { if n < 0 then "-" + Digits(-n) else Digits(n) }

  /** Half the range of a signed integer of `bits` bits. */
  function Half(bits: nat): int { if bits <= 32 then 0x8000_0000 else 0x8000_0000_0000_0000 }

  predicate InRange(n: int, bits: nat) { -Half(bits) <= n < Half(bits) }

  /** strconv.ParseInt in base 10: an optional sign, at least one digit, nothing else, in range. */
  function ParseInt(s: string, bits: nat): (r: Option<int>)
    ensures r.Some? ==> InRange(r.value, bits)
  {
    var signed := s != "" && (s[0] == '+' || s[0] == '-');
    var body := if signed then s[1..] else s;
    if body == "" || !AllDigits(body) then None
    else
      var n: int := Value(body);
      var n := if signed && s[0] == '-' then -n else n;
      if InRange(n, bits) then Some(n) else None
  }

  lemma {:induction false} DigitsValue(n: nat)
    ensures Value(Digits(n)) == n
  {
    if n < 10 {
      assert [Digit(n)][..0] == "";
    } else {
      DigitsValue(n / 10);
      assert Digits(n)[..|Digits(n)| - 1] == Digits(n / 10);
    }
  }

  lemma ParseDigits(d: string, bits: nat)
    requires d != "" && AllDigits(d)
    ensures InRange(Value(d), bits) ==> ParseInt(d, bits) == Some(Value(d))
    ensures InRange(-(Value(d) as int), bits) ==> ParseInt("-" + d, bits) == Some(-(Value(d) as int))
  {
    assert IsDigit(d[0]);
    assert ("-" + d)[1..] == d;
  }

  /** What a written number is read back as: itself within 32 or 64 signed bits, nothing outside them. */
  lemma ReadBackIff(n: int)
    ensures ParseInt(FormatInt(n), 32) == if -0x8000_0000 <= n <= 0x7fff_ffff then Some(n) else None
    ensures ParseInt(FormatInt(n), 64)
            == if -0x8000_0000_0000_0000 <= n <= 0x7fff_ffff_ffff_ffff then Some(n) else None
  {
    var m: nat := if n < 0 then -n else n;
    DigitsValue(m);
    ParseSigned(Digits(m), 32);
    ParseSigned(Digits(m), 64);
  }

  /** Digits behind a sign or none, and nothing else, are a number. */
  lemma ParseSigned(d: string, bits: nat)
    requires d != "" && AllDigits(d)
    ensures var v: int := Value(d);
            && ParseInt(d, bits) == (if InRange(v, bits) then Some(v) else None)
            && ParseInt("+" + d, bits) == ParseInt(d, bits)
            && ParseInt("-" + d, bits) == (if InRange(-v, bits) then Some(-v) else None)
  {
    assert IsDigit(d[0]);
    assert ("-" + d)[1..] == d && ("+" + d)[1..] == d;
  }

  lemma NotANumber(s: string, bits: nat)
    requires s == "" || s == "+" || s == "-" || exists i :: 0 < i < |s| && !('0' <= s[i] <= '9')
    ensures ParseInt(s, bits).None?
  {
    var signed := s != "" && (s[0] == '+' || s[0] == '-');
    var body := if signed then s[1..] else s;
    if body != "" {
      var i :| 0 < i < |s| && !('0' <= s[i] <= '9');
      assert !IsDigit(body[if signed then i - 1 else i]);
      assert !AllDigits(body);
    }
  }

  lemma IntRoundTrip(n: int, bits: nat)
    requires InRange(n, bits)
    ensures ParseInt(FormatInt(n), bits) == Some(n)
  {
    var m: nat := if n < 0 then -n else n;
    DigitsValue(m);
    ParseDigits(Digits(m), bits);
  }
}
