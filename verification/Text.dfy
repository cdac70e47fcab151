/** Decimal numbers and trimming, as the message parser uses them. */
module Text {
  import opened Common

  const MIN_INT64: int := -0x8000_0000_0000_0000
  const MAX_INT64: int := 0x7FFF_FFFF_FFFF_FFFF

  predicate IsDigit(c: char) { '0' <= c <= '9' }

  predicate AllDigits(s: string) { forall i | 0 <= i < |s| :: IsDigit(s[i]) }

  // The space characters of Unicode.
  predicate IsSpace(c: char) {
    || '\t' <= c <= '\r' || c == ' ' || c == '\U{85}' || c == '\U{A0}' || c == '\U{1680}'
    || '\U{2000}' <= c <= '\U{200A}' || c in {'\U{2028}', '\U{2029}', '\U{202F}', '\U{205F}', '\U{3000}'}
  }

  function TrimLeft(s: string): string {
    if s != "" && IsSpace(s[0]) then TrimLeft(s[1..]) else s
  }

  function TrimRight(s: string): string {
    if s != "" && IsSpace(s[|s| - 1]) then TrimRight(s[..|s| - 1]) else s
  }

  function TrimSpace(s: string): string { TrimRight(TrimLeft(s)) }

  predicate Trimmed(s: string) { s == "" || (!IsSpace(s[0]) && !IsSpace(s[|s| - 1])) }

  lemma {:induction false} TrimRightEnds(s: string)
    ensures var r := TrimRight(s); r <= s && (r == "" || !IsSpace(r[|r| - 1]))
  {
    if s != "" && IsSpace(s[|s| - 1]) { TrimRightEnds(s[..|s| - 1]); }
  }

  lemma {:induction false} TrimLeftStarts(s: string)
    ensures var r := TrimLeft(s); (r == "" || !IsSpace(r[0])) && |r| <= |s| && (|r| == |s| ==> r == s)
  {
    if s != "" && IsSpace(s[0]) { TrimLeftStarts(s[1..]); }
  }

  /** Trimming leaves exactly the trimmed strings alone, and its result is one of them. */
  lemma TrimSpaceFacts(s: string)
    ensures Trimmed(TrimSpace(s))
    ensures TrimSpace(s) == s <==> Trimmed(s)
  {
    TrimLeftStarts(s);
    TrimRightEnds(TrimLeft(s));
  }

  predicate AllSpace(s: string) { forall i | 0 <= i < |s| :: IsSpace(s[i]) }

  lemma {:induction false} TrimLeftDrops(s: string) returns (before: string)
    ensures AllSpace(before) && s == before + TrimLeft(s)
  {
    before := "";
    if s != "" && IsSpace(s[0]) {
      var more := TrimLeftDrops(s[1..]);
      before := [s[0]] + more;
    }
  }

  lemma {:induction false} TrimRightDrops(s: string) returns (after: string)
    ensures AllSpace(after) && s == TrimRight(s) + after
  {
    after := "";
    if s != "" && IsSpace(s[|s| - 1]) {
      var more := TrimRightDrops(s[..|s| - 1]);
      after := more + [s[|s| - 1]];
    }
  }

  /** Trimming drops spaces at both ends and nothing else. */
  lemma TrimSpaceDrops(s: string) returns (before: string, after: string)
    ensures AllSpace(before) && AllSpace(after) && s == before + TrimSpace(s) + after
    ensures Trimmed(TrimSpace(s))
  {
    TrimSpaceFacts(s);
    before := TrimLeftDrops(s);
    after := TrimRightDrops(TrimLeft(s));
  }

  lemma {:induction false} NotBlank(s: string)
    requires s != "" && !IsSpace(s[0])
    ensures TrimSpace(s) != ""
  {
    if IsSpace(s[|s| - 1]) { NotBlank(s[..|s| - 1]); }
  }

  function DigitValue(c: char): int
    requires IsDigit(c)
  {
    c as int - '0' as int
  }

  function DigitsValue(s: string): nat
    requires AllDigits(s)
  {
    if s == "" then 0 else DigitsValue(s[..|s| - 1]) * 10 + DigitValue(s[|s| - 1])
  }

  function Digits(n: nat): string {
    if n < 10 then [('0' as int + n) as char] else Digits(n / 10) + [('0' as int + n % 10) as char]
  }

  function Itoa(n: int): string { if n < 0 then "-" + Digits(-n) else Digits(n) }

  /** An optional sign, then decimal digits only, within 64 bits. */
  function Atoi(s: string): Option<int> {
    var digits := if s != "" && s[0] in {'+', '-'} then s[1..] else s;
    if digits == "" || !AllDigits(digits) then None
    else
      var n: int := if s[0] == '-' then 0 - DigitsValue(digits) else DigitsValue(digits);
      if MIN_INT64 <= n <= MAX_INT64 then Some(n) else None
  }

  lemma {:induction false} DigitsRoundTrip(n: nat)
    ensures var s := Digits(n); s != "" && AllDigits(s) && DigitsValue(s) == n
  {
    if n >= 10 { DigitsRoundTrip(n / 10); }
  }

  /** Printing a 64-bit integer and reading it back gives the integer, with nothing to trim. */
  lemma ItoaRoundTrip(n: int)
    ensures Trimmed(Itoa(n)) && Itoa(n) != ""
    ensures Atoi(Itoa(n)) == if MIN_INT64 <= n <= MAX_INT64 then Some(n) else None
  {
    DigitsRoundTrip(if n < 0 then -n else n);
    var s := Itoa(n);
    var digits := Digits(if n < 0 then -n else n);
    assert n >= 0 ==> IsDigit(s[0]);
    if n < 0 { assert s[1..] == digits; }
    assert IsDigit(digits[|digits| - 1]) && s[|s| - 1] == digits[|digits| - 1];
  }

  function Within64(n: int): Option<int> { if MIN_INT64 <= n <= MAX_INT64 then Some(n) else None }

  predicate Numeral(s: string) { s != "" && AllDigits(s) }

  /** A number is read exactly from a numeral, alone or after a sign, and as what its digits say. */
  lemma AtoiExactly(s: string)
    ensures Numeral(s) ==> Atoi(s) == Within64(DigitsValue(s))
    ensures s != "" && Numeral(s[1..]) && s[0] == '+' ==> Atoi(s) == Within64(DigitsValue(s[1..]))
    ensures s != "" && Numeral(s[1..]) && s[0] == '-' ==> Atoi(s) == Within64(-(DigitsValue(s[1..]) as int))
    ensures Atoi(s).Some? ==> Numeral(s) || (s != "" && s[0] in {'+', '-'} && Numeral(s[1..]))
  {
    assert Numeral(s) ==> IsDigit(s[0]);
  }
}
