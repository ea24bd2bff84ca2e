/** The canonical form of a certificate serial, and the number it stands for. */
module CertSerial {
  import opened Prelude

  const ENROLL_SERIAL_MAX_LEN: nat := 40

  /** strings.TrimLeft(s, "0"). */
  function TrimZeros(s: string): string {
    if s != "" && s[0] == '0' then TrimZeros(s[1..]) else s
  }

  /** Lower-case hex without leading zeros except the value "0"; None when the
      input is not that shape. */
  function CanonicalCertSerial(raw: string): Option<string> {
    if raw == "" || !LowerHex(raw) then None
    else
      var s := if TrimZeros(raw) == "" then "0" else TrimZeros(raw);
      if |s| > ENROLL_SERIAL_MAX_LEN then None else Some(s)
  }

  // ----- What a hex string is worth

  function DigitValue(c: char): (v: nat)
    requires HexDigit(c)
    ensures v < 16
  {
    if c <= '9' then (c - '0') as nat else 10 + (c - 'a') as nat
  }

  function HexValue(s: string): nat
    requires LowerHex(s)
  {
    if s == "" then 0 else 16 * HexValue(s[..|s| - 1]) + DigitValue(s[|s| - 1])
  }

  function Pow16(n: nat): (p: nat)
    ensures p > 0
  {
    if n == 0 then 1 else 16 * Pow16(n - 1)
  }

  predicate NoLeadingZero(s: string) {
    s == "" || s[0] != '0'
  }

  lemma DigitsAreDistinct(c: char, d: char)
    requires HexDigit(c) && HexDigit(d)
    ensures DigitValue(c) == DigitValue(d) <==> c == d
  {
  }

  lemma {:induction false} LeadingZeroIsWorthless(s: string)
    requires s != "" && LowerHex(s) && s[0] == '0'
    ensures HexValue(s) == HexValue(s[1..])
  {
    if |s| > 1 {
      LeadingZeroIsWorthless(s[..|s| - 1]);
      assert s[..|s| - 1][1..] == s[1..][..|s| - 2];
      assert s[1..][|s| - 2] == s[|s| - 1];
    }
  }

  lemma {:induction false} TrimKeepsTheValue(s: string)
    requires LowerHex(s)
    ensures LowerHex(TrimZeros(s)) && NoLeadingZero(TrimZeros(s)) && HexValue(TrimZeros(s)) == HexValue(s)
  {
    if s != "" && s[0] == '0' {
      LeadingZeroIsWorthless(s);
      TrimKeepsTheValue(s[1..]);
    }
  }

  lemma {:induction false} ValueBounds(s: string)
    requires LowerHex(s) && NoLeadingZero(s)
    ensures s == "" <==> HexValue(s) == 0
    ensures forall n: nat :: |s| <= n <==> HexValue(s) < Pow16(n)
  {
    if s != "" {
      var front := s[..|s| - 1];
      ValueBounds(front);
      if front == "" { DigitsAreDistinct(s[0], '0'); }
      forall n: nat ensures |s| <= n <==> HexValue(s) < Pow16(n) {
        if n > 0 {
          assert |front| <= n - 1 <==> HexValue(front) < Pow16(n - 1);
        }
      }
    }
  }

  lemma {:induction false} TrimmedIsDetermined(a: string, b: string)
    requires LowerHex(a) && LowerHex(b) && NoLeadingZero(a) && NoLeadingZero(b) && HexValue(a) == HexValue(b)
    ensures a == b
  {
    ValueBounds(a);
    ValueBounds(b);
    if a != "" {
      DigitsAreDistinct(a[|a| - 1], b[|b| - 1]);
      TrimmedIsDetermined(a[..|a| - 1], b[..|b| - 1]);
      assert a == a[..|a| - 1] + [a[|a| - 1]] && b == b[..|b| - 1] + [b[|b| - 1]];
    }
  }

  lemma CanonicalKeepsTheValue(raw: string)
    requires CanonicalCertSerial(raw).Some?
    ensures var s := CanonicalCertSerial(raw).value;
      LowerHex(s) && HexValue(s) == HexValue(raw) && CanonicalCertSerial(s) == Some(s)
  {
    TrimKeepsTheValue(raw);
    var s := CanonicalCertSerial(raw).value;
    if s == "0" {
      ValueBounds(TrimZeros(raw));
      assert HexValue("0") == 0;
      assert TrimZeros("0") == "";
    }
  }

  lemma FitsIff(s: string, n: nat)
    requires LowerHex(s) && NoLeadingZero(s)
    ensures |s| <= n <==> HexValue(s) < Pow16(n)
  {
    ValueBounds(s);
  }

  /** Exactly the non-empty lower-case hex strings worth less than 16^40 have a
      canonical form. */
  lemma CanonicalExistsIff(raw: string)
    ensures CanonicalCertSerial(raw).Some? <==>
              raw != "" && LowerHex(raw) && HexValue(raw) < Pow16(ENROLL_SERIAL_MAX_LEN)
  {
    if raw != "" && LowerHex(raw) {
      TrimKeepsTheValue(raw);
      FitsIff(TrimZeros(raw), ENROLL_SERIAL_MAX_LEN);
    }
  }

  /** Two serials have one canonical form exactly when they are one number. */
  lemma CanonicalIsTheNumber(a: string, b: string)
    requires CanonicalCertSerial(a).Some? && CanonicalCertSerial(b).Some?
    ensures CanonicalCertSerial(a) == CanonicalCertSerial(b) <==> HexValue(a) == HexValue(b)
  {
    CanonicalKeepsTheValue(a);
    CanonicalKeepsTheValue(b);
    TrimKeepsTheValue(a);
    TrimKeepsTheValue(b);
    if HexValue(a) == HexValue(b) {
      TrimmedIsDetermined(TrimZeros(a), TrimZeros(b));
    }
  }
}
