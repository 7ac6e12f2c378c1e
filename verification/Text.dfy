/** The string handling every service relies on: `strings.TrimSpace`, and the
    zero-padded counters that generated ids are made of. */
module Text {

  // ----- TrimSpace -----

  /** Unicode's White_Space property, the set `strings.TrimSpace` strips. */
  predicate IsSpace(c: char) {
    || '\t' <= c <= '\r'
    || c == ' '
    || c == '\U{85}' || c == '\U{A0}' || c == '\U{1680}'
    || '\U{2000}' <= c <= '\U{200A}'
    || c == '\U{2028}' || c == '\U{2029}' || c == '\U{202F}' || c == '\U{205F}' || c == '\U{3000}'
  }

  function TrimLeft(s: string): string {
    if s != "" && IsSpace(s[0]) then TrimLeft(s[1..]) else s
  }

  function TrimRight(s: string): string {
    if s != "" && IsSpace(s[|s| - 1]) then TrimRight(s[..|s| - 1]) else s
  }

  function TrimSpace(s: string): string {
    TrimRight(TrimLeft(s))
  }

  /** The services' "is it empty once trimmed?" guard. */
  predicate Blank(s: string) {
    TrimSpace(s) == ""
  }

  predicate Trimmed(s: string) {
    TrimSpace(s) == s
  }

  /** No white space at either end. */
  predicate TightEnds(s: string) {
    s == "" || (!IsSpace(s[0]) && !IsSpace(s[|s| - 1]))
  }

  predicate AllSpace(s: string) {
    forall i :: 0 <= i < |s| ==> IsSpace(s[i])
  }

  lemma {:induction false} TrimLeftCuts(s: string)
    ensures |TrimLeft(s)| <= |s|
    ensures s[|s| - |TrimLeft(s)|..] == TrimLeft(s)
    ensures AllSpace(s[..|s| - |TrimLeft(s)|])
    ensures TrimLeft(s) == "" || !IsSpace(TrimLeft(s)[0])
  {
    if s != "" && IsSpace(s[0]) {
      TrimLeftCuts(s[1..]);
      var n := |s| - |TrimLeft(s)|;
      assert s[..n] == [s[0]] + s[1..][..n - 1];
    }
  }

  lemma {:induction false} TrimRightCuts(s: string)
    ensures |TrimRight(s)| <= |s|
    ensures s[..|TrimRight(s)|] == TrimRight(s)
    ensures AllSpace(s[|TrimRight(s)|..])
    ensures TrimRight(s) == "" || !IsSpace(TrimRight(s)[|TrimRight(s)| - 1])
  {
    if s != "" && IsSpace(s[|s| - 1]) {
      var t := s[..|s| - 1];
      TrimRightCuts(t);
      var n := |TrimRight(s)|;
      assert s[n..] == t[n..] + [s[|s| - 1]];
    }
  }

  /** `TrimSpace` removes white space only, at the ends only, and all of it. */
  lemma TrimSpaceMeaning(s: string) returns (lo: nat, hi: nat)
    ensures lo <= hi <= |s| && TrimSpace(s) == s[lo..hi]
    ensures AllSpace(s[..lo]) && AllSpace(s[hi..])
    ensures TightEnds(TrimSpace(s))
  {
    TrimLeftCuts(s);
    var t := TrimLeft(s);
    TrimRightCuts(t);
    lo := |s| - |t|;
    hi := lo + |TrimRight(t)|;
    assert s[hi..] == t[|TrimRight(t)|..];
  }

  /** White space at the end is no part of the trim. */
  lemma PaddingIsTrimmed(s: string, pad: string)
    requires AllSpace(pad)
    ensures |TrimSpace(s + pad)| <= |s|
  {
    var t := s + pad;
    assert forall i :: |s| <= i < |t| ==> IsSpace(t[i]);
    var lo, hi := TrimSpaceMeaning(t);
    if lo < hi {
      assert !IsSpace(t[hi - 1]);
    }
  }

  /** A string without white space at its ends is left alone. */
  lemma TightIsTrimmed(s: string)
    requires TightEnds(s)
    ensures Trimmed(s)
  {
  }

  lemma TrimIdempotent(s: string)
    ensures Trimmed(TrimSpace(s))
  {
    var lo, hi := TrimSpaceMeaning(s);
    TightIsTrimmed(TrimSpace(s));
  }

  // ----- Generated ids -----

  function Digit(d: nat): char
    requires d < 10
  {
    "0123456789"[d]
  }

  /** Go's `%d` for a counter. */
  function Decimal(n: nat): string {
    if n < 10 then [Digit(n)] else Decimal(n / 10) + [Digit(n % 10)]
  }

  function Zeros(n: nat): string {
    seq(n, _ => '0')
  }

  /** Go's `%04d`: at least four digits, wider counters are printed in full. */
  function Pad4(n: nat): string {
    var d := Decimal(n);
    if |d| < 4 then Zeros(4 - |d|) + d else d
  }

  /** Postgres' `lpad`: pads on the left, but also cuts a text longer than `len`. */
  function Lpad(text: string, len: nat): string {
    if len < |text| then text[..len] else Zeros(len - |text|) + text
  }

  function Greatest(a: nat, b: nat): nat {
    if a < b then b else a
  }

  /** Reads a digit string back as the number it denotes. */
  function ValueOf(s: string): nat {
    if s == "" then 0
    else 10 * ValueOf(s[..|s| - 1]) + (if '0' <= s[|s| - 1] <= '9' then (s[|s| - 1] as int - '0' as int) else 0)
  }

  lemma {:induction false} DecimalReadsBack(n: nat)
    ensures ValueOf(Decimal(n)) == n
    ensures Decimal(n) != ""
    ensures '0' <= Decimal(n)[|Decimal(n)| - 1] <= '9'
  {
    if n >= 10 {
      DecimalReadsBack(n / 10);
      var d := Decimal(n);
      assert d[..|d| - 1] == Decimal(n / 10);
    } else {
      assert Decimal(n)[..0] == "";
    }
  }

  lemma {:induction false} LeadingZeros(n: nat, s: string)
    ensures ValueOf(Zeros(n) + s) == ValueOf(s)
    decreases n + |s|
  {
    var t := Zeros(n) + s;
    if s != "" {
      LeadingZeros(n, s[..|s| - 1]);
      assert t[..|t| - 1] == Zeros(n) + s[..|s| - 1];
    } else if n > 0 {
      LeadingZeros(n - 1, "");
      assert t[..|t| - 1] == Zeros(n - 1) + "";
    }
  }

  lemma Pad4ReadsBack(n: nat)
    ensures ValueOf(Pad4(n)) == n
    ensures |Pad4(n)| >= 4 && '0' <= Pad4(n)[|Pad4(n)| - 1] <= '9'
  {
    DecimalReadsBack(n);
    LeadingZeros(if |Decimal(n)| < 4 then 4 - |Decimal(n)| else 0, Decimal(n));
  }

  /** Counters never collide once printed, below and above 9999 alike. */
  lemma Pad4Injective(m: nat, n: nat)
    ensures Pad4(m) == Pad4(n) <==> m == n
  {
    Pad4ReadsBack(m);
    Pad4ReadsBack(n);
  }

  /** The SQL spelling of an id agrees with the Go one for every counter... */
  lemma SqlPaddingAgrees(n: nat)
    ensures Lpad(Decimal(n), Greatest(|Decimal(n)|, 4)) == Pad4(n)
  {
    var d := Decimal(n);
    if |d| >= 4 {
      assert Zeros(0) + d == d;
    }
  }

  /** ...and the `greatest` is what makes it so: a bare `lpad(..., 4)` agrees
      exactly while the counter still prints in four characters. */
  lemma BareLpadAgreesIff(n: nat)
    ensures Lpad(Decimal(n), 4) == Pad4(n) <==> n < 10_000
  {
    DecimalWidth(n, 4);
    assert Pow10(4) == 10 * (10 * (10 * (10 * Pow10(0))));
    var d := Decimal(n);
    if |d| == 4 {
      assert Zeros(0) + d == d;
    }
  }

  function Pow10(k: nat): nat {
    if k == 0 then 1 else 10 * Pow10(k - 1)
  }

  /** A counter prints in `k` digits exactly while it is below ten to the `k`. */
  lemma {:induction false} DecimalWidth(n: nat, k: nat)
    requires k >= 1
    ensures |Decimal(n)| <= k <==> n < Pow10(k)
  {
    if n < 10 {
      Pow10Positive(k - 1);
    } else if k == 1 {
      DecimalReadsBack(n / 10);
    } else {
      DecimalWidth(n / 10, k - 1);
    }
  }

  lemma {:induction false} Pow10Positive(k: nat)
    ensures Pow10(k) >= 1
  {
    if k > 0 {
      Pow10Positive(k - 1);
    }
  }

  /** An id is a fixed prefix followed by the padded counter. */
  function Numbered(prefix: string, n: nat): string {
    prefix + Pad4(n)
  }

  lemma NumberedInjective(prefix: string, m: nat, n: nat)
    ensures Numbered(prefix, m) == Numbered(prefix, n) <==> m == n
  {
    assert Numbered(prefix, m)[|prefix|..] == Pad4(m);
    assert Numbered(prefix, n)[|prefix|..] == Pad4(n);
    Pad4Injective(m, n);
  }

  /** Generated ids survive the services' trimming unchanged and are not blank. */
  lemma NumberedIsTight(prefix: string, n: nat)
    requires prefix != "" && !IsSpace(prefix[0])
    ensures Trimmed(Numbered(prefix, n)) && !Blank(Numbered(prefix, n))
  {
    Pad4ReadsBack(n);
    TightIsTrimmed(Numbered(prefix, n));
  }
}
