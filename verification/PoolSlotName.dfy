/** The "-N" suffix of pool session names (parsePoolSlot and the suffix strip
    of resolvePoolBase in cmd/gc/adoption_barrier.go). */
module PoolSlotName {
  import opened Prelude

  const MAX_INT := 0x7FFF_FFFF_FFFF_FFFF

  predicate IsDigit(c: char) {
    '0' <= c <= '9'
  }

  predicate AllDigits(s: string) {
    forall i | 0 <= i < |s| :: IsDigit(s[i])
  }

  function DigitValue(c: char): nat
    requires IsDigit(c)
  {
    (c - '0') as nat
  }

  function DigitChar(d: nat): char
    requires d < 10
    ensures IsDigit(DigitChar(d)) && DigitValue(DigitChar(d)) == d
  {
    '0' + d as char
  }

  /** The number a digit string denotes. */
  function Value(s: string): nat
    requires AllDigits(s)
  {
    if s == [] then 0 else 10 * Value(s[..|s| - 1]) + DigitValue(s[|s| - 1])
  }

  /** The shortest decimal spelling, as the "%d" verb prints it. */
  function Decimal(n: nat): (s: string)
    ensures s != [] && AllDigits(s)
  {
    if n < 10 then [DigitChar(n)] else Decimal(n / 10) + [DigitChar(n % 10)]
  }

  /** The length of the longest suffix of digits. */
  function DigitCount(s: string): (k: nat)
    ensures k <= |s| && forall i | |s| - k <= i < |s| :: IsDigit(s[i])
  {
    if s != [] && IsDigit(s[|s| - 1]) then 1 + DigitCount(s[..|s| - 1]) else 0
  }

  /** The digits after a final dash, [] when the name has no such suffix. */
  function SlotDigits(name: string): (d: string)
    ensures AllDigits(d) && (d != [] ==> |d| < |name|)
  {
    var k := DigitCount(name);
    if 0 < k < |name| && name[|name| - k - 1] == '-' then name[|name| - k..] else []
  }

  /** parsePoolSlot: 0 without a suffix or when the number overflows. */
  function ParsePoolSlot(name: string): nat {
    var d := SlotDigits(name);
    if d == [] || Value(d) > MAX_INT then 0 else Value(d)
  }

  /** The suffix the strip removes: the slot printed again, not the characters
      that were read. */
  function Suffix(slot: nat): string {
    "-" + Decimal(slot)
  }

  function StripSuffix(name: string): string
    requires ParsePoolSlot(name) > 0
  {
    StripInRange(name);
    name[..|name| - |Suffix(ParsePoolSlot(name))|]
  }

  // ---- numbers and spellings -----------------------------------------------------

  lemma {:induction false} ValueOfDecimal(n: nat)
    ensures Value(Decimal(n)) == n
  {
    if n < 10 {
      assert [DigitChar(n)][..0] == [];
    } else {
      ValueOfDecimal(n / 10);
      var s := Decimal(n / 10) + [DigitChar(n % 10)];
      assert s[..|s| - 1] == Decimal(n / 10);
    }
  }

  lemma {:induction false} DecimalOfValue(d: string)
    requires d != [] && AllDigits(d)
    ensures |Decimal(Value(d))| <= |d|
    ensures d[0] != '0' ==> Decimal(Value(d)) == d
    ensures d[0] == '0' && |d| > 1 ==> |Decimal(Value(d))| < |d|
  {
    if |d| == 1 {
      assert d[..0] == [];
      assert Value(d) == DigitValue(d[0]);
    } else {
      var rest := d[..|d| - 1];
      DecimalOfValue(rest);
      var n := Value(d);
      assert n == 10 * Value(rest) + DigitValue(d[|d| - 1]);
      if n < 10 {
        assert Value(rest) == 0;
      } else {
        assert n / 10 == Value(rest) && n % 10 == DigitValue(d[|d| - 1]);
        assert d == rest + [d[|d| - 1]];
      }
    }
  }

  // ---- the suffix ------------------------------------------------------------------

  lemma {:induction false} DigitCountIs(s: string, k: nat)
    requires k < |s| && !IsDigit(s[|s| - k - 1])
    requires forall i | |s| - k <= i < |s| :: IsDigit(s[i])
    ensures DigitCount(s) == k
  {
    if k > 0 {
      DigitCountIs(s[..|s| - 1], k - 1);
    }
  }

  lemma SlotDigitsOf(base: string, d: string)
    requires d != [] && AllDigits(d)
    ensures SlotDigits(base + "-" + d) == d
  {
    var name := base + "-" + d;
    assert name[|name| - |d| - 1] == '-';
    assert name[|name| - |d|..] == d;
    forall i | |name| - |d| <= i < |name| ensures IsDigit(name[i]) {
      assert name[i] == d[i - (|name| - |d|)];
    }
    DigitCountIs(name, |d|);
  }

  /** The match is the one the pattern describes: a dash with nothing but digits
      between it and the end of the name. */
  lemma SlotDigitsIsTheMatch(name: string, i: nat)
    requires i < |name|
    ensures name[i] == '-' && i + 1 < |name| && AllDigits(name[i + 1..]) <==>
            SlotDigits(name) != [] && i == |name| - |SlotDigits(name)| - 1
  {
    if name[i] == '-' && i + 1 < |name| && AllDigits(name[i + 1..]) {
      assert name == name[..i] + "-" + name[i + 1..];
      SlotDigitsOf(name[..i], name[i + 1..]);
    }
  }

  /** For every name, leading zeros and overflow included, the suffix to strip
      is no longer than the name. */
  lemma StripInRange(name: string)
    requires ParsePoolSlot(name) > 0
    ensures |Suffix(ParsePoolSlot(name))| <= |name|
  {
    DecimalOfValue(SlotDigits(name));
  }

  /** Round trip: the slot and the base of a composed pool name come back. */
  lemma PoolNameRoundTrip(base: string, n: nat)
    requires 1 <= n <= MAX_INT
    ensures ParsePoolSlot(base + Suffix(n)) == n
    ensures StripSuffix(base + Suffix(n)) == base
  {
    var name := base + "-" + Decimal(n);
    assert base + Suffix(n) == name;
    SlotDigitsOf(base, Decimal(n));
    ValueOfDecimal(n);
  }

  /** The strip gives back what precedes the matched suffix exactly when its
      number has no leading zero; otherwise it leaves part of it behind. */
  lemma StripIsExactWithoutLeadingZero(base: string, d: string)
    requires d != [] && AllDigits(d) && 0 < Value(d) <= MAX_INT
    ensures ParsePoolSlot(base + "-" + d) == Value(d)
    ensures StripSuffix(base + "-" + d) == base <==> d[0] != '0'
  {
    SlotDigitsOf(base, d);
    DecimalOfValue(d);
    var name := base + "-" + d;
    var kept := |name| - |Suffix(Value(d))|;
    assert |Suffix(Value(d))| == 1 + |Decimal(Value(d))|;
    assert kept == |base| + (|d| - |Decimal(Value(d))|);
    if d[0] == '0' {
      assert |d| > 1;
    } else {
      assert name[..|base|] == base;
    }
  }
}
