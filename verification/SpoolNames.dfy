/** Spool file names: a zero-padded creation time and a sequence number, whose string order must be
    the order in time. */
module SpoolNames {
  import opened Numbers

  predicate IsInt64(x: int) { -0x8000_0000_0000_0000 <= x < 0x8000_0000_0000_0000 }

  const SUFFIX: string := ".json"
  const TWO_64: nat := 0x1_0000_0000_0000_0000

  function Pow10(n: nat): nat { if n == 0 then 1 else 10 * Pow10(n - 1) }

  function Digit(d: nat): char
    requires d < 10
  {
    '0' + d as char
  }

  predicate IsDigit(c: char) { '0' <= c <= '9' }

  /** The w low decimal digits of n. */
  function Fixed(n: nat, w: nat): (s: string)
    ensures |s| == w
  {
    if w == 0 then [] else Fixed(n / 10, w - 1) + [Digit(n % 10)]
  }

  function Width(n: nat): nat { if n < 10 then 1 else 1 + Width(n / 10) }

  /** n in decimal, padded with zeros to at least w digits, as %0<w>d prints it. */
  function Padded(n: nat, w: nat): string { Fixed(n, if Width(n) < w then w else Width(n)) }

  /** The sign takes one of the twenty columns. */
  function Stamp(nano: int): string {
    if nano >= 0 then Padded(nano, 20) else ['-'] + Padded(-nano, 19)
  }

  function SpoolName(nano: int, seqNo: nat): string {
    Stamp(nano) + ['-'] + Padded(seqNo, 6) + SUFFIX
  }

  // ---------------------------------------------------------------- order

  /** The byte order that sort.Strings uses. */
  predicate Before(a: string, b: string) {
    b != [] && (a == [] || a[0] < b[0] || (a[0] == b[0] && Before(a[1..], b[1..])))
  }

  lemma BeforeIrreflexive(a: string)
    ensures !Before(a, a)
  {
  }

  lemma BeforeTransitive(a: string, b: string, c: string)
    requires Before(a, b) && Before(b, c)
    ensures Before(a, c)
  {
  }

  lemma BeforeTotal(a: string, b: string)
    ensures a == b || Before(a, b) || Before(b, a)
  {
    if a != [] && b != [] && a[0] == b[0] {
      BeforeTotal(a[1..], b[1..]);
      assert a == [a[0]] + a[1..] && b == [b[0]] + b[1..];
    }
  }

  lemma SameHead(c: char, x: string, y: string)
    ensures Before([c] + x, [c] + y) <==> Before(x, y)
  {
    assert ([c] + x)[1..] == x && ([c] + y)[1..] == y;
  }

  /** Numbers of equal width compare as their digits do. */
  lemma {:induction false} FixedOrder(m: nat, n: nat, w: nat, x: string, y: string)
    requires m < Pow10(w) && n < Pow10(w)
    ensures Before(Fixed(m, w) + x, Fixed(n, w) + y) <==> m < n || (m == n && Before(x, y))
    decreases w
  {
    if w == 0 {
      assert Fixed(m, 0) + x == x && Fixed(n, 0) + y == y;
    } else {
      var c, d := Digit(m % 10), Digit(n % 10);
      FixedOrder(m / 10, n / 10, w - 1, [c] + x, [d] + y);
      assert Fixed(m, w) + x == Fixed(m / 10, w - 1) + ([c] + x);
      assert Fixed(n, w) + y == Fixed(n / 10, w - 1) + ([d] + y);
      assert ([c] + x)[1..] == x && ([d] + y)[1..] == y;
      assert c < d <==> m % 10 < n % 10;
    }
  }

  /** n without its last v digits. */
  function Leading(n: nat, v: nat): nat { if v == 0 then n else Leading(n / 10, v - 1) }

  function Trailing(n: nat, v: nat): (s: string)
    ensures |s| == v
  {
    if v == 0 then [] else Trailing(n / 10, v - 1) + [Digit(n % 10)]
  }

  /** A longer number is its leading digits followed by the others. */
  lemma {:induction false} FixedSplit(n: nat, w: nat, v: nat)
    ensures Fixed(n, w + v) == Fixed(Leading(n, v), w) + Trailing(n, v)
    ensures n < Pow10(w + v) ==> Leading(n, v) < Pow10(w)
    ensures v > 0 ==> IsDigit(Trailing(n, v)[0])
    decreases v
  {
    if v > 0 { FixedSplit(n / 10, w, v - 1); }
  }

  lemma {:induction false} WidthBounds(n: nat)
    ensures n < Pow10(Width(n)) && (n > 0 ==> n >= Pow10(Width(n) - 1))
  {
    assert Pow10(0) == 1 && Pow10(1) == 10;
    if n >= 10 { WidthBounds(n / 10); }
  }

  lemma {:induction false} PowGrows(a: nat, b: nat)
    requires a <= b
    ensures 0 < Pow10(a) <= Pow10(b)
    decreases b
  {
    if a < b { PowGrows(a, b - 1); } else if a > 0 { PowGrows(a - 1, b - 1); }
  }

  function SeqWidth(seqNo: nat): nat { if Width(seqNo) < 6 then 6 else Width(seqNo) }

  lemma SeqFits(seqNo: nat)
    ensures seqNo < Pow10(SeqWidth(seqNo))
  {
    WidthBounds(seqNo);
    PowGrows(Width(seqNo), SeqWidth(seqNo));
  }

  lemma StampFits(nano: int)
    requires IsInt64(nano)
    ensures nano >= 0 ==> Stamp(nano) == Fixed(nano, 20) && nano < Pow10(20)
    ensures nano < 0 ==> Stamp(nano) == ['-'] + Fixed(-nano, 19) && -nano < Pow10(19)
  {
    assert Pow10(4) == 10_000 by { assert Pow10(2) == 100; }
    assert Pow10(8) == 100_000_000 by { assert Pow10(6) == 1_000_000; }
    assert Pow10(12) == 1_000_000_000_000 by { assert Pow10(10) == 10_000_000_000; }
    assert Pow10(16) == 10_000_000_000_000_000 by { assert Pow10(14) == 100_000_000_000_000; }
    assert Pow10(18) == 1_000_000_000_000_000_000;
    assert Pow10(19) == 10_000_000_000_000_000_000;
    assert Pow10(20) == 100_000_000_000_000_000_000;
    var n := if nano < 0 then -nano else nano;
    WidthBounds(n);
    if Width(n) > 19 { PowGrows(19, Width(n) - 1); }
  }

  /** Numerically s < t; whether their padded forms are ordered alike. */
  predicate PaddingKeepsOrder(s: nat, t: nat) {
    SeqWidth(s) == SeqWidth(t) || (SeqWidth(s) < SeqWidth(t) && s <= Leading(t, SeqWidth(t) - SeqWidth(s)))
  }

  lemma WidthGrows(s: nat, t: nat)
    requires s <= t
    ensures SeqWidth(s) <= SeqWidth(t)
  {
    SeqFits(t);
    WidthBounds(s);
    if SeqWidth(s) > SeqWidth(t) { PowGrows(SeqWidth(t), Width(s) - 1); }
  }

  /** Equal times: the sequence numbers decide, rightly when they have equally many digits (as all
      below a million have); otherwise exactly when the smaller is at most the leading digits of the larger. */
  lemma SeqOrder(s: nat, t: nat)
    requires s < t
    ensures Before(Padded(s, 6) + SUFFIX, Padded(t, 6) + SUFFIX) <==> PaddingKeepsOrder(s, t)
    ensures s < 1_000_000 && t < 1_000_000 ==> PaddingKeepsOrder(s, t)
  {
    SeqFits(s);
    SeqFits(t);
    WidthGrows(s, t);
    var w, v := SeqWidth(s), SeqWidth(t) - SeqWidth(s);
    if v == 0 {
      FixedOrder(s, t, w, SUFFIX, SUFFIX);
    } else {
      FixedSplit(t, w, v);
      var tail := Trailing(t, v);
      assert Padded(t, 6) + SUFFIX == Fixed(Leading(t, v), w) + (tail + SUFFIX);
      FixedOrder(s, Leading(t, v), w, SUFFIX, tail + SUFFIX);
      assert (tail + SUFFIX)[0] == tail[0];
    }
    SixDigits(s);
    SixDigits(t);
  }

  lemma SixDigits(s: nat)
    ensures SeqWidth(s) == 6 <==> s < 1_000_000
  {
    assert Pow10(3) == 1_000 && Pow10(6) == 1_000_000;
    WidthBounds(s);
    if Width(s) >= 7 { PowGrows(6, Width(s) - 1); } else { PowGrows(Width(s), 6); }
  }

  // ---------------------------------------------------------------- whole names

  /** The part of a name after the creation time. */
  function Tail(seqNo: nat): string { ['-'] + (Padded(seqNo, 6) + SUFFIX) }

  lemma NameParts(nano: int, seqNo: nat)
    ensures SpoolName(nano, seqNo) == Stamp(nano) + Tail(seqNo)
  {
  }

  lemma PositiveTimes(a: nat, x: string, b: nat, y: string)
    requires IsInt64(a) && IsInt64(b) && a != b
    ensures Before(Stamp(a) + x, Stamp(b) + y) <==> a < b
  {
    StampFits(a);
    StampFits(b);
    FixedOrder(a, b, 20, x, y);
  }

  lemma NegativeStamp(a: int, x: string)
    requires IsInt64(a) && a < 0
    ensures Stamp(a) + x == ['-'] + (Fixed(-a, 19) + x) && -a < Pow10(19)
  {
    StampFits(a);
    Associative(['-'], Fixed(-a, 19), x);
  }

  lemma Associative(x: string, y: string, z: string)
    ensures (x + y) + z == x + (y + z)
  {
  }

  /** Before 1970 the digits are those of the distance from it, so later sorts first. */
  lemma NegativeTimes(a: int, x: string, b: int, y: string)
    requires IsInt64(a) && IsInt64(b) && a < 0 && b < 0 && a != b
    ensures Before(Stamp(a) + x, Stamp(b) + y) <==> a > b
  {
    NegativeStamp(a, x);
    NegativeStamp(b, y);
    FixedOrder(-a, -b, 19, x, y);
    SameHead('-', Fixed(-a, 19) + x, Fixed(-b, 19) + y);
  }

  lemma MixedTimes(a: int, x: string, b: int, y: string)
    requires IsInt64(a) && IsInt64(b) && a < 0 <= b
    ensures Before(Stamp(a) + x, Stamp(b) + y) && !Before(Stamp(b) + y, Stamp(a) + x)
  {
    StampFits(a);
    StampFits(b);
    FixedSplit(b, 0, 20);
    assert (Stamp(a) + x)[0] == '-' && IsDigit((Stamp(b) + y)[0]);
  }

  /** Earlier sorts first exactly when the later time is not before 1970. */
  lemma TimeOrder(a: int, s: nat, b: int, t: nat)
    requires IsInt64(a) && IsInt64(b) && a < b
    ensures Before(SpoolName(a, s), SpoolName(b, t)) <==> b >= 0
    ensures Before(SpoolName(b, t), SpoolName(a, s)) <==> b < 0
  {
    NameParts(a, s);
    NameParts(b, t);
    if a >= 0 {
      PositiveTimes(a, Tail(s), b, Tail(t));
      PositiveTimes(b, Tail(t), a, Tail(s));
    } else if b < 0 {
      NegativeTimes(a, Tail(s), b, Tail(t));
      NegativeTimes(b, Tail(t), a, Tail(s));
    } else {
      MixedTimes(a, Tail(s), b, Tail(t));
    }
  }

  /** At equal times the sequence numbers decide, as far as their padding lets them. */
  lemma EqualTimeOrder(a: int, s: nat, t: nat)
    requires IsInt64(a) && s < t
    ensures Before(SpoolName(a, s), SpoolName(a, t)) <==> PaddingKeepsOrder(s, t)
    ensures t < 1_000_000 ==> Before(SpoolName(a, s), SpoolName(a, t))
  {
    NameParts(a, s);
    NameParts(a, t);
    SamePrefix(Stamp(a), Tail(s), Tail(t));
    SameHead('-', Padded(s, 6) + SUFFIX, Padded(t, 6) + SUFFIX);
    SeqOrder(s, t);
  }

  lemma {:induction false} SamePrefix(p: string, x: string, y: string)
    ensures Before(p + x, p + y) <==> Before(x, y)
  {
    if p == [] {
      assert p + x == x && p + y == y;
    } else {
      SamePrefix(p[1..], x, y);
      assert (p + x)[1..] == p[1..] + x && (p + y)[1..] == p[1..] + y;
    }
  }

  lemma PaddingCanMislead()
    ensures Before(SpoolName(0, 1_000_000), SpoolName(0, 999_999))
  {
    SeqOrder(999_999, 1_000_000);
    SixDigits(999_999);
    SixDigits(1_000_000);
    var s, t := Padded(999_999, 6) + SUFFIX, Padded(1_000_000, 6) + SUFFIX;
    WidthGrows(999_999, 1_000_000);
    LeadingSmall(1_000_000, SeqWidth(1_000_000) - 6);
    BeforeTotal(s, t);
    BeforeIrreflexive(s);
    SeqFits(999_999);
    SeqFits(1_000_000);
    assert |s| != |t|;
    NameParts(0, 999_999);
    NameParts(0, 1_000_000);
    SamePrefix(Stamp(0), Tail(1_000_000), Tail(999_999));
    SameHead('-', t, s);
  }

  lemma LeadingSmall(n: nat, v: nat)
    ensures v > 0 ==> Leading(n, v) <= n / 10
  {
  }

  /** No two names coincide. */
  lemma NamesAreInjective(a: int, s: nat, b: int, t: nat)
    requires IsInt64(a) && IsInt64(b) && SpoolName(a, s) == SpoolName(b, t)
    ensures a == b && s == t
  {
    BeforeIrreflexive(SpoolName(a, s));
    if a < b { TimeOrder(a, s, b, t); }
    if b < a { TimeOrder(b, t, a, s); }
    NameParts(a, s);
    NameParts(a, t);
    assert (Stamp(a) + Tail(s))[|Stamp(a)|..] == Tail(s) && (Stamp(a) + Tail(t))[|Stamp(a)|..] == Tail(t);
    assert Tail(s)[1..] == Padded(s, 6) + SUFFIX && Tail(t)[1..] == Padded(t, 6) + SUFFIX;
    if s < t { DifferentPadding(s, t); }
    if t < s { DifferentPadding(t, s); }
  }

  lemma DifferentPadding(s: nat, t: nat)
    requires s < t
    ensures Padded(s, 6) + SUFFIX != Padded(t, 6) + SUFFIX
  {
    SeqFits(s);
    SeqFits(t);
    if SeqWidth(s) == SeqWidth(t) {
      FixedOrder(s, t, SeqWidth(s), SUFFIX, SUFFIX);
      BeforeIrreflexive(Padded(s, 6) + SUFFIX);
    } else {
      assert |Padded(s, 6)| != |Padded(t, 6)|;
    }
  }

  // ---------------------------------------------------------------- reading the time back

  /** How many of the first `most` characters are digits, up to the first that is not. */
  function DigitRun(s: string, most: nat): (k: nat)
    ensures k <= most && k <= |s|
  {
    if most == 0 || s == [] || !IsDigit(s[0]) then 0 else 1 + DigitRun(s[1..], most - 1)
  }

  function DigitValue(c: char): nat
    requires IsDigit(c)
  {
    c as int - '0' as int
  }

  function Value(s: string): nat
    requires forall i :: 0 <= i < |s| ==> IsDigit(s[i])
  {
    if s == [] then 0 else 10 * Value(s[..|s| - 1]) + DigitValue(s[|s| - 1])
  }

  lemma DigitRunIsDigits(s: string, most: nat)
    ensures forall i :: 0 <= i < DigitRun(s, most) ==> IsDigit(s[i])
  {
  }

  /** The unsigned value is reinterpreted as a signed one. */
  function AsInt64(u: nat): int { if u < TWO_64 / 2 then u else u - TWO_64 }

  /** The name ends in ".json". */
  predicate HasSuffix(name: string) {
    var n := |name|;
    n >= 5 && name[n - 5] == '.' && name[n - 4] == 'j' && name[n - 3] == 's' && name[n - 2] == 'o' && name[n - 1] == 'n'
  }

  /** At most 20 digits that fit 64 bits, a dash, and at least one digit; anything may follow. */
  function SpoolFileTime(name: string): Option<int>
    requires HasSuffix(name)
  {
    var base := name[..|name| - 5];
    var k := DigitRun(base, 20);
    DigitRunIsDigits(base, 20);
    if k == 0 || Value(base[..k]) >= TWO_64 then None
    else if k >= |base| || base[k] != '-' then None
    else if DigitRun(base[k + 1..], 6) == 0 then None
    else Some(AsInt64(Value(base[..k])))
  }

  lemma {:induction false} FixedReadsBack(n: nat, w: nat)
    requires n < Pow10(w)
    ensures forall i :: 0 <= i < w ==> IsDigit(Fixed(n, w)[i])
    ensures Value(Fixed(n, w)) == n
  {
    if w > 0 {
      FixedReadsBack(n / 10, w - 1);
      assert Fixed(n, w)[..w - 1] == Fixed(n / 10, w - 1);
      assert DigitValue(Digit(n % 10)) == n % 10;
    }
  }

  lemma RunOfDigits(d: string, rest: string, most: nat)
    requires |d| <= most && forall i :: 0 <= i < |d| ==> IsDigit(d[i])
    requires |d| == most || rest == [] || !IsDigit(rest[0])
    ensures DigitRun(d + rest, most) == |d|
  {
    if d != [] {
      assert (d + rest)[1..] == d[1..] + rest;
      RunOfDigits(d[1..], rest, most - 1);
    } else {
      assert d + rest == rest;
    }
  }

  lemma NameWithoutSuffix(nano: int, seqNo: nat)
    ensures HasSuffix(SpoolName(nano, seqNo))
    ensures SpoolName(nano, seqNo)[..|SpoolName(nano, seqNo)| - 5] == Stamp(nano) + (['-'] + Padded(seqNo, 6))
  {
    SuffixGoesOff(Stamp(nano) + ['-'] + Padded(seqNo, 6));
    Associative(Stamp(nano), ['-'], Padded(seqNo, 6));
  }

  lemma SuffixGoesOff(head: string)
    ensures HasSuffix(head + SUFFIX) && (head + SUFFIX)[..|head|] == head
  {
  }

  /** The two numbers of a well-formed name. */
  lemma StampReadsBack(nano: nat, rest: string)
    requires nano < Pow10(20)
    ensures forall i :: 0 <= i < 20 ==> IsDigit((Fixed(nano, 20) + rest)[i])
    ensures DigitRun(Fixed(nano, 20) + rest, 20) == 20 && Value((Fixed(nano, 20) + rest)[..20]) == nano
  {
    FixedReadsBack(nano, 20);
    RunOfDigits(Fixed(nano, 20), rest, 20);
    assert (Fixed(nano, 20) + rest)[..20] == Fixed(nano, 20);
  }

  lemma SeqReadsBack(seqNo: nat)
    ensures DigitRun(Padded(seqNo, 6), 6) > 0
  {
    SeqFits(seqNo);
    FixedReadsBack(seqNo, SeqWidth(seqNo));
  }

  /** Reading a name gives back the time it was made from, exactly when that is not before 1970. */
  lemma TimeReadsBack(nano: int, seqNo: nat)
    requires IsInt64(nano)
    ensures HasSuffix(SpoolName(nano, seqNo))
    ensures SpoolFileTime(SpoolName(nano, seqNo)) == if nano >= 0 then Some(nano) else None
  {
    NameWithoutSuffix(nano, seqNo);
    StampFits(nano);
    var rest := ['-'] + Padded(seqNo, 6);
    var base := Stamp(nano) + rest;
    if nano >= 0 {
      StampReadsBack(nano, rest);
      SeqReadsBack(seqNo);
      assert base[20] == '-' && base[21..] == Padded(seqNo, 6);
    } else {
      assert base[0] == '-';
    }
  }

  predicate AllDigits(s: string) { forall i :: 0 <= i < |s| ==> IsDigit(s[i]) }

  /** A name is twenty digits worth the time, a dash, at least six digits worth the number, and the suffix. */
  lemma NameShape(nano: nat, seqNo: nat) returns (time: string, number: string)
    requires IsInt64(nano)
    ensures SpoolName(nano, seqNo) == time + "-" + number + ".json"
    ensures |time| == 20 && AllDigits(time) && Value(time) == nano
    ensures |number| >= 6 && AllDigits(number) && Value(number) == seqNo && (|number| == 6 <==> seqNo < 1_000_000)
  {
    StampFits(nano);
    SeqFits(seqNo);
    SixDigits(seqNo);
    time, number := Stamp(nano), Padded(seqNo, 6);
    FixedReadsBack(nano, 20);
    FixedReadsBack(seqNo, SeqWidth(seqNo));
  }
}
