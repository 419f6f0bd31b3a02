/**
  BuildCoreName: "Core <decimal> <suffix>" printed into a fixed C buffer by
  way of a four-digit scratch array.
 */
module CoreName {
  import opened Words

  const NUL: char := '\0'
  const PREFIX: string := "Core "

  function Digit(n: nat): (c: char)
    requires n < 10
  {
    "0123456789"[n]
  }

  /** Ordinary decimal numeral, the reference the printed digits are measured against. */
  function Decimal(n: nat): string {
    if n < 10 then [Digit(n)] else Decimal(n / 10) + [Digit(n % 10)]
  }

  /** At most k low digits of n, as the scratch array holds them, most significant first. */
  function LowDigits(n: nat, k: nat): string
    requires k > 0
  {
    if n < 10 || k == 1 then [Digit(n % 10)] else LowDigits(n / 10, k - 1) + [Digit(n % 10)]
  }

  function CoreText(idx: nat, suffix: string): string {
    PREFIX + LowDigits(idx, 4) + " " + suffix
  }

  /** What of a text reaches a C buffer of the given size: all but the room for the terminator. */
  function Fit(text: string, size: nat): string
    requires size > 0
  {
    text[..Min(|text|, size - 1)]
  }

  /** dst holds the text printed so far, cut to size, over its original content. */
  ghost predicate Printed(now: seq<char>, text: string, size: nat, original: seq<char>)
    requires size > 0
  {
    && |Fit(text, size)| <= |original|
    && now == Fit(text, size) + original[|Fit(text, size)|..]
  }

  /** One more character: written if it fits, dropped otherwise. */
  lemma AppendChar(now: seq<char>, text: string, c: char, size: nat, original: seq<char>)
    requires 0 < size <= |original| && Printed(now, text, size, original)
    ensures var pos := |Fit(text, size)|;
            if pos < size - 1 then |Fit(text + [c], size)| == pos + 1 && Printed(now[pos := c], text + [c], size, original)
            else Fit(text + [c], size) == Fit(text, size)
  {}

  /** A full buffer drops whatever follows. */
  lemma AppendNone(text: string, more: string, size: nat)
    requires size > 0 && |Fit(text, size)| >= size - 1
    ensures Fit(text + more, size) == Fit(text, size)
  {}

  /** Appends text while room remains; both copy loops of the source. */
  method CopyText(dst: array<char>, size: nat, pos: nat, text: string, ghost before: string, ghost original: seq<char>)
    returns (end: nat)
    requires 0 < size <= dst.Length && pos == |Fit(before, size)|
    requires Printed(dst[..], before, size, original)
    modifies dst
    ensures end == |Fit(before + text, size)| && Printed(dst[..], before + text, size, original)
  {
    end := pos;
    var i := 0;
    assert before + text[..0] == before;
    while i < |text| && end < size - 1
      invariant 0 <= i <= |text| && end == |Fit(before + text[..i], size)|
      invariant Printed(dst[..], before + text[..i], size, original)
    {
      ghost var now := dst[..];
      AppendChar(now, before + text[..i], text[i], size, original);
      assert before + text[..i + 1] == before + text[..i] + [text[i]];
      dst[end] := text[i];
      assert dst[..] == now[end := text[i]];
      end, i := end + 1, i + 1;
    }
    assert before + text == before + text[..i] + text[i..];
    if i < |text| { AppendNone(before + text[..i], text[i..], size); } else { assert text[i..] == []; }
  }

  /** Appends the collected digits most significant first. */
  method PopDigits(dst: array<char>, size: nat, start: nat, digits: array<char>, count: nat,
                   ghost shown: string, ghost before: string, ghost original: seq<char>)
    returns (pos: nat)
    requires 0 < size <= dst.Length && start == |Fit(before, size)|
    requires dst != digits && |shown| == count <= digits.Length
    requires forall k :: 0 <= k < count ==> digits[k] == shown[count - 1 - k]
    requires Printed(dst[..], before, size, original)
    modifies dst
    ensures pos == |Fit(before + shown, size)| && Printed(dst[..], before + shown, size, original)
  {
    pos := start;
    var d := count;
    ghost var text := before;
    while d > 0 && pos < size - 1
      invariant 0 <= d <= count && text == before + shown[..count - d]
      invariant pos == |Fit(text, size)| && Printed(dst[..], text, size, original)
    {
      ghost var now := dst[..];
      d := d - 1;
      AppendChar(now, text, digits[d], size, original);
      text := text + [digits[d]];
      dst[pos] := digits[d];
      assert dst[..] == now[pos := digits[d]];
      pos := pos + 1;
    }
    assert before + shown == text + shown[count - d..];
    if d > 0 { AppendNone(text, shown[count - d..], size); } else { assert shown[count - d..] == []; }
  }

  /** The array holds the digits last to first. */
  ghost predicate Mirrors(slots: seq<char>, digits: string) {
    |digits| <= |slots| && forall k :: 0 <= k < |digits| ==> slots[k] == digits[|digits| - 1 - k]
  }

  lemma MirrorOneMore(slots: seq<char>, digits: string, c: char)
    requires Mirrors(slots, digits) && |digits| < |slots|
    ensures Mirrors(slots[|digits| := c], [c] + digits)
  {}

  /** What is left to print before the digits taken so far. */
  ghost function Front(n: nat, k: nat): string {
    if n == 0 || k == 0 then [] else LowDigits(n, k)
  }

  /** The last digit moves over to those already taken. */
  lemma PeelDigit(n: nat, k: nat, low: string)
    requires k > 0
    ensures LowDigits(n, k) + low == Front(n / 10, k - 1) + ([Digit(n % 10)] + low)
  {}

  /** The digit loop: least significant first, stopping after four. */
  method PrintDigits(idx: u32) returns (digits: array<char>, d: nat)
    ensures fresh(digits) && digits.Length == 4 && 1 <= d <= 4
    ensures |LowDigits(idx, 4)| == d && forall k :: 0 <= k < d ==> digits[k] == LowDigits(idx, 4)[d - 1 - k]
  {
    digits := new char[4];
    d := 1;
    digits[0] := Digit(idx % 10);
    var n: nat := idx / 10;
    ghost var low := [digits[0]];
    PeelDigit(idx, 4, []);
    assert LowDigits(idx, 4) + [] == LowDigits(idx, 4) && low + [] == low;
    while n > 0 && d < digits.Length
      invariant 1 <= d <= 4 && |low| == d && Mirrors(digits[..], low)
      invariant LowDigits(idx, 4) == Front(n, 4 - d) + low
      decreases 4 - d
    {
      ghost var before := digits[..];
      digits[d] := Digit(n % 10);
      assert digits[..] == before[d := digits[d]];
      MirrorOneMore(before, low, digits[d]);
      PeelDigit(n, 4 - d, low);
      low := [digits[d]] + low;
      d, n := d + 1, n / 10;
    }
    assert LowDigits(idx, 4) == low;
  }

  /** One guarded character. */
  method PutChar(dst: array<char>, size: nat, pos: nat, c: char, ghost before: string, ghost original: seq<char>)
    returns (end: nat)
    requires 0 < size <= dst.Length && pos == |Fit(before, size)|
    requires Printed(dst[..], before, size, original)
    modifies dst
    ensures end == |Fit(before + [c], size)| && Printed(dst[..], before + [c], size, original)
  {
    end := pos;
    if pos < size - 1 {
      dst[end] := c;
      end := end + 1;
    }
  }

  method Terminate(dst: array<char>, size: nat, pos: nat, ghost text: string, ghost original: seq<char>)
    requires 0 < size <= dst.Length && pos == |Fit(text, size)|
    requires Printed(dst[..], text, size, original)
    modifies dst
    ensures dst[..] == Fit(text, size) + [NUL] + original[pos + 1..]
  {
    dst[pos] := NUL;
  }

  /** Prints the name in bounds: CoreText cut to size - 1 characters, then NUL; the rest is untouched. */
  method BuildCoreName(dst: array<char>, size: nat, idx: u32, suffix: string)
    requires 0 < size <= dst.Length
    modifies dst
    ensures var text := Fit(CoreText(idx, suffix), size);
            dst[..] == text + [NUL] + old(dst[|text| + 1..])
  {
    ghost var original := dst[..];
    ghost var numbered := PREFIX + LowDigits(idx, 4);
    ghost var spaced := numbered + [' '];
    var pos := CopyText(dst, size, 0, PREFIX, "", original);
    var digits, d := PrintDigits(idx);
    assert "" + PREFIX == PREFIX;
    pos := PopDigits(dst, size, pos, digits, d, LowDigits(idx, 4), PREFIX, original);
    pos := PutChar(dst, size, pos, ' ', numbered, original);
    pos := CopyText(dst, size, pos, suffix, spaced, original);
    Terminate(dst, size, pos, spaced + suffix, original);
    assert spaced + suffix == CoreText(idx, suffix);
    assert original[pos + 1..] == old(dst[pos + 1..]);
  }

  // ------------------------------------------------- reading the name back

  /** A C string: the characters before the first NUL. */
  function CString(field: seq<char>): string {
    if field == [] || field[0] == NUL then [] else [field[0]] + CString(field[1..])
  }

  lemma {:induction false} CStringOf(text: string, rest: seq<char>)
    requires forall k :: 0 <= k < |text| ==> text[k] != NUL
    ensures CString(text + [NUL] + rest) == text
  {
    if text != [] {
      assert (text + [NUL] + rest)[1..] == text[1..] + [NUL] + rest;
      CStringOf(text[1..], rest);
    } else {
      assert (text + [NUL] + rest)[0] == NUL;
    }
  }

  /** Whatever the size of the buffer, what its reader finds is the text, cut to leave room for the NUL. */
  lemma CutTextReads(text: string, size: nat, rest: seq<char>)
    requires size > 0 && forall k :: 0 <= k < |text| ==> text[k] != NUL
    ensures CString(Fit(text, size) + ['\0'] + rest) == if |text| < size then text else text[..size - 1]
  {
    CStringOf(Fit(text, size), rest);
  }

  predicate IsNumeral(s: string) {
    forall k :: 0 <= k < |s| ==> '0' <= s[k] <= '9'
  }

  function Value(s: string): nat
    requires IsNumeral(s)
  {
    if s == [] then 0 else Value(s[..|s| - 1]) * 10 + (s[|s| - 1] as int - '0' as int)
  }

  /** The leading digits of a string. */
  function LeadingDigits(s: string): (r: string)
    ensures IsNumeral(r)
  {
    if s == [] || !('0' <= s[0] <= '9') then [] else [s[0]] + LeadingDigits(s[1..])
  }

  /** Inverse of the printing: skip the prefix, evaluate the digits. */
  function ParseIndex(name: string): nat
    requires |name| >= |PREFIX|
  {
    Value(LeadingDigits(name[|PREFIX|..]))
  }

  lemma {:induction false} LeadingDigitsOf(digits: string, rest: string)
    requires IsNumeral(digits) && (rest != [] ==> !('0' <= rest[0] <= '9'))
    ensures LeadingDigits(digits + rest) == digits
  {
    if digits == [] {
      assert digits + rest == rest;
    } else {
      assert (digits + rest)[1..] == digits[1..] + rest;
      LeadingDigitsOf(digits[1..], rest);
    }
  }

  function Pow10(k: nat): nat {
    if k == 0 then 1 else 10 * Pow10(k - 1)
  }

  lemma {:induction false} LowDigitsValue(n: nat, k: nat)
    requires k > 0
    ensures Pow10(k) > 0
    ensures var s := LowDigits(n, k); 0 < |s| <= k && IsNumeral(s) && Value(s) == n % Pow10(k)
  {
    var last := Digit(n % 10);
    Pow10Positive(k);
    if n < 10 || k == 1 {
      assert Value([last]) == n % 10;
      if k > 1 { SmallMod(n, k); }
    } else {
      var init := LowDigits(n / 10, k - 1);
      LowDigitsValue(n / 10, k - 1);
      ValueAppend(init, n % 10);
      ModTimesTen(n, Pow10(k - 1));
    }
  }

  lemma DigitIs(n: nat)
    requires n < 10
    ensures '0' <= Digit(n) <= '9' && Digit(n) as int - '0' as int == n
  {}

  lemma ValueAppend(s: string, n: nat)
    requires IsNumeral(s) && n < 10
    ensures IsNumeral(s + [Digit(n)]) && Value(s + [Digit(n)]) == Value(s) * 10 + n
  {
    var t := s + [Digit(n)];
    DigitIs(n);
    assert t[..|s|] == s && t[|s|] == Digit(n);
  }

  lemma Pow10Positive(k: nat)
    ensures Pow10(k) > 0
  {}

  lemma SmallMod(n: nat, k: nat)
    requires n < 10 && k > 1
    ensures Pow10(k) >= 10 && n % Pow10(k) == n
  {
    Pow10Positive(k - 1);
    ModUnique(n, Pow10(k), 0, n);
  }

  lemma ModTimesTen(n: nat, p: nat)
    requires p > 0
    ensures n % (10 * p) == n / 10 % p * 10 + n % 10
  {
    var q, r := n / 10 / p, n / 10 % p;
    var rest := r * 10 + n % 10;
    DivBounds(n / 10, p);
    assert n / 10 == q * p + r;
    assert n == q * (10 * p) + rest by { assert q * (10 * p) == 10 * (q * p); }
    assert 0 <= rest < 10 * p;
    ModUnique(n, 10 * p, q, rest);
  }

  lemma ModUnique(n: nat, d: nat, q: nat, r: nat)
    requires d > 0 && n == q * d + r && r < d
    ensures n % d == r
  {
    DivBounds(n, d);
    if n / d < q { MulLe(n / d + 1, q, d); }
    if n / d > q { MulLe(q + 1, n / d, d); }
    assert n / d == q;
  }

  /** The printed index reads back modulo 10000, for every index and every suffix. */
  lemma NameReadsBack(idx: nat, suffix: string)
    ensures ParseIndex(CoreText(idx, suffix)) == idx % 10000
  {
    var digits := LowDigits(idx, 4);
    LowDigitsValue(idx, 4);
    assert Pow10(4) == 10000;
    LeadingDigitsOf(digits, " " + suffix);
    assert CoreText(idx, suffix)[|PREFIX|..] == digits + (" " + suffix);
  }

  /** Below 10000, and only there, the numeral is the decimal one and the name gives the index back. */
  lemma {:induction false} NameIsDecimal(idx: nat, suffix: string)
    ensures ParseIndex(CoreText(idx, suffix)) == idx <==> idx < 10000
    ensures idx < 10000 ==> CoreText(idx, suffix) == "Core " + Decimal(idx) + " " + suffix
  {
    NameReadsBack(idx, suffix);
    if idx < 10000 { DecimalText(idx, suffix); }
  }

  lemma DecimalText(idx: nat, suffix: string)
    requires idx < 10000
    ensures CoreText(idx, suffix) == "Core " + Decimal(idx) + " " + suffix
  {
    assert Pow10(4) == 10000;
    LowDigitsDecimal(idx, 4);
  }

  lemma {:induction false} LowDigitsDecimal(n: nat, k: nat)
    requires k > 0 && n < Pow10(k)
    ensures LowDigits(n, k) == Decimal(n)
  {
    if n >= 10 && k > 1 { LowDigitsDecimal(n / 10, k - 1); }
  }

  /** Once n has k digits or more, exactly k are kept, and they depend on n modulo 10^k only. */
  lemma {:induction false} KeptDigits(i: nat, j: nat, k: nat)
    requires k > 0 && i >= Pow10(k - 1) && j >= Pow10(k - 1)
    requires Pow10(k) > 0 && i % Pow10(k) == j % Pow10(k)
    ensures LowDigits(i, k) == LowDigits(j, k) && |LowDigits(i, k)| == k
  {
    if k > 1 {
      Pow10Positive(k - 2);
      Pow10Positive(k - 1);
      ModTimesTen(i, Pow10(k - 1));
      ModTimesTen(j, Pow10(k - 1));
      KeptDigits(i / 10, j / 10, k - 1);
    }
  }

  lemma {:induction false} FewDigits(n: nat, k: nat)
    requires n < Pow10(k) && k > 0
    ensures forall j :: j >= k ==> |LowDigits(n, j)| <= k
  {
    if n >= 10 {
      assert k > 1;
      FewDigits(n / 10, k - 1);
      forall j | j >= k ensures |LowDigits(n, j)| <= k {
        assert |LowDigits(n / 10, j - 1)| <= k - 1;
      }
    }
  }

  ghost predicate SameNumeral(i: nat, j: nat) {
    i == j || (i >= 1000 && j >= 1000 && i % 10000 == j % 10000)
  }

  lemma NumeralValue(n: nat)
    ensures IsNumeral(LowDigits(n, 4)) && Value(LowDigits(n, 4)) == n % 10000
  {
    LowDigitsValue(n, 4);
    assert Pow10(4) == 10000;
  }

  lemma NumeralsClash(i: nat, j: nat)
    ensures LowDigits(i, 4) == LowDigits(j, 4) <==> SameNumeral(i, j)
  {
    if SameNumeral(i, j) {
      if i != j { FourDigitsAgree(i, j); }
    } else {
      NumeralValue(i);
      NumeralValue(j);
      NumeralLength(i);
      NumeralLength(j);
      ValueOrLengthDiffers(i, j);
    }
  }

  /** Different numerals differ in value or in being short. */
  lemma ValueOrLengthDiffers(i: nat, j: nat)
    requires !SameNumeral(i, j)
    ensures i % 10000 != j % 10000 || (i < 1000 && j >= 1000) || (j < 1000 && i >= 1000)
  {
    assert i < 1000 ==> i % 10000 == i;
    assert j < 1000 ==> j % 10000 == j;
  }

  lemma FourDigitsAgree(i: nat, j: nat)
    requires i >= 1000 && j >= 1000 && i % 10000 == j % 10000
    ensures LowDigits(i, 4) == LowDigits(j, 4)
  {
    assert Pow10(4) == 10000 && Pow10(3) == 1000;
    KeptDigits(i, j, 4);
  }

  lemma NumeralLength(n: nat)
    ensures |LowDigits(n, 4)| <= 3 <==> n < 1000
  {
    assert Pow10(3) == 1000;
    if n < 1000 { FewDigits(n, 3); } else { Pow10Positive(4); KeptDigits(n, n, 4); }
  }

  /** Two core names are equal exactly when suffix and kept digits are: clashes start at 1000 against 11000. */
  lemma NamesClash(i: nat, s: string, j: nat, t: string)
    ensures CoreText(i, s) == CoreText(j, t) <==> s == t && SameNumeral(i, j)
  {
    var a, b := LowDigits(i, 4), LowDigits(j, 4);
    NumeralsClash(i, j);
    assert CoreText(i, s)[|PREFIX|..] == a + (" " + s);
    assert CoreText(j, t)[|PREFIX|..] == b + (" " + t);
    LowDigitsValue(i, 4);
    LowDigitsValue(j, 4);
    LeadingDigitsOf(a, " " + s);
    LeadingDigitsOf(b, " " + t);
    assert (a + (" " + s))[|a| + 1..] == s;
    assert (b + (" " + t))[|b| + 1..] == t;
  }
}
