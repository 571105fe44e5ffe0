/**
 * The string operations the services use, on `seq<char>`: ordinal `Contains`, `ToLower`
 * restricted to the ASCII letters, and the character classes of the password check.
 */
module Text {

  predicate IsAsciiUpper(c: char)
  {
    'A' <= c <= 'Z'
  }

  predicate IsAsciiLower(c: char)
  {
    'a' <= c <= 'z'
  }

  /** `char.IsDigit` on ASCII: '0'..'9'. */
  predicate IsAsciiDigit(c: char)
  {
    '0' <= c <= '9'
  }

  /** `char.ToLower` on ASCII: an upper-case letter becomes its lower-case partner, anything else is kept. */
  function LowerChar(c: char): (r: char)
    ensures !IsAsciiUpper(r)
    ensures IsAsciiLower(r) <==> IsAsciiLower(c) || IsAsciiUpper(c)
    ensures !IsAsciiUpper(c) ==> r == c
  {
    if IsAsciiUpper(c) then (c as int + 32) as char else c
  }

  /** `string.ToLower`, character by character. */
  function Lower(s: string): (r: string)
    ensures |r| == |s|
    ensures forall i :: 0 <= i < |s| ==> r[i] == LowerChar(s[i])
  {
    if |s| == 0 then "" else [LowerChar(s[0])] + Lower(s[1..])
  }

  /** Lower-casing twice is lower-casing once, and text with no upper-case letter is its own lower case. */
  lemma LowerIdempotent(s: string)
    ensures Lower(Lower(s)) == Lower(s)
    ensures (forall i :: 0 <= i < |s| ==> !IsAsciiUpper(s[i])) ==> Lower(s) == s
  {
  }

  /** `q` occurs in `s` starting at position `i`. */
  predicate OccursAt(s: string, q: string, i: int)
  {
    0 <= i && i + |q| <= |s| && s[i..i + |q|] == q
  }

  /** Ordinal `string.Contains`: `q` occurs in `s` as a contiguous run. */
  function Contains(s: string, q: string): (r: bool)
    ensures r <==> exists i :: OccursAt(s, q, i)
    decreases |s|
  {
    if |q| > |s| then false
    else if s[..|q|] == q then
      assert OccursAt(s, q, 0);
      true
    else
      var r := Contains(s[1..], q);
      ContainsShift(s, q);
      r
  }

  /** When `q` is not a prefix of `s`, its occurrences in `s` are those in the tail, one place on. */
  lemma ContainsShift(s: string, q: string)
    requires |q| <= |s| && s[..|q|] != q
    ensures (exists i :: OccursAt(s, q, i)) <==> (exists i :: OccursAt(s[1..], q, i))
  {
    var t := s[1..];
    if exists i :: OccursAt(s, q, i) {
      var i :| OccursAt(s, q, i);
      assert i != 0;
      assert t[i - 1..i - 1 + |q|] == s[i..i + |q|];
      assert OccursAt(t, q, i - 1);
    }
    if exists i :: OccursAt(t, q, i) {
      var i :| OccursAt(t, q, i);
      assert s[i + 1..i + 1 + |q|] == t[i..i + |q|];
      assert OccursAt(s, q, i + 1);
    }
  }

  /** Every string contains the empty string, and every string contains itself. */
  lemma ContainsTrivial(s: string)
    ensures Contains(s, "")
    ensures Contains(s, s)
  {
    assert OccursAt(s, "", 0);
    assert OccursAt(s, s, 0);
  }

  /** Some character of `s` satisfies `p` (LINQ `Any`). */
  predicate Any(s: string, p: char -> bool)
  {
    exists i :: 0 <= i < |s| && p(s[i])
  }

  // ─────────────────────── UTF-16 length ───────────────────────

  /** The UTF-16 code units one character takes: a surrogate pair above U+FFFF, one unit otherwise. */
  function Utf16Units(c: char): nat
  {
    if c as int >= 0x1_0000 then 2 else 1
  }

  /** `string.Length`: the number of UTF-16 code units, between one and two per character. */
  function Utf16Length(s: string): (n: nat)
    ensures |s| <= n <= 2 * |s|
    ensures (forall i :: 0 <= i < |s| ==> (s[i] as int) < 0x1_0000) ==> n == |s|
  {
    if |s| == 0 then 0 else Utf16Length(s[..|s| - 1]) + Utf16Units(s[|s| - 1])
  }

  /** The UTF-16 length of a concatenation is the sum of the lengths. */
  lemma {:induction false} Utf16LengthAppend(s: string, t: string)
    ensures Utf16Length(s + t) == Utf16Length(s) + Utf16Length(t)
  {
    if |t| > 0 {
      var t' := t[..|t| - 1];
      assert (s + t)[..|s + t| - 1] == s + t';
      Utf16LengthAppend(s, t');
    } else {
      assert s + t == s;
    }
  }

  // ─────────────────────── decimal numbers ───────────────────────

  function DigitChar(d: nat): (c: char)
    requires d < 10
    ensures IsAsciiDigit(c)
  {
    ('0' as int + d) as char
  }

  function DigitValue(c: char): nat
  {
    if IsAsciiDigit(c) then c as int - '0' as int else 0
  }

  /** The decimal form of a counter, as C# string interpolation writes a non-negative `int`. */
  function DecimalString(n: nat): (r: string)
    ensures |r| >= 1
    ensures forall i :: 0 <= i < |r| ==> IsAsciiDigit(r[i])
    ensures |r| > 1 ==> r[0] != '0'
  {
    if n < 10 then [DigitChar(n)] else DecimalString(n / 10) + [DigitChar(n % 10)]
  }

  /** Reading a string of digits back as a number. */
  function DecimalValue(s: string): nat
  {
    if |s| == 0 then 0 else DecimalValue(s[..|s| - 1]) * 10 + DigitValue(s[|s| - 1])
  }

  /** Reading the decimal form back gives the number: the decimal form is one-to-one. */
  lemma {:induction false} DecimalRoundTrip(n: nat)
    ensures DecimalValue(DecimalString(n)) == n
  {
    var s := DecimalString(n);
    if n < 10 {
      assert s[..0] == "";
    } else {
      DecimalRoundTrip(n / 10);
      assert s[..|s| - 1] == DecimalString(n / 10);
    }
  }

  /** The pass and receipt numbers: `{prefix}-{yyyyMMdd}-{counter}`. */
  function SerialNumber(prefix: string, stamp: string, n: nat): string
  {
    prefix + "-" + stamp + "-" + DecimalString(n)
  }

  /**
   * Serial numbers with the same prefix and date stamps of the same width (as `yyyyMMdd`
   * always has) are equal only for the same stamp and the same counter: distinct counter
   * values never share a number.
   */
  lemma SerialNumberInjective(prefix: string, stamp1: string, stamp2: string, n1: nat, n2: nat)
    requires |stamp1| == |stamp2|
    requires SerialNumber(prefix, stamp1, n1) == SerialNumber(prefix, stamp2, n2)
    ensures stamp1 == stamp2 && n1 == n2
  {
    var s1 := SerialNumber(prefix, stamp1, n1);
    var s2 := SerialNumber(prefix, stamp2, n2);
    var head := |prefix| + 1;
    var tail := head + |stamp1| + 1;
    assert stamp1 == s1[head..tail - 1] == s2[head..tail - 1] == stamp2;
    assert DecimalString(n1) == s1[tail..] == s2[tail..] == DecimalString(n2);
    DecimalRoundTrip(n1);
    DecimalRoundTrip(n2);
  }
}
