/**
 * The pieces of Rust's standard library that the to-do manager leans on,
 * written out: `str::trim`, `FromStr` for the unsigned integer types in
 * radix 10 (followed by `unwrap_or(0)`), and the decimal text that `{}`
 * produces for an index.
 */
module Text {

  datatype Option<T> = None | Some(value: T)

  /** Largest `u32`, the type of the menu choice. */
  const U32Max: nat := 0xFFFF_FFFF
  /** Largest `usize` on a 64-bit target, the type of a task index. */
  const UsizeMax: nat := 0xFFFF_FFFF_FFFF_FFFF

  // ---------------------------------------------------------------- trim

  /** `char::is_whitespace`: the characters with the Unicode White_Space property. */
  predicate IsWhitespace(c: char) {
    ('\t' <= c <= '\r') || c == ' ' || c == '\U{85}' || c == '\U{A0}' || c == '\U{1680}'
    || ('\U{2000}' <= c <= '\U{200A}') || c == '\U{2028}' || c == '\U{2029}'
    || c == '\U{202F}' || c == '\U{205F}' || c == '\U{3000}'
  }

  predicate AllWhitespace(s: string) {
    forall i :: 0 <= i < |s| ==> IsWhitespace(s[i])
  }

  /** Neither end of `s` is whitespace (vacuously so for the empty string). */
  predicate Trimmed(s: string) {
    s == [] || (!IsWhitespace(s[0]) && !IsWhitespace(s[|s| - 1]))
  }

  /** Drops the longest all-whitespace prefix. */
  function TrimStart(s: string): (r: string)
    ensures |r| <= |s|
  {
    if s != [] && IsWhitespace(s[0]) then TrimStart(s[1..]) else s
  }

  /** Drops the longest all-whitespace suffix. */
  function TrimEnd(s: string): (r: string)
    ensures |r| <= |s|
  {
    if s != [] && IsWhitespace(s[|s| - 1]) then TrimEnd(s[..|s| - 1]) else s
  }

  /** `TrimStart` keeps a suffix, drops only whitespace, and stops at the first other character. */
  lemma {:induction false} TrimStartFacts(s: string)
    ensures var r := TrimStart(s);
      r == s[|s| - |r|..] && AllWhitespace(s[..|s| - |r|]) && (r == [] || !IsWhitespace(r[0]))
    decreases |s|
  {
    if s != [] && IsWhitespace(s[0]) {
      TrimStartFacts(s[1..]);
      var r := TrimStart(s[1..]);
      assert s[1..][|s| - 1 - |r|..] == s[|s| - |r|..];
      assert s[..|s| - |r|] == [s[0]] + s[1..][..|s| - 1 - |r|];
    } else {
      assert s[..0] == [];
    }
  }

  /** `TrimEnd` keeps a prefix, drops only whitespace, and stops at the last other character. */
  lemma {:induction false} TrimEndFacts(s: string)
    ensures var r := TrimEnd(s);
      r == s[..|r|] && AllWhitespace(s[|r|..]) && (r == [] || !IsWhitespace(r[|r| - 1]))
    decreases |s|
  {
    if s != [] && IsWhitespace(s[|s| - 1]) {
      var p := s[..|s| - 1];
      TrimEndFacts(p);
      var r := TrimEnd(p);
      assert p[..|r|] == s[..|r|];
      assert s[|r|..] == p[|r|..] + [s[|s| - 1]];
    } else {
      assert s[|s|..] == [];
    }
  }

  /** `str::trim`: whitespace removed from both ends. */
  function Trim(s: string): (r: string)
    ensures |r| <= |s| && Trimmed(r)
  {
    var t := TrimStart(s);
    TrimStartFacts(s);
    TrimEndKeepsStart(t);
    TrimEnd(t)
  }

  lemma TrimEndKeepsStart(t: string)
    requires t == [] || !IsWhitespace(t[0])
    ensures Trimmed(TrimEnd(t))
  {
    TrimEndFacts(t);
    var r := TrimEnd(t);
    if r != [] {
      assert r[0] == t[0];
    }
  }

  lemma {:induction false} TrimStartOf(p: string, m: string)
    requires AllWhitespace(p)
    requires m == [] || !IsWhitespace(m[0])
    ensures TrimStart(p + m) == m
    decreases |p|
  {
    if p != [] {
      assert (p + m)[1..] == p[1..] + m;
      TrimStartOf(p[1..], m);
    } else {
      assert p + m == m;
    }
  }

  lemma {:induction false} TrimEndOf(m: string, q: string)
    requires AllWhitespace(q)
    requires m == [] || !IsWhitespace(m[|m| - 1])
    ensures TrimEnd(m + q) == m
    decreases |q|
  {
    if q != [] {
      assert (m + q)[..|m + q| - 1] == m + q[..|q| - 1];
      TrimEndOf(m, q[..|q| - 1]);
    } else {
      assert m + q == m;
    }
  }

  /**
   * `Trim` is exactly "strip the whitespace around the text": for any text
   * `m` whose ends are not whitespace, surrounded by whitespace `p` and `q`,
   * trimming gives back `m`.
   */
  lemma {:induction false} TrimOfPadded(p: string, m: string, q: string)
    requires AllWhitespace(p) && AllWhitespace(q) && Trimmed(m)
    ensures Trim(p + m + q) == m
  {
    if m == [] {
      assert p + m + q == p + q;
      assert AllWhitespace(p + q);
      TrimStartOf(p + q, []);
      assert p + q + [] == p + q;
      assert TrimStart(p + q) == [];
    } else {
      assert p + m + q == p + (m + q);
      TrimStartOf(p, m + q);
      TrimEndOf(m, q);
    }
  }

  /** Trimming twice is trimming once. */
  lemma TrimIdempotent(s: string)
    ensures Trim(Trim(s)) == Trim(s)
  {
    var r := Trim(s);
    assert [] + r + [] == r;
    TrimOfPadded([], r, []);
  }

  // --------------------------------------------------------- integers

  predicate IsDigit(c: char) {
    '0' <= c <= '9'
  }

  predicate AllDigits(s: string) {
    forall i :: 0 <= i < |s| ==> IsDigit(s[i])
  }

  function DigitValue(c: char): (d: nat)
    requires IsDigit(c)
    ensures d < 10
  {
    c as int - '0' as int
  }

  function DigitChar(d: nat): (c: char)
    requires d < 10
    ensures IsDigit(c) && DigitValue(c) == d
  {
    ('0' as int + d) as char
  }

  /** The value of the digits `ds` read left to right after the digits already worth `acc`. */
  function Horner(acc: nat, ds: string): (v: nat)
    requires AllDigits(ds)
    ensures v >= acc
    decreases |ds|
  {
    if ds == [] then acc else Horner(10 * acc + DigitValue(ds[0]), ds[1..])
  }

  /** The value of the decimal numeral `ds`. */
  function DigitsValue(ds: string): nat
    requires AllDigits(ds)
  {
    Horner(0, ds)
  }

  lemma {:induction false} HornerSnoc(acc: nat, ds: string, c: char)
    requires AllDigits(ds) && IsDigit(c)
    ensures AllDigits(ds + [c])
    ensures Horner(acc, ds + [c]) == 10 * Horner(acc, ds) + DigitValue(c)
    decreases |ds|
  {
    assert AllDigits(ds + [c]);
    if ds == [] {
      assert (ds + [c])[1..] == [];
    } else {
      assert (ds + [c])[1..] == ds[1..] + [c];
      HornerSnoc(10 * acc + DigitValue(ds[0]), ds[1..], c);
    }
  }

  /**
   * The digit loop of `from_str_radix`: every character must be a digit, and
   * the running value is multiplied by ten and added to with overflow checks
   * at each step, failing as soon as it would pass `max`.
   */
  function Accumulate(acc: nat, s: string, max: nat): Option<nat>
    requires acc <= max
    decreases |s|
  {
    if s == [] then Some(acc)
    else if !IsDigit(s[0]) then None
    else
      var next := 10 * acc + DigitValue(s[0]);
      if next > max then None
      else Accumulate(next, s[1..], max)
  }

  /**
   * The checked loop succeeds exactly when every character is a digit and
   * the value never passes `max`, and then it yields that value.
   */
  lemma {:induction false} AccumulateFacts(acc: nat, s: string, max: nat)
    requires acc <= max
    ensures var r := Accumulate(acc, s, max);
      (r.Some? <==> AllDigits(s) && Horner(acc, s) <= max) &&
      (r.Some? ==> r.value == Horner(acc, s))
    decreases |s|
  {
    if s != [] && IsDigit(s[0]) {
      var next := 10 * acc + DigitValue(s[0]);
      if next <= max {
        AccumulateFacts(next, s[1..], max);
      } else if AllDigits(s) {
        assert Horner(acc, s) == Horner(next, s[1..]);
      }
    }
  }

  /** The digits an unsigned `from_str` reads: everything after one optional leading `+`. */
  function Numeral(s: string): string {
    if s != [] && s[0] == '+' then s[1..] else s
  }

  /** An unsigned numeral: an optional `+`, then one or more ASCII digits. */
  predicate WellFormed(s: string) {
    Numeral(s) != [] && AllDigits(Numeral(s))
  }

  /** `s.parse::<uN>()` where `max` is the largest `uN`. */
  function ParseUnsigned(s: string, max: nat): Option<nat> {
    if s == [] then None
    else if s[0] == '+' then
      (if |s| == 1 then None else Accumulate(0, s[1..], max))
    else Accumulate(0, s, max)
  }

  /**
   * What `ParseUnsigned` accepts: an optional `+` and then one or more digits
   * whose value fits under `max`. The empty string, a lone sign, any
   * non-digit (a `-` included) and any value above `max` are errors.
   */
  lemma ParseUnsignedFacts(s: string, max: nat)
    ensures var r := ParseUnsigned(s, max);
      (r.Some? <==> WellFormed(s) && DigitsValue(Numeral(s)) <= max) &&
      (r.Some? ==> r.value == DigitsValue(Numeral(s)) && r.value <= max)
  {
    if s != [] && s[0] == '+' {
      if |s| > 1 {
        AccumulateFacts(0, s[1..], max);
      }
    } else {
      AccumulateFacts(0, s, max);
    }
  }

  /** `s.parse::<uN>().unwrap_or(0)`. */
  function ParseOrZero(s: string, max: nat): nat {
    match ParseUnsigned(s, max)
    case Some(n) => n
    case None => 0
  }

  /** `unwrap_or(0)` gives the parsed value when there is one, and 0 on every error. */
  lemma ParseOrZeroFacts(s: string, max: nat)
    ensures WellFormed(s) && DigitsValue(Numeral(s)) <= max ==> ParseOrZero(s, max) == DigitsValue(Numeral(s))
    ensures !(WellFormed(s) && DigitsValue(Numeral(s)) <= max) ==> ParseOrZero(s, max) == 0
  {
    ParseUnsignedFacts(s, max);
  }

  // --------------------------------------------------------- formatting

  /** `{}` applied to an unsigned integer: its decimal numeral without leading zeros. */
  function NatToString(n: nat): (s: string)
    ensures s != [] && AllDigits(s)
    ensures s[0] == '0' ==> n == 0 && s == "0"
    decreases n
  {
    if n < 10 then [DigitChar(n)] else NatToString(n / 10) + [DigitChar(n % 10)]
  }

  /** Reading back a formatted number gives the number. */
  lemma {:induction false} NatToStringValue(n: nat)
    ensures DigitsValue(NatToString(n)) == n
    decreases n
  {
    if n < 10 {
      var s := NatToString(n);
      assert s[1..] == [];
      assert Horner(0, s) == Horner(n, []);
    } else {
      NatToStringValue(n / 10);
      HornerSnoc(0, NatToString(n / 10), DigitChar(n % 10));
    }
  }

  /** Parsing undoes formatting, for every value the target type can hold. */
  lemma ParseFormatted(n: nat, max: nat)
    requires n <= max
    ensures ParseUnsigned(NatToString(n), max) == Some(n)
  {
    NatToStringValue(n);
    ParseUnsignedFacts(NatToString(n), max);
  }

  /** Distinct numbers are formatted differently. */
  lemma NatToStringInjective(a: nat, b: nat)
    requires NatToString(a) == NatToString(b)
    ensures a == b
  {
    NatToStringValue(a);
    NatToStringValue(b);
  }
}
