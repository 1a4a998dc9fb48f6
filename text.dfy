/**
 * The few Python `str` operations the pipeline relies on: `startswith`, `in`,
 * `lower` (ASCII letters, as SQLite's `lower` and `LIKE` fold them), `strip`,
 * `split`, slicing, `replace` and `str(int)`.
 */
module Text {
  import opened Wrappers

  predicate StartsWith(s: string, prefix: string) {
    |prefix| <= |s| && s[..|prefix|] == prefix
  }

  /** The needle occurs in the haystack starting at position `i`. */
  predicate OccursAt(haystack: string, needle: string, i: int) {
    0 <= i && i + |needle| <= |haystack| && haystack[i..i + |needle|] == needle
  }

  /** `needle in haystack`: some window of the haystack equals the needle. */
  function Contains(haystack: string, needle: string): bool
    decreases |haystack|
  {
    if StartsWith(haystack, needle) then true
    else if haystack == [] then false
    else Contains(haystack[1..], needle)
  }

  /** The scan finds the needle exactly when some window of the haystack equals it. */
  lemma {:induction false} ContainsSound(haystack: string, needle: string)
    decreases |haystack|
    ensures Contains(haystack, needle) <==> exists i :: OccursAt(haystack, needle, i)
  {
    if StartsWith(haystack, needle) {
      assert OccursAt(haystack, needle, 0);
    } else if haystack != [] {
      OccursInTail(haystack, needle);
      ContainsSound(haystack[1..], needle);
    }
  }

  /** Away from position 0, an occurrence is an occurrence in the tail. */
  lemma OccursInTail(haystack: string, needle: string)
    requires haystack != [] && !OccursAt(haystack, needle, 0)
    ensures (exists i :: OccursAt(haystack, needle, i)) <==> (exists i :: OccursAt(haystack[1..], needle, i))
  {
    forall i | OccursAt(haystack, needle, i)
      ensures OccursAt(haystack[1..], needle, i - 1)
    {
      assert haystack[1..][i - 1..i - 1 + |needle|] == haystack[i..i + |needle|];
    }
    forall i | OccursAt(haystack[1..], needle, i)
      ensures OccursAt(haystack, needle, i + 1)
    {
      assert haystack[1..][i..i + |needle|] == haystack[i + 1..i + 1 + |needle|];
    }
  }

  /** Python's `str` truthiness for an optional string: present and non-empty. */
  predicate Truthy(o: Option<string>) {
    o.Some? && o.value != ""
  }

  /** `o or ""`. */
  function OrEmpty(o: Option<string>): (r: string)
    ensures Truthy(o) ==> r == o.value
    ensures !Truthy(o) ==> r == ""
  {
    if o.Some? then o.value else ""
  }

  function LowerChar(c: char): char {
    if 'A' <= c <= 'Z' then (c as int + 32) as char else c
  }

  /** ASCII lower-casing, position by position. */
  function Lower(s: string): (r: string)
    ensures |r| == |s|
    ensures forall i :: 0 <= i < |s| ==> r[i] == LowerChar(s[i])
  {
    seq(|s|, i requires 0 <= i < |s| => LowerChar(s[i]))
  }

  /** Python's `str.isspace` for one character. */
  predicate IsSpace(c: char) {
    var k := c as int;
    k == 32 || 9 <= k <= 13 || 28 <= k <= 31 || k == 0x85 || k == 0xA0 || k == 0x1680
    || 0x2000 <= k <= 0x200A || k == 0x2028 || k == 0x2029 || k == 0x202F || k == 0x205F
    || k == 0x3000
  }

  function TrimStart(s: string): string {
    if s != [] && IsSpace(s[0]) then TrimStart(s[1..]) else s
  }

  /** `lstrip` drops a run of leading whitespace: a suffix that does not start with whitespace. */
  lemma {:induction false} TrimStartSound(s: string)
    ensures var r := TrimStart(s);
      && |r| <= |s| && r == s[|s| - |r|..]
      && (r == [] || !IsSpace(r[0]))
      && forall k :: 0 <= k < |s| - |r| ==> IsSpace(s[k])
  {
    if s != [] && IsSpace(s[0]) {
      var t := s[1..];
      TrimStartSound(t);
      var r := TrimStart(t);
      assert TrimStart(s) == r;
      assert t[|t| - |r|..] == s[|s| - |r|..];
      forall k | 0 < k < |s| - |r|
        ensures IsSpace(s[k])
      {
        assert s[k] == t[k - 1];
      }
    }
  }

  function TrimEnd(s: string): string {
    if s != [] && IsSpace(s[|s| - 1]) then TrimEnd(s[..|s| - 1]) else s
  }

  /** `rstrip` drops a run of trailing whitespace: a prefix that does not end with whitespace. */
  lemma {:induction false} TrimEndSound(s: string)
    ensures var r := TrimEnd(s);
      && |r| <= |s| && r == s[..|r|]
      && (r == [] || !IsSpace(r[|r| - 1]))
      && forall k :: |r| <= k < |s| ==> IsSpace(s[k])
  {
    if s != [] && IsSpace(s[|s| - 1]) {
      var t := s[..|s| - 1];
      TrimEndSound(t);
      var r := TrimEnd(t);
      assert TrimEnd(s) == r;
      assert t[..|r|] == s[..|r|];
      forall k | |r| <= k < |s| - 1
        ensures IsSpace(s[k])
      {
        assert s[k] == t[k];
      }
    }
  }

  /** `r` is `s` with only whitespace removed before position `a` and after `a + |r|`. */
  predicate StrippedAt(s: string, r: string, a: int) {
    && 0 <= a <= |s| - |r|
    && r == s[a..a + |r|]
    && (forall k :: 0 <= k < a ==> IsSpace(s[k]))
    && (forall k :: a + |r| <= k < |s| ==> IsSpace(s[k]))
  }

  /** `s.strip()`: the infix left after removing whitespace at both ends. */
  function Strip(s: string): string {
    TrimEnd(TrimStart(s))
  }

  /**
   * `strip` removes whitespace and nothing else, at the two ends only, and
   * leaves no whitespace at either end.
   */
  lemma StripSound(s: string)
    ensures StrippedAt(s, Strip(s), |s| - |TrimStart(s)|)
    ensures Strip(s) == [] || (!IsSpace(Strip(s)[0]) && !IsSpace(Strip(s)[|Strip(s)| - 1]))
  {
    var t := TrimStart(s);
    var r := TrimEnd(t);
    var a := |s| - |t|;
    TrimStartSound(s);
    TrimEndSound(t);
    assert r == s[a..a + |r|];
    forall k | a + |r| <= k < |s|
      ensures IsSpace(s[k])
    {
      assert s[k] == t[k - a];
    }
  }

  /** Position of the first `c` in `s`, or `|s|` when there is none. */
  function IndexOf(s: string, c: char): (i: nat)
    ensures i <= |s|
    ensures i < |s| ==> s[i] == c
    ensures forall k :: 0 <= k < i ==> s[k] != c
  {
    if s == [] then 0
    else if s[0] == c then 0
    else 1 + IndexOf(s[1..], c)
  }

  /** `s.split(sep)` for a one-character separator. */
  function Split(s: string, sep: char): (parts: seq<string>)
    decreases |s|
    ensures |parts| >= 1
  {
    var i := IndexOf(s, sep);
    if i == |s| then [s] else [s[..i]] + Split(s[i + 1..], sep)
  }

  /** `sep.join(parts)`. */
  function Join(parts: seq<string>, sep: char): string {
    if |parts| == 0 then ""
    else if |parts| == 1 then parts[0]
    else parts[0] + [sep] + Join(parts[1..], sep)
  }

  /** Concatenation is associative. */
  lemma AppendAssoc<T>(a: seq<T>, b: seq<T>, c: seq<T>)
    ensures a + (b + c) == (a + b) + c
  {
  }

  /** Splitting undoes joining, when no part holds the separator. */
  lemma {:induction false} SplitJoin(parts: seq<string>, sep: char)
    requires |parts| >= 1
    requires forall k :: 0 <= k < |parts| ==> sep !in parts[k]
    ensures Split(Join(parts, sep), sep) == parts
  {
    if |parts| == 1 {
      assert IndexOf(parts[0], sep) == |parts[0]|;
    } else {
      var head, rest := parts[0], Join(parts[1..], sep);
      var s := Join(parts, sep);
      assert s == head + [sep] + rest;
      IndexOfFirst(head, sep, rest);
      assert s[..|head|] == head;
      assert s[|head| + 1..] == rest;
      assert Split(s, sep) == [head] + Split(rest, sep);
      assert forall k :: 0 <= k < |parts[1..]| ==> parts[1..][k] == parts[k + 1];
      SplitJoin(parts[1..], sep);
      assert parts == [head] + parts[1..];
    }
  }

  /** The first separator after a separator-free prefix is the one that ends it. */
  lemma {:induction false} IndexOfFirst(a: string, sep: char, b: string)
    requires sep !in a
    ensures IndexOf(a + [sep] + b, sep) == |a|
  {
    if a != [] {
      assert (a + [sep] + b)[1..] == a[1..] + [sep] + b;
      IndexOfFirst(a[1..], sep, b);
    }
  }

  /** `s.split(c)[0]`: everything before the first `c`. */
  function BeforeFirst(s: string, c: char): string {
    Split(s, c)[0]
  }

  /** The part before the first `c` is a prefix without `c`, and `c` follows it when there is one. */
  lemma BeforeFirstSound(s: string, c: char)
    ensures var r := BeforeFirst(s, c);
      StartsWith(s, r) && c !in r && (|r| < |s| ==> s[|r|] == c)
  {
    var i := IndexOf(s, c);
    assert forall k :: 0 <= k < i ==> s[..i][k] != c;
  }

  /** `s[:n]`. */
  function Take(s: string, n: nat): string {
    if n < |s| then s[..n] else s
  }

  /** The first `n` characters, or all of them when there are fewer. */
  lemma TakeSound(s: string, n: nat)
    ensures |Take(s, n)| == if n < |s| then n else |s|
    ensures StartsWith(s, Take(s, n))
  {
  }

  /** `s.replace(a, b)` for single characters. */
  function ReplaceChar(s: string, a: char, b: char): (r: string)
    ensures |r| == |s|
    ensures forall i :: 0 <= i < |s| ==> r[i] == if s[i] == a then b else s[i]
    ensures a != b ==> a !in r
  {
    seq(|s|, i requires 0 <= i < |s| => if s[i] == a then b else s[i])
  }

  predicate IsDigit(c: char) {
    '0' <= c <= '9'
  }

  function DigitChar(d: nat): (c: char)
    requires d < 10
    ensures IsDigit(c) && c as int - '0' as int == d
  {
    ('0' as int + d) as char
  }

  predicate AllDigits(s: string) {
    forall i :: 0 <= i < |s| ==> IsDigit(s[i])
  }

  /** The number a string of decimal digits denotes. */
  function DigitsValue(s: string): nat
    requires AllDigits(s)
  {
    if s == [] then 0 else DigitsValue(s[..|s| - 1]) * 10 + (s[|s| - 1] as int - '0' as int)
  }

  /** `str(n)` for a natural number. */
  function Decimal(n: nat): (r: string)
    ensures r != [] && AllDigits(r)
  {
    if n < 10 then [DigitChar(n)] else Decimal(n / 10) + [DigitChar(n % 10)]
  }

  /**
   * `str(n)` denotes `n`, without leading zeros: reading the digits back
   * gives the number, so distinct numbers are written differently.
   */
  lemma {:induction false} DecimalValue(n: nat)
    ensures DigitsValue(Decimal(n)) == n
    ensures |Decimal(n)| > 1 ==> Decimal(n)[0] != '0'
  {
    if n >= 10 {
      var s := Decimal(n);
      assert s[..|s| - 1] == Decimal(n / 10);
      DecimalValue(n / 10);
      if |Decimal(n / 10)| == 1 {
        assert Decimal(n / 10)[0] == DigitChar(n / 10);
      }
      assert s[0] == Decimal(n / 10)[0];
    }
  }

  /** Distinct numbers have distinct decimal forms. */
  lemma DecimalInjective(m: nat, n: nat)
    requires Decimal(m) == Decimal(n)
    ensures m == n
  {
    DecimalValue(m);
    DecimalValue(n);
  }

  /** `str(i)` for any integer. */
  function IntToString(i: int): string {
    if i < 0 then "-" + Decimal(-i) else Decimal(i)
  }

  /** `"%02d" % n`. */
  function Pad2(n: nat): string {
    if n < 10 then "0" + Decimal(n) else Decimal(n)
  }
}
