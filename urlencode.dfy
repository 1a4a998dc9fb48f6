/**
 * `urllib.parse.urlencode` with its default `quote_plus`: the
 * application/x-www-form-urlencoded query string. Each name and value is
 * percent-encoded per section 2.1 of RFC 3986 over its UTF-8 bytes, except the
 * unreserved characters of section 2.3, which stay as they are, and the space,
 * which becomes `+`.
 */
module UrlEncode {
  import opened Text

  /** Section 2.3 of RFC 3986: ALPHA / DIGIT / "-" / "." / "_" / "~". */
  predicate IsUnreserved(c: char) {
    'A' <= c <= 'Z' || 'a' <= c <= 'z' || '0' <= c <= '9' || c == '-' || c == '.' || c == '_' || c == '~'
  }

  /** What an encoded name or value may contain. */
  predicate IsFormChar(c: char) {
    IsUnreserved(c) || c == '+' || c == '%'
  }

  predicate FormEncoded(s: string) {
    forall i :: 0 <= i < |s| ==> IsFormChar(s[i])
  }

  /** Upper-case hexadecimal digit, as Python writes percent-escapes. */
  function HexDigit(n: nat): (c: char)
    requires n < 16
    ensures IsUnreserved(c)
  {
    if n < 10 then DigitChar(n) else ('A' as int + n - 10) as char
  }

  /** The UTF-8 encoding of one character (section 3 of RFC 3629). */
  function Utf8(c: char): (bytes: seq<nat>)
    ensures 1 <= |bytes| <= 4
    ensures forall i :: 0 <= i < |bytes| ==> bytes[i] < 256
  {
    var cp := c as int;
    if cp < 0x80 then [cp]
    else if cp < 0x800 then [0xC0 + cp / 0x40, 0x80 + cp % 0x40]
    else if cp < 0x10000 then [0xE0 + cp / 0x1000, 0x80 + (cp / 0x40) % 0x40, 0x80 + cp % 0x40]
    else [0xF0 + cp / 0x40000, 0x80 + (cp / 0x1000) % 0x40, 0x80 + (cp / 0x40) % 0x40, 0x80 + cp % 0x40]
  }

  /** `%XX` for each byte. */
  function PercentEncode(bytes: seq<nat>): (r: string)
    requires forall i :: 0 <= i < |bytes| ==> bytes[i] < 256
    ensures |r| == 3 * |bytes|
  {
    if bytes == [] then ""
    else ['%', HexDigit(bytes[0] / 16), HexDigit(bytes[0] % 16)] + PercentEncode(bytes[1..])
  }

  /** The percent-escapes of a character that is neither unreserved nor a space. */
  function Escape(c: char): (r: string)
    requires !IsUnreserved(c) && c != ' '
    ensures |r| >= 3 && r[0] == '%'
  {
    PercentEncode(Utf8(c))
  }

  function QuoteChar(c: char): string {
    if IsUnreserved(c) then [c]
    else if c == ' ' then "+"
    else Escape(c)
  }

  /**
   * `quote_plus(s)`: each character in turn, unreserved characters as they
   * are, the space as `+`, anything else as the escapes of its UTF-8 bytes.
   */
  function QuotePlus(s: string): string {
    if s == [] then "" else QuoteChar(s[0]) + QuotePlus(s[1..])
  }

  lemma {:induction false} PercentEncodeEncoded(bytes: seq<nat>)
    requires forall i :: 0 <= i < |bytes| ==> bytes[i] < 256
    ensures FormEncoded(PercentEncode(bytes))
  {
    if bytes != [] {
      PercentEncodeEncoded(bytes[1..]);
    }
  }

  lemma QuoteCharEncoded(c: char)
    ensures FormEncoded(QuoteChar(c))
  {
    if !IsUnreserved(c) && c != ' ' {
      PercentEncodeEncoded(Utf8(c));
    }
  }

  lemma EncodedAppend(a: string, b: string)
    requires FormEncoded(a) && FormEncoded(b)
    ensures FormEncoded(a + b)
  {
    assert forall i :: |a| <= i < |a + b| ==> (a + b)[i] == b[i - |a|];
  }

  /** `quote_plus` writes unreserved characters, `+` and `%` escapes only. */
  lemma {:induction false} QuotePlusEncoded(s: string)
    ensures FormEncoded(QuotePlus(s))
  {
    if s != [] {
      QuotePlusEncoded(s[1..]);
      QuoteCharEncoded(s[0]);
      EncodedAppend(QuoteChar(s[0]), QuotePlus(s[1..]));
    }
  }

  /** A string of unreserved characters is its own encoding: `quote_plus` leaves it as it is. */
  lemma {:induction false} QuotePlusUnreserved(s: string)
    requires forall i :: 0 <= i < |s| ==> IsUnreserved(s[i])
    ensures QuotePlus(s) == s
  {
    if s != [] {
      assert forall i :: 0 <= i < |s[1..]| ==> s[1..][i] == s[i + 1];
      QuotePlusUnreserved(s[1..]);
      assert s == [s[0]] + s[1..];
    }
  }

  /** One `name=value` field of the query string. */
  function Field(name: string, value: string): string {
    QuotePlus(name) + "=" + QuotePlus(value)
  }

  /** A name made of unreserved characters is written as it is. */
  lemma PlainNameField(name: string, value: string)
    requires forall i :: 0 <= i < |name| ==> IsUnreserved(name[i])
    ensures Field(name, value) == name + "=" + QuotePlus(value)
  {
    QuotePlusUnreserved(name);
  }

  function FieldOf(p: (string, string)): string {
    Field(p.0, p.1)
  }

  /** `f` applied to each element, in order. */
  function Map<T, U>(f: T -> U, s: seq<T>): (r: seq<U>)
    ensures |r| == |s|
    ensures forall i :: 0 <= i < |s| ==> r[i] == f(s[i])
  {
    seq(|s|, i requires 0 <= i < |s| => f(s[i]))
  }

  lemma MapAppend<T, U>(f: T -> U, a: seq<T>, b: seq<T>)
    ensures Map(f, a + b) == Map(f, a) + Map(f, b)
  {
    var m := Map(f, a + b);
    assert forall i :: 0 <= i < |a| ==> m[i] == Map(f, a)[i];
    assert forall i :: |a| <= i < |m| ==> m[i] == Map(f, b)[i - |a|];
  }

  /** One field per parameter, in order. */
  function Fields(params: seq<(string, string)>): (fields: seq<string>)
    ensures |fields| == |params|
  {
    Map(FieldOf, params)
  }

  /** Fields are encoded one parameter at a time. */
  lemma FieldsAppend(a: seq<(string, string)>, b: seq<(string, string)>)
    ensures Fields(a + b) == Fields(a) + Fields(b)
  {
    MapAppend(FieldOf, a, b);
  }

  /** `urlencode(params)` for a list of (name, value) pairs, in order. */
  function Urlencode(params: seq<(string, string)>): string {
    Join(Fields(params), '&')
  }

  lemma NoSeparators(s: string)
    requires FormEncoded(s)
    ensures '&' !in s && '=' !in s
  {
  }

  /**
   * The query string has exactly one field per parameter, in order, and each
   * field splits at `=` into the encoded name and the encoded value.
   */
  lemma UrlencodeStructure(params: seq<(string, string)>)
    requires |params| >= 1
    ensures Split(Urlencode(params), '&') == Fields(params)
    ensures forall i :: 0 <= i < |params| ==>
      Split(Fields(params)[i], '=') == [QuotePlus(params[i].0), QuotePlus(params[i].1)]
  {
    var fields := Fields(params);
    forall k | 0 <= k < |fields|
      ensures '&' !in fields[k]
      ensures Split(fields[k], '=') == [QuotePlus(params[k].0), QuotePlus(params[k].1)]
    {
      var n, v := QuotePlus(params[k].0), QuotePlus(params[k].1);
      QuotePlusEncoded(params[k].0);
      QuotePlusEncoded(params[k].1);
      NoSeparators(n);
      NoSeparators(v);
      assert fields[k] == Join([n, v], '=');
      SplitJoin([n, v], '=');
    }
    SplitJoin(fields, '&');
  }
}
