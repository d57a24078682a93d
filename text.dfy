/**
 * String helpers the server relies on: JavaScript's `String.prototype.split`
 * with a one-character separator, its inverse `join`, decimal numerals and a
 * reversible escaping of separator characters (used by the session-token
 * serialisation in module Jwt).
 */
module Text {
  import opened Wrappers

  /** The fields of `s` between occurrences of `sep`, as `s.split(sep)` gives them. */
  function Split(s: string, sep: char): (r: seq<string>)
    ensures |r| >= 1
    ensures forall i :: 0 <= i < |r| ==> sep !in r[i]
    ensures Join(r, sep) == s
  {
    if |s| == 0 then [""]
    else if s[0] == sep then
      var t := Split(s[1..], sep);
      assert s == [sep] + s[1..];
      [""] + t
    else
      var t := Split(s[1..], sep);
      var r := [[s[0]] + t[0]] + t[1..];
      assert r[1..] == t[1..];
      assert s == [s[0]] + s[1..];
      r
  }

  /** The fields `fs` with `sep` between consecutive ones, as `fs.join(sep)` gives them. */
  function Join(fs: seq<string>, sep: char): string
    requires |fs| >= 1
  {
    if |fs| == 1 then fs[0] else fs[0] + [sep] + Join(fs[1..], sep)
  }

  /** Splitting a field that holds no separator, followed by a separator, peels that field off. */
  lemma {:induction false} SplitCons(f: string, sep: char, rest: string)
    requires sep !in f
    ensures Split(f + [sep] + rest, sep) == [f] + Split(rest, sep)
  {
    if |f| == 0 {
      assert f + [sep] + rest == [sep] + rest;
      assert (f + [sep] + rest)[1..] == rest;
    } else {
      var s := f + [sep] + rest;
      assert s[0] == f[0] && s[1..] == f[1..] + [sep] + rest;
      SplitCons(f[1..], sep, rest);
      assert [f[0]] + f[1..] == f;
    }
  }

  /** A string without the separator is a single field. */
  lemma {:induction false} SplitNone(f: string, sep: char)
    requires sep !in f
    ensures Split(f, sep) == [f]
  {
    if |f| > 0 {
      SplitNone(f[1..], sep);
      assert [f[0]] + f[1..] == f;
    }
  }

  /** `split` undoes `join` when no field holds the separator. */
  lemma {:induction false} SplitJoin(fs: seq<string>, sep: char)
    requires |fs| >= 1
    requires forall i :: 0 <= i < |fs| ==> sep !in fs[i]
    ensures Split(Join(fs, sep), sep) == fs
  {
    if |fs| == 1 {
      SplitNone(fs[0], sep);
    } else {
      SplitJoin(fs[1..], sep);
      SplitCons(fs[0], sep, Join(fs[1..], sep));
      assert [fs[0]] + fs[1..] == fs;
    }
  }

  predicate IsDigit(c: char) {
    '0' <= c <= '9'
  }

  predicate AllDigits(s: string) {
    forall i :: 0 <= i < |s| ==> IsDigit(s[i])
  }

  function DigitChar(d: nat): (c: char)
    requires d < 10
    ensures IsDigit(c) && c as int - '0' as int == d
  {
    ('0' as int + d) as char
  }

  /** The decimal numeral of `n`, without sign or leading zeros. */
  function Digits(n: nat): (s: string)
    ensures |s| >= 1 && AllDigits(s)
  {
    if n < 10 then [DigitChar(n)] else Digits(n / 10) + [DigitChar(n % 10)]
  }

  /** The number a string of decimal digits denotes. */
  function Value(s: string): nat
    requires AllDigits(s)
  {
    if |s| == 0 then 0 else Value(s[..|s| - 1]) * 10 + (s[|s| - 1] as int - '0' as int)
  }

  /** Reads a decimal numeral; anything that is not one or more digits is rejected. */
  function ParseNat(s: string): (r: Option<nat>)
    ensures r.Some? <==> |s| >= 1 && AllDigits(s)
  {
    if |s| >= 1 && AllDigits(s) then Some(Value(s)) else None
  }

  lemma {:induction false} ValueDigits(n: nat)
    ensures Value(Digits(n)) == n
  {
    if n >= 10 {
      var s := Digits(n);
      assert s[..|s| - 1] == Digits(n / 10);
      ValueDigits(n / 10);
    }
  }

  /** Reading back a numeral gives the number written. */
  lemma ParseDigits(n: nat)
    ensures ParseNat(Digits(n)) == Some(n)
  {
    ValueDigits(n);
  }

  /** The characters the token serialisation uses as separators or as the escape mark. */
  predicate Reserved(c: char) {
    c == '%' || c == '.' || c == ',' || c == ' '
  }

  function EscapeChar(c: char): string {
    if c == '%' then "%p"
    else if c == '.' then "%d"
    else if c == ',' then "%c"
    else if c == ' ' then "%s"
    else [c]
  }

  function UnescapeMark(c: char): char {
    if c == 'd' then '.' else if c == 'c' then ',' else if c == 's' then ' ' else '%'
  }

  /** `s` with every reserved character written as a two-character escape. */
  function Escape(s: string): (r: string)
    ensures '.' !in r && ',' !in r && ' ' !in r
  {
    if |s| == 0 then "" else EscapeChar(s[0]) + Escape(s[1..])
  }

  /** Reads escapes back; any string is accepted. */
  function Unescape(s: string): string {
    if |s| == 0 then ""
    else if s[0] == '%' && |s| >= 2 then [UnescapeMark(s[1])] + Unescape(s[2..])
    else [s[0]] + Unescape(s[1..])
  }

  lemma UnescapeEscapeChar(c: char, t: string)
    ensures Unescape(EscapeChar(c) + t) == [c] + Unescape(t)
  {
    var s := EscapeChar(c) + t;
    if Reserved(c) {
      assert s[2..] == t;
    } else {
      assert s[1..] == t;
    }
  }

  /** Escaping loses nothing. */
  lemma {:induction false} UnescapeEscape(s: string)
    ensures Unescape(Escape(s)) == s
  {
    if |s| > 0 {
      UnescapeEscapeChar(s[0], Escape(s[1..]));
      UnescapeEscape(s[1..]);
      assert [s[0]] + s[1..] == s;
    }
  }

  /** Escaping is one-to-one. */
  lemma EscapeInjective(a: string, b: string)
    requires Escape(a) == Escape(b)
    ensures a == b
  {
    UnescapeEscape(a);
    UnescapeEscape(b);
  }
}
