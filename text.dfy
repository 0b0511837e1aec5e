/**
 * The string operations of Rust's standard library that the chat code relies
 * on: `join`, decimal formatting of integers, `trim`, splitting at a
 * character, ASCII lower-casing and left-aligned padding (`{:<10}`).
 */
module Text {
  import opened Wrappers

  // ---------------------------------------------------------------- join

  /** `parts.join(sep)`: the parts in order with `sep` between neighbours. */
  function Join(parts: seq<string>, sep: string): string
    decreases |parts|
  {
    if |parts| == 0 then ""
    else if |parts| == 1 then parts[0]
    else parts[0] + sep + Join(parts[1..], sep)
  }

  /** Joining a concatenation is joining each half and putting one separator between them. */
  lemma {:induction false} JoinAppend(a: seq<string>, b: seq<string>, sep: string)
    requires |a| > 0 && |b| > 0
    ensures Join(a + b, sep) == Join(a, sep) + sep + Join(b, sep)
    decreases |a|
  {
    if |a| == 1 {
      assert (a + b)[0] == a[0];
      assert (a + b)[1..] == b;
    } else {
      assert (a + b)[0] == a[0];
      assert (a + b)[1..] == a[1..] + b;
      JoinAppend(a[1..], b, sep);
    }
  }

  // ------------------------------------------------------------- decimal

  predicate IsDigit(c: char) { '0' <= c <= '9' }

  function DigitChar(d: nat): (c: char)
    requires d < 10
    ensures IsDigit(c) && c as int - '0' as int == d
  {
    ('0' as int + d) as char
  }

  /** `format!("{}", n)` for an unsigned integer: its decimal digits, most significant first. */
  function NatToString(n: nat): (s: string)
    ensures |s| > 0
    ensures forall i :: 0 <= i < |s| ==> IsDigit(s[i])
    ensures n < 10 <==> |s| == 1
    decreases n
  {
    if n < 10 then [DigitChar(n)] else NatToString(n / 10) + [DigitChar(n % 10)]
  }

  /** The value of a string of decimal digits (the reference reading of `NatToString`). */
  function ParseDecimal(s: string): nat
    requires forall i :: 0 <= i < |s| ==> IsDigit(s[i])
    decreases |s|
  {
    if |s| == 0 then 0
    else
      assert IsDigit(s[|s| - 1]);
      10 * ParseDecimal(s[..|s| - 1]) + (s[|s| - 1] as int - '0' as int)
  }

  /** Decimal formatting loses nothing: reading the digits back gives the number. */
  lemma {:induction false} DecimalRoundTrip(n: nat)
    ensures ParseDecimal(NatToString(n)) == n
    decreases n
  {
    if n >= 10 {
      var s := NatToString(n);
      assert s[..|s| - 1] == NatToString(n / 10);
      DecimalRoundTrip(n / 10);
    }
  }

  /** Hence two different numbers never print the same. */
  lemma DecimalInjective(m: nat, n: nat)
    requires NatToString(m) == NatToString(n)
    ensures m == n
  {
    DecimalRoundTrip(m);
    DecimalRoundTrip(n);
  }

  // ---------------------------------------------------------------- trim

  /** `char::is_whitespace`: the Unicode White_Space property. */
  predicate IsWhitespace(c: char)
  {
    ('\t' <= c <= '\r') || c == ' ' || c == '\U{85}' || c == '\U{A0}' || c == '\U{1680}'
    || ('\U{2000}' <= c <= '\U{200A}') || c == '\U{2028}' || c == '\U{2029}'
    || c == '\U{202F}' || c == '\U{205F}' || c == '\U{3000}'
  }

  predicate AllWhitespace(s: string)
  {
    forall i {:trigger IsWhitespace(s[i])} :: 0 <= i < |s| ==> IsWhitespace(s[i])
  }

  /** `str::trim_start`: the suffix after the leading whitespace. */
  function TrimStart(s: string): (r: string)
    ensures |r| <= |s| && r == s[|s| - |r|..]
    ensures AllWhitespace(s[..|s| - |r|])
    ensures r == [] || !IsWhitespace(r[0])
    decreases |s|
  {
    if |s| > 0 && IsWhitespace(s[0]) then
      var r := TrimStart(s[1..]);
      assert s[..|s| - |r|] == [s[0]] + s[1..][..|s| - 1 - |r|];
      r
    else s
  }

  /** `str::trim_end`: the prefix before the trailing whitespace. */
  function TrimEnd(s: string): (r: string)
    ensures |r| <= |s| && r == s[..|r|]
    ensures AllWhitespace(s[|r|..])
    ensures r == [] || !IsWhitespace(r[|r| - 1])
    decreases |s|
  {
    if |s| > 0 && IsWhitespace(s[|s| - 1]) then
      var r := TrimEnd(s[..|s| - 1]);
      assert s[|r|..] == s[..|s| - 1][|r|..] + [s[|s| - 1]];
      r
    else s
  }

  /** `str::trim`: the text between the leading and the trailing whitespace. */
  function Trim(s: string): (r: string)
    ensures r == [] <==> AllWhitespace(s)
    ensures r != [] ==> !IsWhitespace(r[0]) && !IsWhitespace(r[|r| - 1])
    ensures |r| <= |s|
    ensures exists i, j :: 0 <= i <= j <= |s| && r == s[i..j] && AllWhitespace(s[..i]) && AllWhitespace(s[j..])
  {
    var front := TrimStart(s);
    var r := TrimEnd(front);
    TrimParts(s, front, r);
    TrimInfix(s, front, r);
    r
  }

  /** The trimmed text sits in `s` between a whitespace prefix and a whitespace suffix. */
  lemma TrimInfix(s: string, front: string, r: string)
    requires |front| <= |s| && front == s[|s| - |front|..] && AllWhitespace(s[..|s| - |front|])
    requires |r| <= |front| && r == front[..|r|] && AllWhitespace(front[|r|..])
    ensures exists i, j :: 0 <= i <= j <= |s| && r == s[i..j] && AllWhitespace(s[..i]) && AllWhitespace(s[j..])
  {
    var i := |s| - |front|;
    var j := i + |r|;
    SuffixOfSuffix(s, i, |r|);
    assert r == s[i..j] && AllWhitespace(s[..i]) && AllWhitespace(s[j..]);
  }

  /** Slicing a suffix of `s` is slicing `s` further along. */
  lemma SuffixOfSuffix(s: string, i: nat, n: nat)
    requires i + n <= |s|
    ensures s[i..][..n] == s[i..i + n] && s[i..][n..] == s[i + n..]
  {
  }

  lemma TrimParts(s: string, front: string, r: string)
    requires front == TrimStart(s) && r == TrimEnd(front)
    ensures r == [] <==> AllWhitespace(s)
    ensures r != [] ==> !IsWhitespace(r[0])
  {
    TrimStartEmpty(s);
    TrimEndEmpty(front);
    if r != [] {
      assert r[0] == front[0];
    }
  }

  lemma TrimStartEmpty(s: string)
    ensures TrimStart(s) == [] <==> AllWhitespace(s)
  {
    var r := TrimStart(s);
    assert s[..|s|] == s;
    if r != [] {
      assert r[0] == s[|s| - |r|];
    }
  }

  lemma TrimEndEmpty(s: string)
    ensures TrimEnd(s) == [] <==> AllWhitespace(s)
  {
    var r := TrimEnd(s);
    assert s[0..] == s;
    if r != [] {
      assert r[|r| - 1] == s[|r| - 1];
    }
  }

  // --------------------------------------------------------------- split

  /** `s.split(sep).next().unwrap()`: the text before the first `sep`, all of `s` when there is none. */
  function Before(s: string, sep: char): (r: string)
    ensures |r| <= |s| && r == s[..|r|] && sep !in r
    ensures |r| < |s| ==> s[|r|] == sep
    decreases |s|
  {
    if |s| == 0 || s[0] == sep then "" else [s[0]] + Before(s[1..], sep)
  }

  /** The text after the first `sep`, when there is one. */
  function After(s: string, sep: char): (r: Option<string>)
    ensures r.None? <==> sep !in s
    ensures r.Some? ==> s == Before(s, sep) + [sep] + r.value
  {
    var head := Before(s, sep);
    if |head| == |s| then None else Some(s[|head| + 1..])
  }

  /** `iter.next().unwrap_or_default()` on a `splitn` iterator. */
  function OrEmpty(o: Option<string>): string
  {
    if o.Some? then o.value else ""
  }

  /** Splitting at the first separator and putting the pieces back together gives the text again. */
  lemma {:induction false} SplitRejoin(head: string, sep: char, tail: string)
    requires sep !in head
    ensures Before(head + [sep] + tail, sep) == head
    ensures After(head + [sep] + tail, sep) == Some(tail)
    decreases |head|
  {
    var s := head + [sep] + tail;
    if head != [] {
      assert s[0] == head[0];
      assert s[1..] == head[1..] + [sep] + tail;
      SplitRejoin(head[1..], sep, tail);
    }
  }

  /** A text without the separator is its own head and has no tail. */
  lemma SplitNone(s: string, sep: char)
    requires sep !in s
    ensures Before(s, sep) == s && After(s, sep) == None
  {
  }

  // ---------------------------------------------------------- lower-case

  /** `char::to_ascii_lowercase`. */
  function LowerChar(c: char): (r: char)
    ensures 'A' <= c <= 'Z' ==> r as int == c as int + 32
    ensures !('A' <= c <= 'Z') ==> r == c
  {
    if 'A' <= c <= 'Z' then (c as int + 32) as char else c
  }

  /** Lower-casing, character by character (ASCII letters only). */
  function Lower(s: string): (r: string)
    ensures |r| == |s|
    ensures forall i :: 0 <= i < |s| ==> r[i] == LowerChar(s[i])
    decreases |s|
  {
    if |s| == 0 then "" else [LowerChar(s[0])] + Lower(s[1..])
  }

  // ----------------------------------------------------------------- pad

  function Spaces(n: nat): (r: string)
    ensures |r| == n && forall i :: 0 <= i < n ==> r[i] == ' '
  {
    if n == 0 then "" else " " + Spaces(n - 1)
  }

  /** `format!("{:<w}", s)`: `s` followed by spaces up to `w` characters. */
  function PadRight(s: string, w: nat): (r: string)
    ensures |r| == if |s| < w then w else |s|
    ensures r[..|s|] == s
    ensures forall i :: |s| <= i < |r| ==> r[i] == ' '
  {
    if |s| < w then s + Spaces(w - |s|) else s
  }
}
