/**
 * The few string and list primitives of Python and JavaScript that the readers and
 * the viewer rely on: `str.split()`, `str.split(sep)`, `int(str)`, `startswith`,
 * `endswith`, lower-casing, and Python's negative list indexing.
 */
module Text {
  import opened Wrappers

  /** The characters for which Python's `str.isspace()` holds (what `str.split()` splits on). */
  predicate IsPyWhitespace(c: char) {
    var n := c as int;
    n == 0x20 || 0x09 <= n <= 0x0D || 0x1C <= n <= 0x1F || n == 0x85 || n == 0xA0 ||
    n == 0x1680 || 0x2000 <= n <= 0x200A || n == 0x2028 || n == 0x2029 || n == 0x202F ||
    n == 0x205F || n == 0x3000
  }

  /** Python `s.split()`: maximal runs of non-whitespace, in order; never an empty word. */
  function Words(s: string): (words: seq<string>)
    ensures forall k :: 0 <= k < |words| ==> words[k] != []
  {
    WordsFrom(s, [])
  }

  function WordsFrom(s: string, current: string): (words: seq<string>)
    ensures forall k :: 0 <= k < |words| ==> words[k] != []
    decreases |s|
  {
    if s == [] then
      (if current == [] then [] else [current])
    else if IsPyWhitespace(s[0]) then
      (if current == [] then [] else [current]) + WordsFrom(s[1..], [])
    else
      WordsFrom(s[1..], current + [s[0]])
  }

  /** Words joined by single spaces, as a line of a text file writes them. */
  function JoinWords(ws: seq<string>): string {
    if ws == [] then []
    else if |ws| == 1 then ws[0]
    else ws[0] + " " + JoinWords(ws[1..])
  }

  predicate IsWord(w: string) {
    w != [] && forall k :: 0 <= k < |w| ==> !IsPyWhitespace(w[k])
  }

  /** `str.split()` gives back the words a line was joined from. */
  lemma {:induction false} WordsOfJoin(ws: seq<string>)
    requires forall k :: 0 <= k < |ws| ==> IsWord(ws[k])
    ensures Words(JoinWords(ws)) == ws
  {
    if |ws| == 1 {
      WordsFromWord(ws[0], [], []);
      assert ws[0] + [] == ws[0] && [] + ws[0] == ws[0];
    } else if |ws| > 1 {
      var rest := JoinWords(ws[1..]);
      assert ws[0] + " " + rest == ws[0] + ([' '] + rest);
      WordsFromWord(ws[0], [' '] + rest, []);
      assert [] + ws[0] == ws[0];
      assert ([' '] + rest)[1..] == rest;
      WordsOfJoin(ws[1..]);
      assert ws == [ws[0]] + ws[1..];
    }
  }

  /** The characters of a word only extend the word being read. */
  lemma {:induction false} WordsFromWord(w: string, rest: string, current: string)
    requires forall k :: 0 <= k < |w| ==> !IsPyWhitespace(w[k])
    ensures WordsFrom(w + rest, current) == WordsFrom(rest, current + w)
    decreases |w|
  {
    if w == [] {
      assert w + rest == rest && current + w == current;
    } else {
      assert (w + rest)[0] == w[0] && (w + rest)[1..] == w[1..] + rest;
      WordsFromWord(w[1..], rest, current + [w[0]]);
      assert current + [w[0]] + w[1..] == current + w;
    }
  }

  /** Python `s.split(sep)` for a one-character separator: empty fields are kept. */
  function SplitOn(s: string, sep: char): (fields: seq<string>)
    ensures |fields| >= 1
  {
    SplitFrom(s, sep, [])
  }

  function SplitFrom(s: string, sep: char, current: string): (fields: seq<string>)
    ensures |fields| >= 1
    decreases |s|
  {
    if s == [] then [current]
    else if s[0] == sep then [current] + SplitFrom(s[1..], sep, [])
    else SplitFrom(s[1..], sep, current + [s[0]])
  }

  /** A string without the separator is a single field. */
  lemma {:induction false} SplitWhole(s: string, sep: char, current: string)
    requires sep !in s
    ensures SplitFrom(s, sep, current) == [current + s]
    decreases |s|
  {
    if s == [] {
      assert current + s == current;
    } else {
      assert s[0] in s;
      SplitWhole(s[1..], sep, current + [s[0]]);
      assert current + [s[0]] + s[1..] == current + s;
    }
  }

  /** A field without the separator, then the separator: it becomes the first field. */
  lemma {:induction false} SplitAfter(a: string, sep: char, b: string, current: string)
    requires sep !in a
    ensures SplitFrom(a + [sep] + b, sep, current) == [current + a] + SplitFrom(b, sep, [])
    decreases |a|
  {
    if a == [] {
      assert a + [sep] + b == [sep] + b;
      assert ([sep] + b)[1..] == b;
      assert current + a == current;
    } else {
      assert a[0] in a;
      assert (a + [sep] + b)[1..] == a[1..] + [sep] + b;
      SplitAfter(a[1..], sep, b, current + [a[0]]);
      assert current + [a[0]] + a[1..] == current + a;
    }
  }

  predicate IsDigit(c: char) {
    '0' <= c <= '9'
  }

  /** The value of a string of decimal digits, most significant first. */
  function DigitsValue(ds: string): nat
    requires forall k :: 0 <= k < |ds| ==> IsDigit(ds[k])
  {
    if ds == [] then 0
    else 10 * DigitsValue(ds[..|ds| - 1]) + DigitValue(ds[|ds| - 1])
  }

  function DigitValue(c: char): nat
    requires IsDigit(c)
  {
    c as int - '0' as int
  }

  /** `int(s)` on an unsigned string: defined exactly when `s` is a non-empty run of digits. */
  function ParseNat(s: string): (r: Option<nat>)
    ensures r.Some? <==> s != [] && forall k :: 0 <= k < |s| ==> IsDigit(s[k])
  {
    if s != [] && forall k :: 0 <= k < |s| ==> IsDigit(s[k]) then Some(DigitsValue(s)) else None
  }

  /** Python `int(s)` for an optional sign followed by decimal digits; `None` is the `ValueError`. */
  function ParseInt(s: string): (r: Option<int>)
    ensures s == [] ==> r.None?
  {
    if s != [] && (s[0] == '+' || s[0] == '-') then
      match ParseNat(s[1..])
      case None => None
      case Some(n) => Some(if s[0] == '-' then -(n as int) else n)
    else
      match ParseNat(s)
      case None => None
      case Some(n) => Some(n)
  }

  /** Decimal rendering of a natural number, used to state what `int` reads back. */
  function Decimal(n: nat): (ds: string)
    ensures ds != [] && forall k :: 0 <= k < |ds| ==> IsDigit(ds[k])
  {
    if n < 10 then [('0' as int + n) as char]
    else Decimal(n / 10) + [('0' as int + n % 10) as char]
  }

  /** `int` reads back every decimal rendering. */
  lemma {:induction false} ParseDecimal(n: nat)
    ensures ParseInt(Decimal(n)) == Some(n)
  {
    DigitsOfDecimal(n);
  }

  lemma {:induction false} DigitsOfDecimal(n: nat)
    ensures DigitsValue(Decimal(n)) == n
  {
    var ds := Decimal(n);
    if n >= 10 {
      DigitsOfDecimal(n / 10);
      assert ds[..|ds| - 1] == Decimal(n / 10);
    }
  }

  predicate StartsWith(s: string, prefix: string) {
    |prefix| <= |s| && s[..|prefix|] == prefix
  }

  predicate EndsWith(s: string, suffix: string) {
    |suffix| <= |s| && s[|s| - |suffix|..] == suffix
  }

  function LowerChar(c: char): char {
    if 'A' <= c <= 'Z' then (c as int + 32) as char else c
  }

  /** Lower-casing as `str.lower()` / `String.prototype.toLowerCase()` do it on ASCII letters. */
  function Lower(s: string): (r: string)
    ensures |r| == |s| && forall k :: 0 <= k < |s| ==> r[k] == LowerChar(s[k])
  {
    seq(|s|, k requires 0 <= k < |s| => LowerChar(s[k]))
  }

  /** Python `xs[i]` on a list of length `len`: negative positions count from the end; `None` is the `IndexError`. */
  function PyIndex(len: nat, i: int): (r: Option<nat>)
    ensures r.Some? <==> -(len as int) <= i < len
    ensures r.Some? ==> r.value < len && (r.value == i || r.value == len + i)
  {
    if 0 <= i < len then Some(i)
    else if -(len as int) <= i < 0 then Some(len + i)
    else None
  }
}
