/** The handful of Python `str` operations the conversation engine relies on:
    `isspace`, `strip`, `split()`, `"sep".join`, `lower`, `in` / `find`,
    `str(int)` and `int(str)`. */
module Text {
  import opened Wrappers

  /** Python's `str.isspace()` for one character (Unicode white space plus
      the information separators U+001C..U+001F that Python also counts). */
  predicate IsSpace(c: char) {
    || c == ' '
    || ('\t' <= c <= '\r')
    || ('\U{1c}' <= c <= '\U{1f}')
    || c == '\U{85}' || c == '\U{a0}' || c == '\U{1680}'
    || ('\U{2000}' <= c <= '\U{200a}')
    || c == '\U{2028}' || c == '\U{2029}' || c == '\U{202f}' || c == '\U{205f}' || c == '\U{3000}'
  }

  predicate NoSpace(s: string) {
    forall i :: 0 <= i < |s| ==> !IsSpace(s[i])
  }

  /** Number of whitespace characters at the start of `s`. */
  function LeadingSpaces(s: string): (n: nat)
    ensures n <= |s|
    ensures forall i :: 0 <= i < n ==> IsSpace(s[i])
    ensures n < |s| ==> !IsSpace(s[n])
  {
    if s != [] && IsSpace(s[0]) then 1 + LeadingSpaces(s[1..]) else 0
  }

  /** Length of `s` once its trailing whitespace is cut off. */
  function KeptLength(s: string): (n: nat)
    ensures n <= |s|
    ensures forall i :: n <= i < |s| ==> IsSpace(s[i])
    ensures n > 0 ==> !IsSpace(s[n - 1])
  {
    if s != [] && IsSpace(s[|s| - 1]) then KeptLength(s[..|s| - 1]) else |s|
  }

  /** `s.strip()`: `s` without its leading and trailing whitespace. */
  function Strip(s: string): (r: string)
    ensures LeadingSpaces(s) + |r| <= |s|
    ensures r == s[LeadingSpaces(s)..LeadingSpaces(s) + |r|]
    ensures forall k :: LeadingSpaces(s) + |r| <= k < |s| ==> IsSpace(s[k])
    ensures r == [] || (!IsSpace(r[0]) && !IsSpace(r[|r| - 1]))
  {
    var t := s[LeadingSpaces(s)..];
    t[..KeptLength(t)]
  }

  lemma StripSpaceFree(s: string)
    requires s == [] || (!IsSpace(s[0]) && !IsSpace(s[|s| - 1]))
    ensures Strip(s) == s
  {
    if s != [] {
      assert LeadingSpaces(s) == 0;
      assert KeptLength(s) == |s|;
    }
  }

  /** Index of the first whitespace character of `s`, or `|s|`. */
  function WordEnd(s: string): (n: nat)
    ensures n <= |s|
    ensures forall i :: 0 <= i < n ==> !IsSpace(s[i])
    ensures n < |s| ==> IsSpace(s[n])
  {
    if s == [] || IsSpace(s[0]) then 0 else 1 + WordEnd(s[1..])
  }

  /** `s.split()` with no separator: the maximal runs of non-whitespace. */
  function Words(s: string): (ws: seq<string>)
    ensures forall i :: 0 <= i < |ws| ==> ws[i] != [] && NoSpace(ws[i])
    decreases |s|
  {
    var t := s[LeadingSpaces(s)..];
    if t == [] then []
    else
      var n := WordEnd(t);
      assert t[0] == s[LeadingSpaces(s)] && n > 0;
      var w := t[..n];
      assert NoSpace(w);
      [w] + Words(t[n..])
  }

  /** `sep.join(ws)`. */
  function JoinWith(ws: seq<string>, sep: string): string {
    if ws == [] then ""
    else if |ws| == 1 then ws[0]
    else ws[0] + sep + JoinWith(ws[1..], sep)
  }

  /** Joining `split()` words with single spaces leaves nothing for `strip()`
      to remove, and the result is empty only when there were no words. */
  lemma {:induction false} JoinedWordsStripped(ws: seq<string>)
    requires forall i :: 0 <= i < |ws| ==> ws[i] != [] && NoSpace(ws[i])
    ensures var j := JoinWith(ws, " ");
      Strip(j) == j && (j == "" <==> ws == [])
  {
    JoinedWordsEnds(ws);
    StripSpaceFree(JoinWith(ws, " "));
  }

  lemma {:induction false} JoinedWordsEnds(ws: seq<string>)
    requires forall i :: 0 <= i < |ws| ==> ws[i] != [] && NoSpace(ws[i])
    ensures var j := JoinWith(ws, " ");
      (j == "" <==> ws == []) && (j != "" ==> !IsSpace(j[0]) && !IsSpace(j[|j| - 1]))
  {
    if |ws| > 1 {
      JoinedWordsEnds(ws[1..]);
      var rest := JoinWith(ws[1..], " ");
      assert JoinWith(ws, " ") == ws[0] + " " + rest;
    }
  }

  /** Leading whitespace does not change the words. */
  lemma WordsSkipSpaces(s: string)
    ensures Words(s) == Words(s[LeadingSpaces(s)..])
  {
    var t := s[LeadingSpaces(s)..];
    assert t != [] ==> t[0] == s[LeadingSpaces(s)];
    assert LeadingSpaces(t) == 0;
    assert t[LeadingSpaces(t)..] == t;
  }

  /** A word followed by nothing or by whitespace is the first word. */
  lemma FirstWord(w: string, tail: string)
    requires w != [] && NoSpace(w)
    requires tail == [] || IsSpace(tail[0])
    ensures Words(w + tail) == [w] + Words(tail)
  {
    var j := w + tail;
    assert j[0] == w[0];
    assert LeadingSpaces(j) == 0;
    assert j[LeadingSpaces(j)..] == j;
    var n := WordEnd(j);
    assert forall i :: 0 <= i < |w| ==> j[i] == w[i];
    assert |w| < |j| ==> j[|w|] == tail[0];
    assert n == |w|;
    assert j[..n] == w && j[n..] == tail;
  }

  /** A word, one space and text that starts with a word: the word comes
      first, then the words of that text. */
  lemma WordThenSpace(w: string, rest: string)
    requires w != [] && NoSpace(w)
    requires rest != [] && !IsSpace(rest[0])
    ensures Words(w + " " + rest) == [w] + Words(rest)
  {
    var tail := " " + rest;
    assert w + " " + rest == w + tail;
    FirstWord(w, tail);
    assert tail[1..] == rest;
    assert LeadingSpaces(rest) == 0;
    assert LeadingSpaces(tail) == 1;
    WordsSkipSpaces(tail);
  }

  /** `split()` undoes a single-space join: the words come back one for one. */
  lemma {:induction false} WordsOfJoin(ws: seq<string>)
    requires forall i :: 0 <= i < |ws| ==> ws[i] != [] && NoSpace(ws[i])
    ensures Words(JoinWith(ws, " ")) == ws
    decreases |ws|
  {
    if |ws| == 1 {
      assert JoinWith(ws, " ") == ws[0] + "";
      FirstWord(ws[0], "");
    } else if |ws| > 1 {
      var rest := JoinWith(ws[1..], " ");
      WordsOfJoin(ws[1..]);
      JoinedWordsEnds(ws[1..]);
      WordThenSpace(ws[0], rest);
      assert JoinWith(ws, " ") == ws[0] + " " + rest;
      assert ws == [ws[0]] + ws[1..];
    }
  }

  /** Index of the first `c` in `s`, or `|s|`. */
  function IndexOf(s: string, c: char): (n: nat)
    ensures n <= |s|
    ensures forall i :: 0 <= i < n ==> s[i] != c
    ensures n < |s| ==> s[n] == c
  {
    if s == [] || s[0] == c then 0 else 1 + IndexOf(s[1..], c)
  }

  /** `s.split(c)` for a one-character separator. */
  function SplitOn(s: string, c: char): (parts: seq<string>)
    ensures |parts| >= 1
    ensures forall i :: 0 <= i < |parts| ==> c !in parts[i]
    decreases |s|
  {
    var n := IndexOf(s, c);
    if n == |s| then [s] else [s[..n]] + SplitOn(s[n + 1..], c)
  }

  /** Splitting what `JoinWith` glued together gives the pieces back, provided
      no piece contains the separator. */
  lemma {:induction false} SplitJoin(ws: seq<string>, c: char)
    requires ws != []
    requires forall i :: 0 <= i < |ws| ==> c !in ws[i]
    ensures SplitOn(JoinWith(ws, [c]), c) == ws
  {
    var w := ws[0];
    if |ws| == 1 {
      assert IndexOf(w, c) == |w|;
    } else {
      var rest := JoinWith(ws[1..], [c]);
      var s := w + [c] + rest;
      assert s == JoinWith(ws, [c]);
      IndexOfPrefix(w, c, rest);
      assert s[..|w|] == w;
      assert s[|w| + 1..] == rest;
      SplitJoin(ws[1..], c);
      calc {
        SplitOn(s, c);
        [s[..|w|]] + SplitOn(s[|w| + 1..], c);
        [w] + ws[1..];
        ws;
      }
    }
  }

  lemma IndexOfPrefix(w: string, c: char, rest: string)
    requires c !in w
    ensures IndexOf(w + [c] + rest, c) == |w|
  {
    var s := w + [c] + rest;
    var n := IndexOf(s, c);
    assert s[|w|] == c;
  }

  /** ASCII case folding: Python's `str.lower()` restricted to A..Z. */
  function LowerChar(c: char): char {
    if 'A' <= c <= 'Z' then (c as int + 32) as char else c
  }

  function Lower(s: string): (r: string)
    ensures |r| == |s|
  {
    seq(|s|, i requires 0 <= i < |s| => LowerChar(s[i]))
  }

  function UpperChar(c: char): char {
    if 'a' <= c <= 'z' then (c as int - 32) as char else c
  }

  /** `s.capitalize()` on ASCII text: first letter upper case, the rest lower. */
  function Capitalize(s: string): (r: string)
    ensures |r| == |s|
  {
    if s == [] then [] else [UpperChar(s[0])] + Lower(s[1..])
  }

  /** `s.endswith(suffix)`. */
  predicate EndsWith(s: string, suffix: string) {
    |suffix| <= |s| && s[|s| - |suffix|..] == suffix
  }

  /** `p` occurs in `s` starting at index `i`. */
  predicate OccursAt(s: string, p: string, i: int) {
    0 <= i && i + |p| <= |s| && s[i..i + |p|] == p
  }

  /** Python's `s.find(p)`: the first index at which `p` occurs in `s`, or -1. */
  function Find(s: string, p: string): (r: int)
    ensures r == -1 || OccursAt(s, p, r)
    ensures forall i :: 0 <= i && (r == -1 || i < r) ==> !OccursAt(s, p, i)
    decreases |s|
  {
    if |s| < |p| then -1
    else if s[..|p|] == p then 0
    else
      var k := Find(s[1..], p);
      assert forall i :: 1 <= i ==> (OccursAt(s, p, i) <==> OccursAt(s[1..], p, i - 1));
      if k == -1 then -1 else k + 1
  }

  /** Python's `p in s` for strings. */
  predicate Contains(s: string, p: string) {
    Find(s, p) >= 0
  }

  lemma ContainsAt(s: string, p: string, i: nat)
    requires OccursAt(s, p, i)
    ensures Contains(s, p)
  {
  }

  /** A string lacking one of `p`'s characters cannot contain `p`. */
  lemma MissingCharNotContained(s: string, p: string, j: nat)
    requires j < |p| && p[j] !in s
    ensures !Contains(s, p)
  {
  }

  /** `p.upper()`-style occurrences are found by a `.lower()` search. */
  lemma LowerContains(s: string, p: string, i: nat)
    requires i + |p| <= |s| && Lower(s[i..i + |p|]) == Lower(p)
    ensures Contains(Lower(s), Lower(p))
  {
    assert Lower(s)[i..i + |p|] == Lower(s[i..i + |p|]);
    assert OccursAt(Lower(s), Lower(p), i);
    ContainsAt(Lower(s), Lower(p), i);
  }

  predicate IsDigit(c: char) {
    '0' <= c <= '9'
  }

  predicate AllDigits(s: string) {
    forall i :: 0 <= i < |s| ==> IsDigit(s[i])
  }

  function DigitChar(d: nat): (c: char)
    requires d < 10
  {
    ('0' as int + d) as char
  }

  /** `str(n)` for a natural number. */
  function Decimal(n: nat): (s: string)
    ensures |s| >= 1 && AllDigits(s)
  {
    if n < 10 then [DigitChar(n)] else Decimal(n / 10) + [DigitChar(n % 10)]
  }

  /** `str(i)` for any integer. */
  function IntText(i: int): (s: string)
    ensures ':' !in s
  {
    if i < 0 then "-" + Decimal(-i) else Decimal(i)
  }

  /** The value of a string of decimal digits. */
  function DigitsValue(s: string): nat
    requires AllDigits(s)
  {
    if s == [] then 0 else DigitsValue(s[..|s| - 1]) * 10 + (s[|s| - 1] as int - '0' as int)
  }

  /** Python's `int(s)` on a word (no surrounding whitespace): an optional
      sign followed by ASCII digits; anything else raises `ValueError`. */
  function ParseInt(s: string): Option<int> {
    if |s| >= 2 && (s[0] == '-' || s[0] == '+') && AllDigits(s[1..]) then
      var v: int := DigitsValue(s[1..]);
      Some(if s[0] == '-' then -v else v)
    else if |s| >= 1 && AllDigits(s) then Some(DigitsValue(s))
    else None
  }

  lemma {:induction false} DecimalValue(n: nat)
    ensures DigitsValue(Decimal(n)) == n
  {
    if n >= 10 {
      var s := Decimal(n);
      assert s[..|s| - 1] == Decimal(n / 10);
      DecimalValue(n / 10);
    }
  }

  /** `int(str(i)) == i`. */
  lemma ParseIntText(i: int)
    ensures ParseInt(IntText(i)) == Some(i)
  {
    if i < 0 {
      var d := Decimal(-i);
      var t := "-" + d;
      assert t == IntText(i);
      assert t[1..] == d && t[0] == '-';
      DecimalValue(-i);
      var v: int := DigitsValue(d);
      assert ParseInt(t) == Some(-v);
    } else {
      var d := Decimal(i);
      assert d == IntText(i);
      assert IsDigit(d[0]);
      DecimalValue(i);
      assert ParseInt(d) == Some(DigitsValue(d));
    }
  }

  /** `str` is injective on integers. */
  lemma IntTextInjective(i: int, j: int)
    requires IntText(i) == IntText(j)
    ensures i == j
  {
    ParseIntText(i);
    ParseIntText(j);
  }

  /** `str` is injective on naturals and never yields a non-digit. */
  lemma DecimalInjective(m: nat, n: nat)
    requires Decimal(m) == Decimal(n)
    ensures m == n
  {
    DecimalValue(m);
    DecimalValue(n);
  }

  /** The quote Python's `repr` puts around `s`: a double quote when `s`
      holds a single quote and no double quote, a single quote otherwise. */
  function ReprQuote(s: string): char {
    if '\'' in s && '"' !in s then '"' else '\''
  }

  predicate IsHex(c: char) {
    ('0' <= c <= '9') || ('a' <= c <= 'f')
  }

  function HexValue(c: char): (n: nat)
    requires IsHex(c)
    ensures n < 16
  {
    if c <= '9' then c as int - '0' as int else c as int - 'a' as int + 10
  }

  /** A lower-case hexadecimal digit, as `repr` writes them. */
  function HexDigit(n: nat): (c: char)
    requires n < 16
    ensures IsHex(c) && HexValue(c) == n
  {
    if n < 10 then ('0' as int + n) as char else ('a' as int + n - 10) as char
  }

  /** The characters below U+0100 that Python does not count as printable,
      other than tab, newline and carriage return: the remaining C0
      controls, DEL, the C1 controls, U+00A0 and the soft hyphen U+00AD. */
  predicate HexEscaped(c: char) {
    c < ' ' || ('\U{7f}' <= c <= '\U{a0}') || c == '\U{ad}'
  }

  /** How `repr` writes one character between the quotes `q`. */
  function ReprChar(c: char, q: char): string {
    if c == q || c == '\\' then ['\\', c]
    else if c == '\t' then ['\\', 't']
    else if c == '\n' then ['\\', 'n']
    else if c == '\r' then ['\\', 'r']
    else if HexEscaped(c) then ['\\', 'x', HexDigit(c as int / 16), HexDigit(c as int % 16)]
    else [c]
  }

  function ReprBody(s: string, q: char): string {
    if s == [] then [] else ReprChar(s[0], q) + ReprBody(s[1..], q)
  }

  /** Python's `repr(s)` for a string: the escaped characters between the
      chosen quotes. */
  function Repr(s: string): (r: string)
    ensures |r| >= 2 && r[0] == ReprQuote(s) && r[|r| - 1] == ReprQuote(s)
  {
    [ReprQuote(s)] + ReprBody(s, ReprQuote(s)) + [ReprQuote(s)]
  }

  function Unescaped(c: char): char {
    if c == 't' then '\t' else if c == 'n' then '\n' else if c == 'r' then '\r' else c
  }

  /** Reads a string literal's body back: `\x` with two hexadecimal digits,
      a backslash before `t`, `n` or `r`, or a backslash before any other
      character, which stands for that character. */
  function Unescape(t: string): string
    decreases |t|
  {
    if t == [] then []
    else if |t| >= 4 && t[0] == '\\' && t[1] == 'x' && IsHex(t[2]) && IsHex(t[3]) then
      [(16 * HexValue(t[2]) + HexValue(t[3])) as char] + Unescape(t[4..])
    else if |t| >= 2 && t[0] == '\\' then [Unescaped(t[1])] + Unescape(t[2..])
    else [t[0]] + Unescape(t[1..])
  }

  lemma UnescapeChar(c: char, q: char, rest: string)
    requires q == '\'' || q == '"'
    ensures Unescape(ReprChar(c, q) + rest) == [c] + Unescape(rest)
  {
    var t := ReprChar(c, q) + rest;
    if !(c == q || c == '\\' || c == '\t' || c == '\n' || c == '\r') && HexEscaped(c) {
      var hi, lo := c as int / 16, c as int % 16;
      assert t[..4] == ['\\', 'x', HexDigit(hi), HexDigit(lo)] && t[4..] == rest;
      assert (16 * hi + lo) as char == c;
    } else if c == q || c == '\\' || c == '\t' || c == '\n' || c == '\r' {
      assert t[2..] == rest;
    } else {
      assert t[1..] == rest;
    }
  }

  /** Reading back what `repr` wrote between the quotes gives the string. */
  lemma {:induction false} UnescapeReprBody(s: string, q: char)
    requires q == '\'' || q == '"'
    ensures Unescape(ReprBody(s, q)) == s
  {
    if s != [] {
      UnescapeChar(s[0], q, ReprBody(s[1..], q));
      UnescapeReprBody(s[1..], q);
    }
  }

  /** `repr` loses nothing: its text between the quotes reads back as `s`. */
  lemma ReprRoundTrip(s: string)
    ensures var r := Repr(s); Unescape(r[1..|r| - 1]) == s
  {
    var r := Repr(s);
    assert r[1..|r| - 1] == ReprBody(s, ReprQuote(s));
    UnescapeReprBody(s, ReprQuote(s));
  }

  /** Printable ASCII without quote or backslash is written as it is. */
  lemma {:induction false} ReprBodyPlain(s: string)
    requires forall i :: 0 <= i < |s| ==> ' ' <= s[i] <= '~' && s[i] != '\'' && s[i] != '\\'
    ensures ReprBody(s, '\'') == s
  {
    if s != [] {
      ReprBodyPlain(s[1..]);
    }
  }

  /** A word of printable ASCII without quote or backslash is shown between
      single quotes, unchanged. */
  lemma ReprPlain(s: string)
    requires forall i :: 0 <= i < |s| ==> ' ' <= s[i] <= '~' && s[i] != '\'' && s[i] != '\\'
    ensures Repr(s) == "'" + s + "'"
  {
    assert '\'' !in s;
    ReprBodyPlain(s);
  }
}
