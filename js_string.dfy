/**
 * The JavaScript string built-ins the lyric engine and the import dialog rely on:
 * `String.prototype.trim`, `split(" ")`, `split("")` and `+` concatenation, on
 * strings taken as sequences of characters.
 */
module JsString {

  /** A character that `trim` removes: ECMAScript WhiteSpace or LineTerminator. */
  predicate IsWhitespace(c: char) {
    || c == '\t' || c == '\n' || c == '\U{000B}' || c == '\U{000C}' || c == '\r' || c == ' '
    || c == '\U{00A0}' || c == '\U{1680}' || ('\U{2000}' <= c <= '\U{200A}')
    || c == '\U{2028}' || c == '\U{2029}' || c == '\U{202F}' || c == '\U{205F}'
    || c == '\U{3000}' || c == '\U{FEFF}'
  }

  /** The string holds a character other than whitespace. */
  predicate HasContent(s: string) {
    exists i :: 0 <= i < |s| && !IsWhitespace(s[i])
  }

  /** Index of the first character at or after `i` that is not whitespace
      (`|s|` if there is none). */
  function ContentStart(s: string, i: nat): (k: nat)
    requires i <= |s|
    ensures i <= k <= |s|
    decreases |s| - i
  {
    if i == |s| || !IsWhitespace(s[i]) then i else ContentStart(s, i + 1)
  }

  /** One past the last character before `j` that is not whitespace (0 if
      there is none). */
  function ContentEnd(s: string, j: nat): (k: nat)
    requires j <= |s|
    ensures k <= j
  {
    if j == 0 || !IsWhitespace(s[j - 1]) then j else ContentEnd(s, j - 1)
  }

  /** `s.trim()`: drops whitespace at both ends. */
  function Trim(s: string): (r: string)
    ensures |r| <= |s|
  {
    var lo := ContentStart(s, 0);
    var hi := ContentEnd(s, |s|);
    if lo < hi then s[lo..hi] else ""
  }

  lemma {:induction false} ContentStartSkips(s: string, i: nat)
    requires i <= |s|
    ensures forall k :: i <= k < ContentStart(s, i) ==> IsWhitespace(s[k])
    ensures ContentStart(s, i) < |s| ==> !IsWhitespace(s[ContentStart(s, i)])
    decreases |s| - i
  {
    if i < |s| && IsWhitespace(s[i]) {
      ContentStartSkips(s, i + 1);
    }
  }

  lemma {:induction false} ContentEndSkips(s: string, j: nat)
    requires j <= |s|
    ensures forall k :: ContentEnd(s, j) <= k < j ==> IsWhitespace(s[k])
    ensures ContentEnd(s, j) > 0 ==> !IsWhitespace(s[ContentEnd(s, j) - 1])
  {
    if j > 0 && IsWhitespace(s[j - 1]) {
      ContentEndSkips(s, j - 1);
    }
  }

  /** What `trim` returns is the middle of its argument, cut only at whitespace,
      and starts and ends with a character that is not whitespace. */
  lemma TrimIsMiddle(s: string)
    ensures var lo := ContentStart(s, 0);
      && lo + |Trim(s)| <= |s|
      && Trim(s) == s[lo..lo + |Trim(s)|]
      && (forall k :: 0 <= k < lo ==> IsWhitespace(s[k]))
      && (forall k :: lo + |Trim(s)| <= k < |s| ==> IsWhitespace(s[k]))
    ensures Trim(s) == [] || (!IsWhitespace(Trim(s)[0]) && !IsWhitespace(Trim(s)[|Trim(s)| - 1]))
  {
    var lo := ContentStart(s, 0);
    var hi := ContentEnd(s, |s|);
    ContentStartSkips(s, 0);
    ContentEndSkips(s, |s|);
    if lo < |s| {
      assert !IsWhitespace(s[lo]);
      assert hi > lo;
    }
  }

  /** `trim` empties a string exactly when it is blank. */
  lemma TrimEmptyIffBlank(s: string)
    ensures Trim(s) == [] <==> !HasContent(s)
  {
    TrimIsMiddle(s);
    if Trim(s) != [] {
      assert !IsWhitespace(s[ContentStart(s, 0)]);
    }
  }

  /** A string that starts and ends with a character other than whitespace
      is left as it is by `trim`. */
  lemma TrimKeepsTrimmed(s: string)
    requires s != [] && !IsWhitespace(s[0]) && !IsWhitespace(s[|s| - 1])
    ensures Trim(s) == s
  {
    assert ContentStart(s, 0) == 0;
    assert ContentEnd(s, |s|) == |s|;
    assert s[0..|s|] == s;
  }

  /** Trimming twice is trimming once. */
  lemma TrimIdempotent(s: string)
    ensures Trim(Trim(s)) == Trim(s)
  {
    TrimIsMiddle(s);
    if Trim(s) != [] {
      TrimKeepsTrimmed(Trim(s));
    }
  }

  /** `a + b + …` over a list of strings, from the left. */
  function Concat(parts: seq<string>): string
  {
    if parts == [] then "" else Concat(parts[..|parts| - 1]) + parts[|parts| - 1]
  }

  lemma ConcatAppend(a: seq<string>, b: seq<string>)
    ensures Concat(a + b) == Concat(a) + Concat(b)
    decreases |b|
  {
    if b == [] {
      assert a + b == a;
    } else {
      assert (a + b)[..|a + b| - 1] == a + b[..|b| - 1];
      ConcatAppend(a, b[..|b| - 1]);
    }
  }

  lemma ConcatSnoc(parts: seq<string>, p: string)
    ensures Concat(parts + [p]) == Concat(parts) + p
  {
    assert (parts + [p])[..|parts|] == parts;
  }

  lemma ConcatSingle(p: string)
    ensures Concat([p]) == p
  {
    assert [p][..0] == [];
  }

  /** `parts.join(sep)` for a one-character separator. */
  function Join(parts: seq<string>, sep: char): string
  {
    if parts == [] then ""
    else if |parts| == 1 then parts[0]
    else parts[0] + [sep] + Join(parts[1..], sep)
  }

  /** `s.split(sep)` for a one-character separator: always at least one part, an
      empty part for each leading, trailing or doubled separator. */
  function Split(s: string, sep: char): (parts: seq<string>)
    ensures |parts| >= 1
    ensures forall i :: 0 <= i < |parts| ==> sep !in parts[i]
    ensures Join(parts, sep) == s
  {
    if s == [] then [""]
    else
      var rest := Split(s[1..], sep);
      if s[0] == sep then [""] + rest
      else
        assert Join([[s[0]] + rest[0]] + rest[1..], sep) == [s[0]] + Join(rest, sep);
        [[s[0]] + rest[0]] + rest[1..]
  }

  /** `s.split("")`: one string per character. */
  function Chars(s: string): (r: seq<string>)
    ensures |r| == |s|
    ensures forall i :: 0 <= i < |s| ==> r[i] == [s[i]]
  {
    seq(|s|, i requires 0 <= i < |s| => [s[i]])
  }

  /** Concatenating the characters gives the string back. */
  lemma {:induction false} ConcatChars(s: string)
    ensures Concat(Chars(s)) == s
  {
    if s != [] {
      var p := s[..|s| - 1];
      ConcatChars(p);
      assert Chars(s)[..|s| - 1] == Chars(p);
      assert s == p + [s[|s| - 1]];
    }
  }
}
