/**
 String helpers with the semantics of the Python `str` methods the services
 call: `isspace`, `strip`, `split()`, `split(sep)`, `startswith` and `lower`.
 Strings are sequences of Unicode scalar values, as Python's are of code points.
 */
module Text {

  import opened Wrappers

  /** Python's `str.isspace()` for one character: the ASCII whitespace and
      separator controls plus the Unicode space separators. */
  predicate IsSpace(c: char) {
    || ('\t' <= c <= '\r')
    || ('\U{1C}' <= c <= ' ')
    || c == '\U{85}' || c == '\U{A0}' || c == '\U{1680}'
    || ('\U{2000}' <= c <= '\U{200A}')
    || c == '\U{2028}' || c == '\U{2029}' || c == '\U{202F}' || c == '\U{205F}' || c == '\U{3000}'
  }

  /** Every character is whitespace; the empty string is blank. */
  predicate IsBlank(s: string) {
    forall i :: 0 <= i < |s| ==> IsSpace(s[i])
  }

  /** No character is whitespace. */
  predicate NoSpace(s: string) {
    forall i :: 0 <= i < |s| ==> !IsSpace(s[i])
  }

  lemma NoSpaceHasNoNewline(s: string)
    requires NoSpace(s)
    ensures '\n' !in s
  {
    assert forall k :: 0 <= k < |s| ==> s[k] != '\n';
  }

  /** Python truthiness of an optional string: present and non-empty. */
  predicate Truthy(o: Option<string>) {
    o.Some? && o.value != ""
  }

  predicate StartsWith(s: string, prefix: string) {
    |prefix| <= |s| && s[..|prefix|] == prefix
  }

  /** Drops the longest whitespace prefix. */
  function TrimStart(s: string): (r: string)
    ensures |r| <= |s| && r == s[|s| - |r|..]
    ensures r == [] || !IsSpace(r[0])
    ensures IsBlank(s[..|s| - |r|])
  {
    if |s| > 0 && IsSpace(s[0]) then TrimStart(s[1..]) else s
  }

  /** Drops the longest whitespace suffix. */
  function TrimEnd(s: string): (r: string)
    ensures |r| <= |s| && r == s[..|r|]
    ensures r == [] || !IsSpace(r[|r| - 1])
    ensures IsBlank(s[|r|..])
  {
    if |s| > 0 && IsSpace(s[|s| - 1]) then
      var init := s[..|s| - 1];
      var r := TrimEnd(init);
      assert s[..|r|] == init[..|r|];
      assert s[|r|..] == init[|r|..] + [s[|s| - 1]];
      r
    else s
  }

  /** Python's `str.strip()`: what remains between the longest blank prefix
      and the longest blank suffix. */
  function Strip(s: string): (r: string)
    ensures |r| <= |s|
    ensures r == [] <==> IsBlank(s)
    ensures r != [] ==> !IsSpace(r[0]) && !IsSpace(r[|r| - 1])
    ensures Padded(s, |s| - |TrimStart(s)|, r)
  {
    var t := TrimStart(s);
    var r := TrimEnd(t);
    ShapeBySlices(s, t, r);
    PaddedBySlices(s, t, r);
    r
  }

  /** `s` is `r` preceded by `k` whitespace characters and followed by
      whitespace only. */
  predicate Padded(s: string, k: nat, r: string) {
    k + |r| <= |s| && r == s[k..k + |r|] && IsBlank(s[..k]) && IsBlank(s[k + |r|..])
  }

  /** A blank-prefixed suffix `t` of `s`, cut to a blank-followed prefix `r`. */
  lemma PaddedBySlices(s: string, t: string, r: string)
    requires |t| <= |s| && t == s[|s| - |t|..] && IsBlank(s[..|s| - |t|])
    requires |r| <= |t| && r == t[..|r|] && IsBlank(t[|r|..])
    ensures Padded(s, |s| - |t|, r)
  {
    var k := |s| - |t|;
    assert s[k..k + |r|] == t[..|r|];
    assert s[k + |r|..] == t[|r|..];
  }

  /** What is left after dropping a blank prefix that stops at a non-space
      and a blank suffix that stops at a non-space is empty exactly for a
      blank string, and otherwise starts with a non-space. */
  lemma ShapeBySlices(s: string, t: string, r: string)
    requires |t| <= |s| && t == s[|s| - |t|..] && IsBlank(s[..|s| - |t|])
    requires t == [] || !IsSpace(t[0])
    requires |r| <= |t| && r == t[..|r|] && IsBlank(t[|r|..])
    requires r == [] || !IsSpace(r[|r| - 1])
    ensures (r == [] <==> IsBlank(s)) && (r != [] ==> !IsSpace(r[0]))
  {
    var k := |s| - |t|;
    if r == [] {
      // a non-empty t would start with a non-space yet be all whitespace
      assert t == [] by {
        assert t[|r|..] == t;
      }
      assert s[..k] == s;
    } else {
      assert r[0] == t[0];
      assert r[|r| - 1] == s[k + |r| - 1];
    }
  }

  /** Trailing whitespace after a string with non-space ends is all that
      `strip` removes. */
  lemma {:induction false} StripTrailingBlank(s: string, tail: string)
    requires s != [] && !IsSpace(s[0]) && !IsSpace(s[|s| - 1])
    requires IsBlank(tail)
    ensures Strip(s + tail) == s
  {
    assert TrimStart(s + tail) == s + tail;
    TrimEndBlankSuffix(s, tail);
  }

  /** `strip` removes exactly the blank runs around a string whose first and
      last characters are not whitespace. */
  lemma {:induction false} StripPadded(lead: string, s: string, tail: string)
    requires s != [] && !IsSpace(s[0]) && !IsSpace(s[|s| - 1])
    requires IsBlank(lead) && IsBlank(tail)
    ensures Strip(lead + s + tail) == s
  {
    TrimStartBlankPrefix(lead, s + tail);
    assert lead + s + tail == lead + (s + tail);
    TrimEndBlankSuffix(s, tail);
  }

  lemma {:induction false} TrimStartBlankPrefix(lead: string, s: string)
    requires IsBlank(lead)
    requires s == [] || !IsSpace(s[0])
    ensures TrimStart(lead + s) == s
    decreases |lead|
  {
    if lead == [] {
      assert lead + s == s;
    } else {
      assert (lead + s)[1..] == lead[1..] + s;
      TrimStartBlankPrefix(lead[1..], s);
    }
  }

  lemma {:induction false} TrimEndBlankSuffix(s: string, tail: string)
    requires s != [] && !IsSpace(s[|s| - 1])
    requires IsBlank(tail)
    ensures TrimEnd(s + tail) == s
    decreases |tail|
  {
    if tail == [] {
      assert s + tail == s;
    } else {
      var shorter := tail[..|tail| - 1];
      assert (s + tail)[..|s + tail| - 1] == s + shorter;
      TrimEndBlankSuffix(s, shorter);
    }
  }

  /** Python's `str.lower()` restricted to ASCII letters; every other
      character is left as it is. */
  function LowerAscii(s: string): (r: string)
    ensures |r| == |s|
    ensures forall i :: 0 <= i < |s| ==>
      if 'A' <= s[i] <= 'Z' then r[i] as int == s[i] as int + 32 else r[i] == s[i]
  {
    if s == [] then []
    else
      var c := s[0];
      var lc := if 'A' <= c <= 'Z' then (c as int + 32) as char else c;
      [lc] + LowerAscii(s[1..])
  }

  /** Length of the run of non-whitespace characters that starts `s`. */
  function WordLength(s: string): (n: nat)
    ensures n <= |s|
    ensures NoSpace(s[..n])
    ensures n < |s| ==> IsSpace(s[n])
  {
    if s == [] || IsSpace(s[0]) then 0
    else
      var m := WordLength(s[1..]);
      assert s[..1 + m] == [s[0]] + s[1..][..m];
      1 + m
  }

  /** Python's `str.split()` with no separator: the maximal runs of
      non-whitespace characters, in order. */
  function Fields(s: string): (r: seq<string>)
    ensures forall i :: 0 <= i < |r| ==> r[i] != [] && NoSpace(r[i])
    decreases |s|
  {
    if s == [] then []
    else if IsSpace(s[0]) then Fields(s[1..])
    else
      var n := WordLength(s);
      [s[..n]] + Fields(s[n..])
  }

  /** Python's `sep.join(parts)`. */
  function JoinWith(parts: seq<string>, sep: string): string {
    if |parts| == 0 then ""
    else if |parts| == 1 then parts[0]
    else parts[0] + sep + JoinWith(parts[1..], sep)
  }

  /** Index of the first occurrence of `c`. */
  function IndexOf(s: string, c: char): (i: nat)
    requires c in s
    ensures i < |s| && s[i] == c && c !in s[..i]
  {
    if s[0] == c then 0
    else
      var j := IndexOf(s[1..], c);
      assert s[..j + 1] == [s[0]] + s[1..][..j];
      j + 1
  }

  /** Python's `str.split(c)` for a one-character separator: never empty,
      and the pieces contain no `c`. */
  function SplitOn(s: string, c: char): (r: seq<string>)
    ensures |r| >= 1
    ensures forall i :: 0 <= i < |r| ==> c !in r[i]
    decreases |s|
  {
    if c !in s then [s]
    else
      var i := IndexOf(s, c);
      [s[..i]] + SplitOn(s[i + 1..], c)
  }

  /** `split(c)` undoes `join` on pieces free of `c`. */
  lemma {:induction false} SplitOnJoin(parts: seq<string>, c: char)
    requires |parts| >= 1
    requires forall i :: 0 <= i < |parts| ==> c !in parts[i]
    ensures SplitOn(JoinWith(parts, [c]), c) == parts
  {
    if |parts| > 1 {
      var head := parts[0];
      var rest := JoinWith(parts[1..], [c]);
      var s := head + [c] + rest;
      assert JoinWith(parts, [c]) == s;
      assert s[|head|] == c;
      assert s[..|head|] == head;
      var i := IndexOf(s, c);
      assert forall j :: 0 <= j < |head| ==> s[j] == head[j];
      assert s[i + 1..] == rest;
      SplitOnJoin(parts[1..], c);
    }
  }

  lemma {:induction false} WordLengthOfWord(w: string, rest: string)
    requires NoSpace(w)
    requires rest == [] || IsSpace(rest[0])
    ensures WordLength(w + rest) == |w|
  {
    if w == [] {
      assert w + rest == rest;
    } else {
      assert (w + rest)[1..] == w[1..] + rest;
      WordLengthOfWord(w[1..], rest);
    }
  }

  /** `split()` undoes joining non-empty, whitespace-free words with single
      spaces. */
  lemma {:induction false} FieldsOfJoin(words: seq<string>)
    requires forall i :: 0 <= i < |words| ==> words[i] != [] && NoSpace(words[i])
    ensures Fields(JoinWith(words, " ")) == words
  {
    if |words| == 1 {
      var w := words[0];
      WordLengthOfWord(w, []);
      assert w + [] == w;
      assert w[..|w|] == w && w[|w|..] == [];
    } else if |words| > 1 {
      var w := words[0];
      var rest := JoinWith(words[1..], " ");
      var s := w + (" " + rest);
      assert JoinWith(words, " ") == s;
      WordLengthOfWord(w, " " + rest);
      assert s[..|w|] == w;
      assert s[|w|..] == " " + rest;
      assert (" " + rest)[1..] == rest;
      FieldsOfJoin(words[1..]);
    }
  }

  /** A character that occurs in neither the pieces nor the separator does
      not occur in the joined string. */
  lemma {:induction false} JoinWithAvoids(parts: seq<string>, sep: string, c: char)
    requires c !in sep
    requires forall i :: 0 <= i < |parts| ==> c !in parts[i]
    ensures c !in JoinWith(parts, sep)
  {
    if |parts| > 1 {
      JoinWithAvoids(parts[1..], sep, c);
      assert JoinWith(parts, sep) == parts[0] + sep + JoinWith(parts[1..], sep);
    }
  }

  /** The joined string starts with the first piece's first character and
      ends with the last piece's last character. */
  lemma {:induction false} JoinWithEnds(parts: seq<string>, sep: string)
    requires |parts| >= 1
    requires forall i :: 0 <= i < |parts| ==> parts[i] != []
    ensures var j := JoinWith(parts, sep);
      j != [] && j[0] == parts[0][0] && j[|j| - 1] == parts[|parts| - 1][|parts[|parts| - 1]| - 1]
  {
    if |parts| > 1 {
      JoinWithEnds(parts[1..], sep);
    }
  }

  /** Words separated by the given runs of blanks:
      `words[0] + gaps[0] + words[1] + … + words[n - 1]`. */
  function Interleave(words: seq<string>, gaps: seq<string>): string
    requires |words| >= 1 && |gaps| == |words| - 1
  {
    if |words| == 1 then words[0]
    else words[0] + gaps[0] + Interleave(words[1..], gaps[1..])
  }

  /** Leading whitespace is skipped by `split()`. */
  lemma {:induction false} FieldsSkipBlank(lead: string, s: string)
    requires IsBlank(lead)
    ensures Fields(lead + s) == Fields(s)
    decreases |lead|
  {
    if lead == [] {
      assert lead + s == s;
    } else {
      assert (lead + s)[1..] == lead[1..] + s;
      FieldsSkipBlank(lead[1..], s);
    }
  }

  /** A word followed by the end or by whitespace is the first field. */
  lemma FieldsOfWord(w: string, rest: string)
    requires w != [] && NoSpace(w)
    requires rest == [] || IsSpace(rest[0])
    ensures Fields(w + rest) == [w] + Fields(rest)
  {
    WordLengthOfWord(w, rest);
    var s := w + rest;
    assert s[..|w|] == w && s[|w|..] == rest;
  }

  lemma {:induction false} FieldsOfInterleave(words: seq<string>, gaps: seq<string>, trail: string)
    requires |words| >= 1 && |gaps| == |words| - 1
    requires forall i :: 0 <= i < |words| ==> words[i] != [] && NoSpace(words[i])
    requires forall i :: 0 <= i < |gaps| ==> gaps[i] != [] && IsBlank(gaps[i])
    requires IsBlank(trail)
    ensures Fields(Interleave(words, gaps) + trail) == words
  {
    var w := words[0];
    if |words| == 1 {
      FieldsOfWord(w, trail);
      FieldsSkipBlank(trail, []);
      assert trail + [] == trail;
    } else {
      var rest := Interleave(words[1..], gaps[1..]) + trail;
      assert Interleave(words, gaps) + trail == w + (gaps[0] + rest);
      FieldsOfWord(w, gaps[0] + rest);
      FieldsSkipBlank(gaps[0], rest);
      FieldsOfInterleave(words[1..], gaps[1..], trail);
    }
  }

  /** `split()` returns exactly the words of any string laid out as blanks,
      words separated by non-empty blank runs, and blanks. Every string with
      a non-space character has this shape, taking its maximal runs. */
  lemma FieldsOfPadded(lead: string, words: seq<string>, gaps: seq<string>, trail: string)
    requires |words| >= 1 && |gaps| == |words| - 1
    requires forall i :: 0 <= i < |words| ==> words[i] != [] && NoSpace(words[i])
    requires forall i :: 0 <= i < |gaps| ==> gaps[i] != [] && IsBlank(gaps[i])
    requires IsBlank(lead) && IsBlank(trail)
    ensures Fields(lead + Interleave(words, gaps) + trail) == words
  {
    assert lead + Interleave(words, gaps) + trail == lead + (Interleave(words, gaps) + trail);
    FieldsSkipBlank(lead, Interleave(words, gaps) + trail);
    FieldsOfInterleave(words, gaps, trail);
  }

  /** A blank string, and only a blank string, has no fields. */
  lemma {:induction false} FieldsOfBlank(s: string)
    ensures Fields(s) == [] <==> IsBlank(s)
    decreases |s|
  {
    if s != [] {
      if IsSpace(s[0]) {
        FieldsOfBlank(s[1..]);
        if IsBlank(s[1..]) {
          forall i | 1 <= i < |s| ensures IsSpace(s[i]) {
            assert s[i] == s[1..][i - 1];
          }
        }
      }
    }
  }

  /** The interleaved string starts with the first word's first character,
      ends with the last word's last character, and contains a character only
      if some word or gap does. */
  lemma {:induction false} InterleaveShape(words: seq<string>, gaps: seq<string>, c: char)
    requires |words| >= 1 && |gaps| == |words| - 1
    requires forall i :: 0 <= i < |words| ==> words[i] != []
    ensures var s := Interleave(words, gaps);
      s != [] && s[0] == words[0][0] && s[|s| - 1] == words[|words| - 1][|words[|words| - 1]| - 1]
    ensures (forall i :: 0 <= i < |words| ==> c !in words[i]) && (forall i :: 0 <= i < |gaps| ==> c !in gaps[i])
      ==> c !in Interleave(words, gaps)
  {
    if |words| > 1 {
      InterleaveShape(words[1..], gaps[1..], c);
    }
  }

  /** Extending the last piece extends the joined string by the same text. */
  lemma {:induction false} JoinWithLast(parts: seq<string>, x: string, t: string, sep: string)
    ensures JoinWith(parts + [x + t], sep) == JoinWith(parts + [x], sep) + t
  {
    if parts != [] {
      assert (parts + [x + t])[1..] == parts[1..] + [x + t];
      assert (parts + [x])[1..] == parts[1..] + [x];
      JoinWithLast(parts[1..], x, t, sep);
    } else {
      assert parts + [x + t] == [x + t];
      assert parts + [x] == [x];
    }
  }

  /** `strip` of lines joined by newlines, with a trailing newline, takes
      that newline and the last line's trailing blanks and nothing else, when
      the first line starts and the last ends with a non-space. */
  lemma StripJoinedLines(init: seq<string>, core: string, trail: string)
    requires |init| >= 1 && forall i :: 0 <= i < |init| ==> init[i] != []
    requires !IsSpace(init[0][0])
    requires core != [] && !IsSpace(core[|core| - 1])
    requires IsBlank(trail)
    ensures Strip(JoinWith(init + [core + trail], "\n") + "\n") == JoinWith(init + [core], "\n")
  {
    JoinWithLast(init, core, trail, "\n");
    JoinedLinesEnds(init, core);
    StripLastLineTail(JoinWith(init + [core], "\n"), trail);
  }

  lemma JoinedLinesEnds(init: seq<string>, core: string)
    requires |init| >= 1 && forall i :: 0 <= i < |init| ==> init[i] != []
    requires core != []
    ensures var body := JoinWith(init + [core], "\n");
      body != [] && body[0] == init[0][0] && body[|body| - 1] == core[|core| - 1]
  {
    var parts := init + [core];
    forall i | 0 <= i < |parts| ensures parts[i] != [] {
      if i < |init| {
        assert parts[i] == init[i];
      }
    }
    JoinWithEnds(parts, "\n");
  }

  lemma StripLastLineTail(body: string, trail: string)
    requires body != [] && !IsSpace(body[0]) && !IsSpace(body[|body| - 1])
    requires IsBlank(trail)
    ensures Strip(body + trail + "\n") == body
  {
    var tail := trail + "\n";
    assert IsBlank(tail);
    StripTrailingBlank(body, tail);
    assert body + trail + "\n" == body + tail;
  }
}
