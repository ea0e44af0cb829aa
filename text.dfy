/** The string operations the contact book relies on: whitespace splitting
    (`str.split()`), joining with a separator (`sep.join`), `str.rstrip()` and
    `str.lower()`, all over ASCII. `Split` models `str.split(sep)`, which the
    program does not call: it is here only as the inverse of `"; ".join`, for
    `PhoneListRoundTrip`. */
module Text {

  /** ASCII whitespace as `str.isspace` sees it: tab, line feed, vertical tab,
      form feed, carriage return, the four separators 0x1C-0x1F and space. */
  predicate IsSpace(c: char) {
    var n := c as int;
    9 <= n <= 13 || 28 <= n <= 32
  }

  /** A token `str.split()` can produce: non-empty, without whitespace. */
  predicate IsWord(w: string) {
    |w| > 0 && forall i :: 0 <= i < |w| ==> !IsSpace(w[i])
  }

  /** Length of the longest whitespace-free prefix of `s`. */
  function WordLength(s: string): (n: nat)
    ensures n <= |s|
    ensures forall i :: 0 <= i < n ==> !IsSpace(s[i])
    ensures n < |s| ==> IsSpace(s[n])
  {
    if s == [] || IsSpace(s[0]) then 0 else 1 + WordLength(s[1..])
  }

  /** `s.split()`: the maximal whitespace-free runs of `s`, in order. */
  function Words(s: string): (ws: seq<string>)
    ensures forall i :: 0 <= i < |ws| ==> IsWord(ws[i])
    decreases |s|
  {
    if s == [] then []
    else if IsSpace(s[0]) then Words(s[1..])
    else
      var n := WordLength(s);
      [s[..n]] + Words(s[n..])
  }

  /** `sep.join(parts)`. */
  function Join(parts: seq<string>, sep: string): string {
    if parts == [] then ""
    else if |parts| == 1 then parts[0]
    else parts[0] + sep + Join(parts[1..], sep)
  }

  /** `s.split(sep)`: cut at every leftmost non-overlapping occurrence of `sep`. */
  function Split(s: string, sep: string): (r: seq<string>)
    requires sep != []
    ensures |r| >= 1
    decreases |s|
  {
    if |sep| <= |s| && s[..|sep|] == sep then [""] + Split(s[|sep|..], sep)
    else if s == [] then [""]
    else
      var rest := Split(s[1..], sep);
      [[s[0]] + rest[0]] + rest[1..]
  }

  /** `s.rstrip()`. */
  function RStrip(s: string): (r: string)
    ensures |r| <= |s| && r == s[..|r|]
    ensures r == [] || !IsSpace(r[|r| - 1])
    ensures forall i :: |r| <= i < |s| ==> IsSpace(s[i])
  {
    if s == [] || !IsSpace(s[|s| - 1]) then s else RStrip(s[..|s| - 1])
  }

  function LowerChar(c: char): char {
    if 'A' <= c <= 'Z' then (c as int + 32) as char else c
  }

  /** `s.lower()` on ASCII letters. */
  function Lower(s: string): (r: string)
    ensures |r| == |s|
    ensures forall i :: 0 <= i < |s| ==> r[i] == LowerChar(s[i])
  {
    if s == [] then [] else [LowerChar(s[0])] + Lower(s[1..])
  }

  // ------------------------------------------------------------- lemmas

  /** A word followed by whitespace (or by nothing) is measured exactly. */
  lemma {:induction false} WordLengthOfWord(w: string, t: string)
    requires IsWord(w)
    requires t == [] || IsSpace(t[0])
    ensures WordLength(w + t) == |w|
  {
    if |w| > 1 {
      assert (w + t)[1..] == w[1..] + t;
      WordLengthOfWord(w[1..], t);
    } else {
      assert (w + t)[1..] == t;
    }
  }

  /** Text made only of whitespace (possibly none). */
  predicate IsBlank(s: string) {
    forall i :: 0 <= i < |s| ==> IsSpace(s[i])
  }

  /** A typed line: each word followed by its own run of whitespace. */
  function Spaced(ws: seq<string>, gaps: seq<string>): string
    requires |gaps| == |ws|
  {
    if ws == [] then "" else ws[0] + gaps[0] + Spaced(ws[1..], gaps[1..])
  }

  /** The words are words and the gaps whitespace; every gap but the last
      (the trailing whitespace) separates two words, so it is not empty. */
  predicate WellSpaced(ws: seq<string>, gaps: seq<string>)
    requires |gaps| == |ws|
  {
    && (forall i :: 0 <= i < |ws| ==> IsWord(ws[i]) && IsBlank(gaps[i]))
    && (forall i :: 0 <= i < |ws| - 1 ==> gaps[i] != [])
  }

  /** Leading whitespace is skipped by `split()`. */
  lemma {:induction false} WordsAfterBlank(b: string, t: string)
    requires IsBlank(b)
    ensures Words(b + t) == Words(t)
  {
    if b == [] {
      assert b + t == t;
    } else {
      assert (b + t)[0] == b[0];
      assert (b + t)[1..] == b[1..] + t;
      WordsAfterBlank(b[1..], t);
    }
  }

  /** Words separated by runs of whitespace are split back into the same words. */
  lemma {:induction false} WordsOfSpaced(ws: seq<string>, gaps: seq<string>)
    requires |gaps| == |ws| && WellSpaced(ws, gaps)
    ensures Words(Spaced(ws, gaps)) == ws
  {
    if ws != [] {
      var w, g, rest := ws[0], gaps[0], Spaced(ws[1..], gaps[1..]);
      var s := Spaced(ws, gaps);
      assert s == w + (g + rest);
      if g == [] {
        assert |ws| == 1;
        assert g + rest == [];
      }
      WordLengthOfWord(w, g + rest);
      assert s[0] == w[0];
      assert s[..|w|] == w;
      assert s[|w|..] == g + rest;
      WordsAfterBlank(g, rest);
      assert WellSpaced(ws[1..], gaps[1..]) by {
        assert forall i :: 0 <= i < |ws| - 1 ==> ws[1..][i] == ws[i + 1] && gaps[1..][i] == gaps[i + 1];
      }
      WordsOfSpaced(ws[1..], gaps[1..]);
      assert ws == [w] + ws[1..];
    }
  }

  /** A line typed as words between runs of whitespace, with optional
      whitespace before the first word and after the last, splits into
      exactly those words. */
  lemma WordsOfLine(lead: string, ws: seq<string>, gaps: seq<string>)
    requires IsBlank(lead) && |gaps| == |ws| && WellSpaced(ws, gaps)
    ensures Words(lead + Spaced(ws, gaps)) == ws
  {
    WordsAfterBlank(lead, Spaced(ws, gaps));
    WordsOfSpaced(ws, gaps);
  }

  /** A part without the separator's first character is one piece of a split. */
  lemma {:induction false} SplitOfPart(p: string, sep: string)
    requires sep != [] && sep[0] !in p
    ensures Split(p, sep) == [p]
  {
    if p != [] {
      assert p[0] != sep[0];
      assert |sep| <= |p| ==> p[..|sep|][0] != sep[0];
      SplitOfPart(p[1..], sep);
      assert [p[0]] + p[1..] == p;
    }
  }

  /** Splitting `p + sep + t` cuts exactly after `p`. */
  lemma {:induction false} SplitAfterPart(p: string, sep: string, t: string)
    requires sep != [] && sep[0] !in p
    ensures Split(p + sep + t, sep) == [p] + Split(t, sep)
    decreases |p|
  {
    var s := p + sep + t;
    if p == [] {
      assert s == sep + t;
      assert s[..|sep|] == sep;
      assert s[|sep|..] == t;
    } else {
      assert s[0] == p[0] != sep[0];
      assert |sep| <= |s| ==> s[..|sep|][0] != sep[0];
      assert s[1..] == p[1..] + sep + t;
      SplitAfterPart(p[1..], sep, t);
      assert [p[0]] + p[1..] == p;
    }
  }

  /** `s.split(sep)` undoes `sep.join(parts)` when no part contains the
      separator's first character. */
  lemma {:induction false} SplitOfJoin(parts: seq<string>, sep: string)
    requires sep != [] && |parts| >= 1
    requires forall i :: 0 <= i < |parts| ==> sep[0] !in parts[i]
    ensures Split(Join(parts, sep), sep) == parts
  {
    if |parts| == 1 {
      SplitOfPart(parts[0], sep);
    } else {
      SplitAfterPart(parts[0], sep, Join(parts[1..], sep));
      SplitOfJoin(parts[1..], sep);
      assert parts == [parts[0]] + parts[1..];
    }
  }

  /** Appending one more part to a non-empty join. */
  lemma {:induction false} JoinSnoc(parts: seq<string>, sep: string, x: string)
    requires parts != []
    ensures Join(parts + [x], sep) == Join(parts, sep) + sep + x
  {
    if |parts| == 1 {
      assert (parts + [x])[1..] == [x];
    } else {
      assert (parts + [x])[1..] == parts[1..] + [x];
      JoinSnoc(parts[1..], sep, x);
    }
  }

  /** Stripping a trailing line feed off a string that ends in a non-space. */
  lemma RStripNewline(s: string)
    requires s == [] || !IsSpace(s[|s| - 1])
    ensures RStrip(s + "\n") == s
  {
    assert (s + "\n")[..|s|] == s;
  }

  /** A non-empty join begins with its first part. */
  lemma JoinStartsWith(parts: seq<string>, sep: string)
    requires parts != []
    ensures |parts[0]| <= |Join(parts, sep)| && Join(parts, sep)[..|parts[0]|] == parts[0]
  {
    if |parts| > 1 {
      assert Join(parts, sep) == parts[0] + (sep + Join(parts[1..], sep));
    }
  }

  /** `split()` finds no word exactly in blank input. */
  lemma {:induction false} WordsEmpty(s: string)
    ensures Words(s) == [] <==> forall i :: 0 <= i < |s| ==> IsSpace(s[i])
  {
    if s != [] && IsSpace(s[0]) {
      WordsEmpty(s[1..]);
      assert forall i :: 1 <= i < |s| ==> s[i] == s[1..][i - 1];
    }
  }

  /** A non-empty join ends with its last part. */
  lemma {:induction false} JoinEndsWith(parts: seq<string>, sep: string)
    requires parts != []
    ensures var j, last := Join(parts, sep), parts[|parts| - 1];
      |last| <= |j| && j[|j| - |last|..] == last
  {
    if |parts| > 1 {
      JoinEndsWith(parts[1..], sep);
      var rest := Join(parts[1..], sep);
      assert Join(parts, sep) == (parts[0] + sep) + rest;
    }
  }
}
