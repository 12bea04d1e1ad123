/** Character classes and the handful of string operations the source relies
    on: Python's `str.strip()`, `str.split()`, `' '.join(...)` and
    `str.capitalize()`, and JavaScript's `trim()` and `/\s+/`.  Case mapping
    and digit tests cover ASCII only. */
module Text {

  /** Python's `str.isspace()` set, which `str.split()` and `str.strip()`
      (no arguments) use as separators: space, tab to carriage return,
      the four information separators, NEL, no-break space, Ogham space
      mark, the en quad to hair space block, the line and paragraph
      separators, narrow no-break space, medium mathematical space and the
      ideographic space. */
  predicate IsPySpace(c: char) {
    || c == ' '
    || '\U{9}' <= c <= '\U{D}'
    || '\U{1C}' <= c <= '\U{1F}'
    || c == '\U{85}' || c == '\U{A0}' || c == '\U{1680}'
    || '\U{2000}' <= c <= '\U{200A}'
    || c == '\U{2028}' || c == '\U{2029}' || c == '\U{202F}' || c == '\U{205F}' || c == '\U{3000}'
  }

  /** JavaScript's WhiteSpace and LineTerminator set, matched by `\s` and
      removed by `String.prototype.trim`: the same as Python's without the
      information separators and NEL, plus the byte order mark. */
  predicate IsJsSpace(c: char) {
    || c == ' '
    || '\U{9}' <= c <= '\U{D}'
    || c == '\U{A0}' || c == '\U{1680}'
    || '\U{2000}' <= c <= '\U{200A}'
    || c == '\U{2028}' || c == '\U{2029}' || c == '\U{202F}' || c == '\U{205F}' || c == '\U{3000}'
    || c == '\U{FEFF}'
  }

  predicate IsAsciiDigit(c: char) {
    '0' <= c <= '9'
  }

  function AsciiUpper(c: char): (u: char)
    ensures IsPySpace(u) <==> IsPySpace(c)
    ensures IsJsSpace(u) <==> IsJsSpace(c)
  {
    if 'a' <= c <= 'z' then (c as int - 32) as char else c
  }

  function AsciiLower(c: char): (l: char)
    ensures IsPySpace(l) <==> IsPySpace(c)
    ensures IsJsSpace(l) <==> IsJsSpace(c)
  {
    if 'A' <= c <= 'Z' then (c as int + 32) as char else c
  }

  /** `str.lower()` / `String.prototype.toLowerCase()` restricted to ASCII. */
  function Lower(s: string): (r: string)
    ensures |r| == |s|
    ensures forall i :: 0 <= i < |s| ==> r[i] == AsciiLower(s[i])
  {
    seq(|s|, i requires 0 <= i < |s| => AsciiLower(s[i]))
  }

  /** `str.capitalize()`: first character upper case, the rest lower case. */
  function Capitalize(w: string): (r: string)
    ensures |r| == |w|
  {
    if w == [] then [] else [AsciiUpper(w[0])] + Lower(w[1..])
  }

  // ---------------------------------------------------------------------------
  // Python whitespace handling

  /** A word as `str.split()` produces it: non-empty, no whitespace. */
  predicate IsWord(w: string) {
    |w| > 0 && forall i :: 0 <= i < |w| ==> !IsPySpace(w[i])
  }

  predicate AllWords(ws: seq<string>) {
    forall k :: 0 <= k < |ws| ==> IsWord(ws[k])
  }

  /** Drops the leading whitespace run. */
  function TrimLeft(s: string): (r: string)
    ensures |r| <= |s| && r == s[|s| - |r|..]
    ensures r == [] || !IsPySpace(r[0])
    ensures forall i :: 0 <= i < |s| - |r| ==> IsPySpace(s[i])
  {
    if |s| > 0 && IsPySpace(s[0]) then TrimLeft(s[1..]) else s
  }

  /** Drops the trailing whitespace run. */
  function TrimRight(s: string): (r: string)
    ensures |r| <= |s| && r == s[..|r|]
    ensures r == [] || !IsPySpace(r[|r| - 1])
    ensures forall i :: |r| <= i < |s| ==> IsPySpace(s[i])
  {
    if |s| > 0 && IsPySpace(s[|s| - 1]) then TrimRight(s[..|s| - 1]) else s
  }

  /** `str.strip()` with no argument. */
  function PyStrip(s: string): (r: string)
    ensures r == [] || (!IsPySpace(r[0]) && !IsPySpace(r[|r| - 1]))
  {
    TrimRight(TrimLeft(s))
  }

  /** Length of the leading run of non-whitespace characters. */
  function WordLength(s: string): (n: nat)
    ensures n <= |s|
    ensures forall i :: 0 <= i < n ==> !IsPySpace(s[i])
    ensures n == |s| || IsPySpace(s[n])
  {
    if |s| == 0 || IsPySpace(s[0]) then 0 else 1 + WordLength(s[1..])
  }

  /** `str.split()` with no argument: the maximal whitespace-free runs. */
  function PyWords(s: string): (ws: seq<string>)
    decreases |s|
  {
    var t := TrimLeft(s);
    if t == [] then []
    else
      var n := WordLength(t);
      [t[..n]] + PyWords(t[n..])
  }

  /** `' '.join(ws)`. */
  function JoinSpace(ws: seq<string>): string {
    if |ws| == 0 then []
    else if |ws| == 1 then ws[0]
    else ws[0] + (" " + JoinSpace(ws[1..]))
  }

  /** The concatenation of all words, no separators. */
  function Flatten(ws: seq<string>): string {
    if ws == [] then [] else ws[0] + Flatten(ws[1..])
  }

  /** The string with every whitespace character deleted. */
  function RemovePySpaces(s: string): string {
    if s == [] then []
    else if IsPySpace(s[0]) then RemovePySpaces(s[1..])
    else [s[0]] + RemovePySpaces(s[1..])
  }

  /** `' '.join(s.split())`: whitespace runs collapsed to one space, ends trimmed. */
  function Collapse(s: string): string {
    JoinSpace(PyWords(s))
  }

  function MapCapitalize(ws: seq<string>): (r: seq<string>)
    ensures |r| == |ws|
    ensures forall k :: 0 <= k < |ws| ==> r[k] == Capitalize(ws[k])
  {
    seq(|ws|, k requires 0 <= k < |ws| => Capitalize(ws[k]))
  }

  // ---------------------------------------------------------------------------
  // Lemmas

  lemma RemovePySpacesAppend(a: string, b: string)
    ensures RemovePySpaces(a + b) == RemovePySpaces(a) + RemovePySpaces(b)
  {
    if a == [] {
      assert a + b == b;
    } else {
      assert (a + b)[1..] == a[1..] + b;
      RemovePySpacesAppend(a[1..], b);
    }
  }

  lemma RemovePySpacesOfWord(w: string)
    requires forall i :: 0 <= i < |w| ==> !IsPySpace(w[i])
    ensures RemovePySpaces(w) == w
  {
    if w != [] {
      RemovePySpacesOfWord(w[1..]);
    }
  }

  lemma RemovePySpacesTrimLeft(s: string)
    ensures RemovePySpaces(TrimLeft(s)) == RemovePySpaces(s)
  {
    if |s| > 0 && IsPySpace(s[0]) {
      RemovePySpacesTrimLeft(s[1..]);
    }
  }

  /** A string that starts with a non-space splits into its first word and
      the rest. */
  lemma FirstWordSplit(t: string)
    requires t != [] && !IsPySpace(t[0])
    ensures 0 < WordLength(t) && IsWord(t[..WordLength(t)])
  {
  }

  lemma AllWordsCons(w: string, ws: seq<string>)
    requires IsWord(w) && AllWords(ws)
    ensures AllWords([w] + ws)
  {
    forall k | 0 <= k < |[w] + ws|
      ensures IsWord(([w] + ws)[k])
    {
      if k > 0 {
        assert ([w] + ws)[k] == ws[k - 1];
      }
    }
  }

  /** Every piece `str.split()` yields is a non-empty run without whitespace. */
  lemma {:induction false} PyWordsAreWords(s: string)
    ensures AllWords(PyWords(s))
    decreases |s|
  {
    var t := TrimLeft(s);
    if t != [] {
      var n := WordLength(t);
      PyWordsUnfold(s, t, n);
      FirstWordSplit(t);
      PyWordsAreWords(t[n..]);
      AllWordsCons(t[..n], PyWords(t[n..]));
    }
  }

  lemma FlattenCons(w: string, ws: seq<string>)
    ensures Flatten([w] + ws) == w + Flatten(ws)
  {
    assert ([w] + ws)[1..] == ws;
  }

  lemma SplitAt(t: string, n: nat)
    requires n <= |t|
    ensures t == t[..n] + t[n..]
  {
  }

  lemma FlattenPyWordsStep(s: string)
    requires TrimLeft(s) != []
    requires var t := TrimLeft(s);
             Flatten(PyWords(t[WordLength(t)..])) == RemovePySpaces(t[WordLength(t)..])
    ensures Flatten(PyWords(s)) == RemovePySpaces(s)
  {
    var t := TrimLeft(s);
    var n := WordLength(t);
    var w, rest := t[..n], t[n..];
    RemovePySpacesTrimLeft(s);
    PyWordsUnfold(s, t, n);
    FirstWordSplit(t);
    SplitAt(t, n);
    FlattenCons(w, PyWords(rest));
    RemovePySpacesAppend(w, rest);
    RemovePySpacesOfWord(w);
  }

  /** The words of `s` are exactly its non-whitespace characters, in order. */
  lemma {:induction false} FlattenPyWords(s: string)
    ensures Flatten(PyWords(s)) == RemovePySpaces(s)
    decreases |s|
  {
    var t := TrimLeft(s);
    if t != [] {
      FlattenPyWords(t[WordLength(t)..]);
      FlattenPyWordsStep(s);
    } else {
      RemovePySpacesTrimLeft(s);
      assert RemovePySpaces(t) == [];
    }
  }

  lemma WordLengthOfPrefix(w: string, rest: string)
    requires IsWord(w)
    requires rest == [] || IsPySpace(rest[0])
    ensures WordLength(w + rest) == |w|
    decreases |w|
  {
    if |w| > 1 {
      assert (w + rest)[1..] == w[1..] + rest;
      WordLengthOfPrefix(w[1..], rest);
    } else {
      assert (w + rest)[1..] == rest;
    }
  }

  /** A word followed by whitespace or nothing splits off as the first word. */
  lemma PyWordsOfWordThen(w: string, rest: string)
    requires IsWord(w)
    requires rest == [] || IsPySpace(rest[0])
    ensures PyWords(w + rest) == [w] + PyWords(rest)
  {
    var j := w + rest;
    WordLengthOfPrefix(w, rest);
    assert TrimLeft(j) == j;
    assert j[..|w|] == w;
    assert j[|w|..] == rest;
  }

  lemma PyWordsLeadingSpace(s: string)
    ensures PyWords(" " + s) == PyWords(s)
  {
    assert (" " + s)[1..] == s;
    assert TrimLeft(" " + s) == TrimLeft(s);
  }

  lemma WordLengthOfRun(w: string)
    requires forall i :: 0 <= i < |w| ==> !IsPySpace(w[i])
    ensures WordLength(w) == |w|
  {
    if |w| > 0 {
      WordLengthOfRun(w[1..]);
    }
  }

  lemma PyWordsOfWord(w: string)
    requires IsWord(w)
    ensures PyWords(w) == [w]
  {
    assert TrimLeft(w) == w;
    WordLengthOfRun(w);
    assert w[..|w|] == w;
    assert PyWords(w[|w|..]) == [];
  }

  lemma JoinSpaceCons(w: string, rest: seq<string>)
    requires |rest| > 0
    ensures JoinSpace([w] + rest) == w + (" " + JoinSpace(rest))
  {
    assert ([w] + rest)[1..] == rest;
  }

  /** One more word in front of a join that splits back correctly. */
  lemma PyWordsOfJoinStep(w: string, rest: seq<string>)
    requires IsWord(w) && |rest| > 0
    requires PyWords(JoinSpace(rest)) == rest
    ensures PyWords(JoinSpace([w] + rest)) == [w] + rest
  {
    var tail := JoinSpace(rest);
    JoinSpaceCons(w, rest);
    PyWordsOfWordThen(w, " " + tail);
    PyWordsLeadingSpace(tail);
  }

  /** Splitting a single-space join of words gives the words back. */
  lemma {:induction false} PyWordsOfJoin(ws: seq<string>)
    requires AllWords(ws)
    ensures PyWords(JoinSpace(ws)) == ws
    decreases |ws|
  {
    if ws == [] {
      assert TrimLeft([]) == [];
    } else {
      var w, rest := ws[0], ws[1..];
      assert ws == [w] + rest;
      if rest == [] {
        PyWordsOfWord(w);
      } else {
        PyWordsOfJoin(rest);
        PyWordsOfJoinStep(w, rest);
      }
    }
  }

  lemma JoinSpaceEnds(ws: seq<string>)
    requires AllWords(ws) && |ws| > 0
    ensures |JoinSpace(ws)| > 0
    ensures !IsPySpace(JoinSpace(ws)[0])
    ensures !IsPySpace(JoinSpace(ws)[|JoinSpace(ws)| - 1])
    decreases |ws|
  {
    if |ws| > 1 {
      JoinSpaceEnds(ws[1..]);
    }
  }

  lemma PyStripOfClean(s: string)
    requires s == [] || (!IsPySpace(s[0]) && !IsPySpace(s[|s| - 1]))
    ensures PyStrip(s) == s
  {
  }

  lemma JoinSpaceLength(ws: seq<string>)
    ensures |JoinSpace(ws)| >= |Flatten(ws)|
  {
    if |ws| > 1 {
      JoinSpaceLength(ws[1..]);
    }
  }

  /** Collapsing whitespace twice is the same as collapsing it once. */
  lemma CollapseIdempotent(s: string)
    ensures Collapse(Collapse(s)) == Collapse(s)
  {
    PyWordsAreWords(s);
    PyWordsOfJoin(PyWords(s));
  }

  /** Collapsing whitespace keeps every non-whitespace character. */
  lemma CollapseKeepsNonSpace(s: string, c: char)
    requires !IsPySpace(c)
    ensures c in Collapse(s) <==> c in s
  {
    var ws := PyWords(s);
    FlattenPyWords(s);
    JoinContains(ws, c);
    RemovePySpacesContains(s, c);
  }

  lemma JoinContains(ws: seq<string>, c: char)
    requires !IsPySpace(c)
    ensures c in JoinSpace(ws) <==> c in Flatten(ws)
  {
    if |ws| > 1 {
      JoinContains(ws[1..], c);
    } else if |ws| == 1 {
      assert Flatten(ws) == ws[0] + [];
    }
  }

  lemma RemovePySpacesContains(s: string, c: char)
    requires !IsPySpace(c)
    ensures c in RemovePySpaces(s) <==> c in s
  {
    if s != [] {
      RemovePySpacesContains(s[1..], c);
      assert s == [s[0]] + s[1..];
    }
  }

  lemma LowerIdempotent(s: string)
    ensures Lower(Lower(s)) == Lower(s)
  {
  }

  lemma CapitalizeIdempotent(w: string)
    ensures Capitalize(Capitalize(w)) == Capitalize(w)
  {
    if w != [] {
      var c := Capitalize(w);
      assert c[1..] == Lower(w[1..]);
      LowerIdempotent(w[1..]);
    }
  }

  lemma CapitalizeKeepsWord(w: string)
    requires IsWord(w)
    ensures IsWord(Capitalize(w))
  {
    var c := Capitalize(w);
    forall i | 0 <= i < |c|
      ensures !IsPySpace(c[i])
    {
      if i > 0 {
        assert c[i] == Lower(w[1..])[i - 1];
      }
    }
  }

  lemma MapCapitalizeKeepsWords(ws: seq<string>)
    requires AllWords(ws)
    ensures AllWords(MapCapitalize(ws))
  {
    forall k | 0 <= k < |ws|
      ensures IsWord(MapCapitalize(ws)[k])
    {
      CapitalizeKeepsWord(ws[k]);
    }
  }

  lemma FlattenLengthOfCapitalized(ws: seq<string>)
    ensures |Flatten(MapCapitalize(ws))| == |Flatten(ws)|
  {
    if ws != [] {
      assert MapCapitalize(ws)[1..] == MapCapitalize(ws[1..]);
      FlattenLengthOfCapitalized(ws[1..]);
    }
  }

  /** A string whose first and last characters are non-blank, and which has
      at least two characters, has at least two non-blank characters. */
  lemma RemovePySpacesLength(s: string)
    requires |s| >= 2 && !IsPySpace(s[0]) && !IsPySpace(s[|s| - 1])
    ensures |RemovePySpaces(s)| >= 2
  {
    var mid := s[1..|s| - 1];
    assert s == [s[0]] + mid + [s[|s| - 1]];
    RemovePySpacesAppend([s[0]] + mid, [s[|s| - 1]]);
    RemovePySpacesAppend([s[0]], mid);
  }

  // ---------------------------------------------------------------------------
  // JavaScript whitespace handling

  /** `s.trim() === ''`. */
  predicate IsJsBlank(s: string) {
    forall i :: 0 <= i < |s| ==> IsJsSpace(s[i])
  }

  /** Drops the leading run of JavaScript whitespace. */
  function DropJsSpaces(s: string): (r: string)
    ensures |r| <= |s| && r == s[|s| - |r|..]
    ensures r == [] || !IsJsSpace(r[0])
  {
    if |s| > 0 && IsJsSpace(s[0]) then DropJsSpaces(s[1..]) else s
  }

  /** Every character of a suffix occurs in the whole string. */
  lemma SuffixMembers(t: string, u: string)
    requires |t| <= |u| && t == u[|u| - |t|..]
    ensures forall c :: c in t ==> c in u
  {
    forall c | c in t
      ensures c in u
    {
      var i :| 0 <= i < |t| && t[i] == c;
      assert u[|u| - |t| + i] == c;
    }
  }

  /** `s.replace(/\s+/g, '-')`. */
  function DashJsSpaceRuns(s: string): (r: string)
    ensures forall i :: 0 <= i < |r| ==> !IsJsSpace(r[i])
    ensures |r| <= |s|
    ensures forall i :: 0 <= i < |r| ==> r[i] == '-' || r[i] in s
    ensures s != [] ==> r != []
    decreases |s|
  {
    if s == [] then []
    else if IsJsSpace(s[0]) then
      var rest := DropJsSpaces(s[1..]);
      SuffixMembers(rest, s[1..]);
      SuffixMembers(s[1..], s);
      "-" + DashJsSpaceRuns(rest)
    else
      SuffixMembers(s[1..], s);
      [s[0]] + DashJsSpaceRuns(s[1..])
  }

  /** A text without whitespace is left as it is. */
  lemma {:induction false} DashJsSpaceRunsOfClean(s: string)
    ensures (forall i :: 0 <= i < |s| ==> !IsJsSpace(s[i])) ==> DashJsSpaceRuns(s) == s
  {
    if s != [] && !IsJsSpace(s[0]) {
      DashJsSpaceRunsOfClean(s[1..]);
    }
  }

  /** A run of whitespace is skipped up to the first other character. */
  lemma {:induction false} DropJsSpacesOfRun(sp: string, rest: string)
    requires forall i :: 0 <= i < |sp| ==> IsJsSpace(sp[i])
    requires rest == [] || !IsJsSpace(rest[0])
    ensures DropJsSpaces(sp + rest) == rest
  {
    if sp == [] {
      assert sp + rest == rest;
    } else {
      assert (sp + rest)[1..] == sp[1..] + rest;
      DropJsSpacesOfRun(sp[1..], rest);
    }
  }

  lemma ConsAppend(w: string, x: string)
    requires w != []
    ensures w + x == [w[0]] + (w[1..] + x)
  {
  }

  lemma DashJsSpaceRunsCons(c: char, t: string)
    requires !IsJsSpace(c)
    ensures DashJsSpaceRuns([c] + t) == [c] + DashJsSpaceRuns(t)
  {
    assert ([c] + t)[1..] == t;
  }

  /** A text without whitespace is copied through in front of whatever
      follows it. */
  lemma {:induction false} DashJsSpaceRunsOfCleanPrefix(w: string, t: string)
    requires forall i :: 0 <= i < |w| ==> !IsJsSpace(w[i])
    ensures DashJsSpaceRuns(w + t) == w + DashJsSpaceRuns(t)
  {
    if w == [] {
      assert w + t == t;
    } else {
      var c, v := w[0], w[1..];
      ConsAppend(w, t);
      DashJsSpaceRunsOfCleanPrefix(v, t);
      DashJsSpaceRunsCons(c, v + t);
      ConsAppend(w, DashJsSpaceRuns(t));
    }
  }

  /** A whole run of whitespace becomes one dash. */
  lemma DashJsSpaceRunsOfRun(sp: string, rest: string)
    requires sp != [] && forall i :: 0 <= i < |sp| ==> IsJsSpace(sp[i])
    requires rest == [] || !IsJsSpace(rest[0])
    ensures DashJsSpaceRuns(sp + rest) == "-" + DashJsSpaceRuns(rest)
  {
    var t := sp + rest;
    assert t[0] == sp[0];
    assert t[1..] == sp[1..] + rest;
    DropJsSpacesOfRun(sp[1..], rest);
  }

  /** The replacement pattern at work: a word, then a whole run of
      whitespace, becomes the word and one dash, and the rest is handled the
      same way. With `DashJsSpaceRunsOfClean` this fixes the result for
      every text. */
  lemma DashJsSpaceRunsOfWordThenRun(w: string, sp: string, rest: string)
    requires forall i :: 0 <= i < |w| ==> !IsJsSpace(w[i])
    requires sp != [] && forall i :: 0 <= i < |sp| ==> IsJsSpace(sp[i])
    requires rest == [] || !IsJsSpace(rest[0])
    ensures DashJsSpaceRuns(w + (sp + rest)) == w + ("-" + DashJsSpaceRuns(rest))
  {
    DashJsSpaceRunsOfRun(sp, rest);
    DashJsSpaceRunsOfCleanPrefix(w, sp + rest);
  }

  lemma TrimLeftIdempotent(s: string)
    ensures TrimLeft(TrimLeft(s)) == TrimLeft(s)
  {
  }

  lemma TrimLeftKeepsWords(s: string)
    ensures PyWords(TrimLeft(s)) == PyWords(s)
  {
    TrimLeftIdempotent(s);
  }

  lemma TrimLeftAppendSpaces(s: string, w: string)
    requires forall i :: 0 <= i < |w| ==> IsPySpace(w[i])
    ensures TrimLeft(s) != [] ==> TrimLeft(s + w) == TrimLeft(s) + w
    ensures TrimLeft(s) == [] ==> TrimLeft(s + w) == []
  {
    if s == [] {
      assert s + w == w;
      AllSpaceTrimLeft(w);
    } else if IsPySpace(s[0]) {
      assert (s + w)[1..] == s[1..] + w;
      TrimLeftAppendSpaces(s[1..], w);
    }
  }

  lemma AllSpaceTrimLeft(s: string)
    requires forall i :: 0 <= i < |s| ==> IsPySpace(s[i])
    ensures TrimLeft(s) == []
  {
    if s != [] {
      AllSpaceTrimLeft(s[1..]);
    }
  }

  lemma WordLengthAppendSpaces(t: string, w: string)
    requires forall i :: 0 <= i < |w| ==> IsPySpace(w[i])
    ensures WordLength(t + w) == WordLength(t)
  {
    if t == [] {
      assert t + w == w;
    } else if !IsPySpace(t[0]) {
      assert (t + w)[1..] == t[1..] + w;
      WordLengthAppendSpaces(t[1..], w);
    }
  }

  lemma PyWordsUnfold(x: string, t: string, n: nat)
    requires TrimLeft(x) == t && t != [] && WordLength(t) == n
    ensures PyWords(x) == [t[..n]] + PyWords(t[n..])
  {
  }

  lemma PyWordsAppendSpacesStep(s: string, w: string)
    requires forall i :: 0 <= i < |w| ==> IsPySpace(w[i])
    requires TrimLeft(s) != []
    ensures var t := TrimLeft(s); var n := WordLength(t);
            PyWords(s + w) == [t[..n]] + PyWords(t[n..] + w)
  {
    var t := TrimLeft(s);
    var n := WordLength(t);
    var tw := t + w;
    TrimLeftAppendSpaces(s, w);
    WordLengthAppendSpaces(t, w);
    SplitAppend(t, w, n);
    PyWordsUnfold(s + w, tw, n);
  }

  lemma SplitAppend(t: string, w: string, n: nat)
    requires n <= |t|
    ensures (t + w)[..n] == t[..n] && (t + w)[n..] == t[n..] + w
  {
  }

  /** Trailing whitespace does not change the words. */
  lemma {:induction false} PyWordsAppendSpaces(s: string, w: string)
    requires forall i :: 0 <= i < |w| ==> IsPySpace(w[i])
    ensures PyWords(s + w) == PyWords(s)
    decreases |s|
  {
    var t := TrimLeft(s);
    if t != [] {
      var n := WordLength(t);
      PyWordsAppendSpacesStep(s, w);
      PyWordsAppendSpaces(t[n..], w);
    } else {
      TrimLeftAppendSpaces(s, w);
    }
  }

  /** `s.strip().split()` is `s.split()`. */
  lemma StripKeepsWords(s: string)
    ensures PyWords(PyStrip(s)) == PyWords(s)
  {
    var t := TrimLeft(s);
    var u := TrimRight(t);
    SplitAt(t, |u|);
    PyWordsAppendSpaces(u, t[|u|..]);
    TrimLeftKeepsWords(s);
  }
}
