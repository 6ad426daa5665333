/** `load_proxies`: read the input file as text, split it into lines as
    `readlines()` does and trim each line with `str.strip()`. */
module Lines {

  // ---------------------------------------------------------------------
  // str.strip()
  // ---------------------------------------------------------------------

  /** The characters for which Python's `str.isspace()` holds, which are the
      ones `str.strip()` with no argument removes. */
  const Whitespace: set<char> := {
    '\t', '\n', '\U{B}', '\U{C}', '\r', '\U{1C}', '\U{1D}', '\U{1E}', '\U{1F}', ' ',
    '\U{85}', '\U{A0}', '\U{1680}',
    '\U{2000}', '\U{2001}', '\U{2002}', '\U{2003}', '\U{2004}', '\U{2005}',
    '\U{2006}', '\U{2007}', '\U{2008}', '\U{2009}', '\U{200A}',
    '\U{2028}', '\U{2029}', '\U{202F}', '\U{205F}', '\U{3000}'
  }

  predicate IsSpace(c: char) {
    c in Whitespace
  }

  /** Neither the first nor the last character is whitespace. */
  predicate NoEdgeSpace(s: string) {
    s == [] || (!IsSpace(s[0]) && !IsSpace(s[|s| - 1]))
  }

  /** `r` is the piece of `s` starting at `i` once the whitespace at both ends
      is cut off: only whitespace lies outside it, and none at its own ends. */
  ghost predicate TrimmedAt(r: string, s: string, i: int) {
    0 <= i <= |s| - |r| && r == s[i..i + |r|]
    && (forall m :: 0 <= m < i ==> IsSpace(s[m]))
    && (forall m :: i + |r| <= m < |s| ==> IsSpace(s[m]))
    && NoEdgeSpace(r)
  }

  ghost predicate IsTrimOf(r: string, s: string) {
    exists i :: TrimmedAt(r, s, i)
  }

  /** The first index at or after `i` holding a non-space, or `|s|`. */
  function SkipSpaces(s: string, i: nat): (k: nat)
    requires i <= |s|
    ensures i <= k <= |s|
    ensures forall m :: i <= m < k ==> IsSpace(s[m])
    ensures k < |s| ==> !IsSpace(s[k])
    decreases |s| - i
  {
    if i == |s| || !IsSpace(s[i]) then i else SkipSpaces(s, i + 1)
  }

  /** Scanning back from `j`, but not past `lo`: the index just after the last
      non-space, or `lo`. */
  function SkipSpacesBack(s: string, lo: nat, j: nat): (k: nat)
    requires lo <= j <= |s|
    ensures lo <= k <= j
    ensures forall m :: k <= m < j ==> IsSpace(s[m])
    ensures lo < k ==> !IsSpace(s[k - 1])
    decreases j
  {
    if j == lo || !IsSpace(s[j - 1]) then j else SkipSpacesBack(s, lo, j - 1)
  }

  /** Python's `s.strip()`: move a left index past the leading whitespace,
      then a right index back past the trailing whitespace. */
  function Strip(s: string): (r: string)
    ensures IsTrimOf(r, s)
  {
    var i := SkipSpaces(s, 0);
    var j := SkipSpacesBack(s, i, |s|);
    assert TrimmedAt(s[i..j], s, i);
    s[i..j]
  }

  /** `IsTrimOf` pins down `str.strip()` completely: the only trimmed piece of
      `s` is `Strip(s)`. */
  lemma TrimIsStrip(r: string, s: string)
    requires IsTrimOf(r, s)
    ensures r == Strip(s)
  {
    var i :| TrimmedAt(r, s, i);
    var start := SkipSpaces(s, 0);
    if r == [] {
      assert start == |s|;
    } else {
      assert s[i] == r[0] && s[i + |r| - 1] == r[|r| - 1];
      assert start == i;
      assert SkipSpacesBack(s, start, |s|) == i + |r|;
    }
  }

  /** A string without whitespace at its ends is its own strip. */
  lemma StripClean(s: string)
    requires NoEdgeSpace(s)
    ensures Strip(s) == s
  {
    assert TrimmedAt(s, s, 0);
    TrimIsStrip(s, s);
  }

  /** `str.strip()` is idempotent. */
  lemma StripIdempotent(s: string)
    ensures Strip(Strip(s)) == Strip(s)
  {
    StripClean(Strip(s));
  }

  /** Trailing whitespace added to a stripped string is stripped again. */
  lemma StripDropsAppendedSpace(s: string, c: char)
    requires NoEdgeSpace(s) && IsSpace(c)
    ensures Strip(s + [c]) == s
  {
    var t := s + [c];
    assert TrimmedAt(s, t, 0);
    TrimIsStrip(s, t);
  }

  // ---------------------------------------------------------------------
  // Text mode: universal newlines
  // ---------------------------------------------------------------------

  /** Opening a file with mode 'r' turns "\r\n" and a lone "\r" into "\n". */
  function TranslateNewlines(s: string): (r: string)
    ensures '\r' !in s ==> r == s
    decreases |s|
  {
    if s == [] then []
    else if s[0] == '\r' then
      if |s| > 1 && s[1] == '\n' then "\n" + TranslateNewlines(s[2..])
      else "\n" + TranslateNewlines(s[1..])
    else [s[0]] + TranslateNewlines(s[1..])
  }

  /** No "\r" survives the translation. */
  lemma {:induction false} TranslateRemovesReturns(s: string)
    ensures '\r' !in TranslateNewlines(s)
    decreases |s|
  {
    if s == [] {
    } else if s[0] == '\r' && |s| > 1 && s[1] == '\n' {
      TranslateRemovesReturns(s[2..]);
    } else {
      TranslateRemovesReturns(s[1..]);
    }
  }

  /** What follows a "\r" once it is translated: a "\n" right after it is
      absorbed into the same line break. */
  function AfterReturn(t: string): string {
    if t != [] && t[0] == '\n' then t[1..] else t
  }

  /** A "\r" at the start becomes "\n", together with a "\n" right after it. */
  lemma TranslateLeadingReturn(b: string)
    ensures TranslateNewlines("\r" + b) == "\n" + TranslateNewlines(AfterReturn(b))
  {
    var s := "\r" + b;
    assert s[1..] == b;
    if b != [] && b[0] == '\n' {
      assert s[2..] == b[1..];
    }
  }

  /** A character other than "\r" in front is kept. */
  lemma TranslateLeadingPlain(s: string, c: char, t: string)
    requires s == [c] + t && c != '\r'
    ensures TranslateNewlines(s) == [c] + TranslateNewlines(t)
  {
    assert s[0] == c && s[1..] == t;
  }

  /** Putting a character back in front of a split text. */
  lemma ConsSplit(c: char, a: string, sep: string, rest: string)
    requires a != [] && a[0] == c
    ensures [c] + (a[1..] + sep + rest) == a + sep + rest
  {
    assert a == [c] + a[1..];
  }

  /** What a "\r" becomes: the text up to the first "\r" is kept, the "\r"
      becomes "\n" and absorbs a "\n" right after it, and the rest is
      translated in turn. With the `ensures` of `TranslateNewlines` (text
      without "\r" is kept) this fixes the translation of every text. */
  lemma {:induction false} TranslateFirstReturn(a: string, b: string)
    requires '\r' !in a
    ensures TranslateNewlines(a + "\r" + b) == a + "\n" + TranslateNewlines(AfterReturn(b))
    decreases |a|
  {
    if a == [] {
      assert a + "\r" + b == "\r" + b;
      TranslateLeadingReturn(b);
    } else {
      var rest := TranslateNewlines(AfterReturn(b));
      assert a[0] in a && '\r' !in a[1..];
      TranslateFirstReturn(a[1..], b);
      ConsSplit(a[0], a, "\r", b);
      TranslateLeadingPlain(a + "\r" + b, a[0], a[1..] + "\r" + b);
      ConsSplit(a[0], a, "\n", rest);
    }
  }

  // ---------------------------------------------------------------------
  // readlines()
  // ---------------------------------------------------------------------

  function Concat(ls: seq<string>): string {
    if ls == [] then [] else ls[0] + Concat(ls[1..])
  }

  /** A line as `readlines()` yields it: non-empty, with "\n" at most as its
      last character. */
  predicate IsLine(l: string) {
    l != [] && '\n' !in l[..|l| - 1]
  }

  /** `lines` cut `s` into lines: glued back they give `s`, every piece is a
      line, and every piece but the last ends in "\n". */
  predicate IsLineSplit(lines: seq<string>, s: string) {
    Concat(lines) == s
    && (forall i :: 0 <= i < |lines| ==> IsLine(lines[i]))
    && (forall i :: 0 <= i < |lines| - 1 ==> lines[i][|lines[i]| - 1] == '\n')
  }

  /** Length of the first line of `s`, its "\n" included. */
  function LineEnd(s: string): (k: nat)
    requires s != []
    ensures 0 < k <= |s|
    ensures '\n' !in s[..k - 1]
    ensures s[k - 1] == '\n' || k == |s|
    decreases |s|
  {
    if s[0] == '\n' || |s| == 1 then 1
    else
      var k := 1 + LineEnd(s[1..]);
      assert s[..k - 1] == [s[0]] + s[1..][..k - 2];
      k
  }

  lemma LineEndUnique(s: string, m: nat)
    requires 0 < m <= |s| && '\n' !in s[..m - 1] && (s[m - 1] == '\n' || m == |s|)
    ensures LineEnd(s) == m
  {
    var k := LineEnd(s);
  }

  /** Python's `file.readlines()` on text already in text mode. */
  function ReadLines(s: string): (lines: seq<string>)
    ensures IsLineSplit(lines, s)
    decreases |s|
  {
    if s == [] then []
    else
      var k := LineEnd(s);
      var rest := ReadLines(s[k..]);
      assert s[..k][..k - 1] == s[..k - 1];
      assert s[..k] + s[k..] == s;
      LineSplitCons(s[..k], rest, s[k..]);
      [s[..k]] + rest
  }

  /** A line put in front of a split, ended by "\n" unless it comes last. */
  lemma LineSplitCons(l: string, rest: seq<string>, t: string)
    requires IsLine(l) && IsLineSplit(rest, t)
    requires rest != [] ==> l[|l| - 1] == '\n'
    ensures IsLineSplit([l] + rest, l + t)
  {
    var lines := [l] + rest;
    assert lines[1..] == rest;
    forall i | 1 <= i < |lines| ensures lines[i] == rest[i - 1] { }
  }

  /** Only `readlines()` splits text this way: the split into lines is unique. */
  lemma {:induction false} LineSplitUnique(lines: seq<string>, s: string)
    requires IsLineSplit(lines, s)
    ensures lines == ReadLines(s)
    decreases |lines|
  {
    if lines != [] {
      var l := lines[0];
      assert s == l + Concat(lines[1..]);
      assert s[..|l|] == l;
      assert s[..|l| - 1] == l[..|l| - 1];
      if |lines| == 1 {
        assert Concat(lines[1..]) == [];
      }
      LineEndUnique(s, |l|);
      var tail := lines[1..];
      assert IsLineSplit(tail, s[|l|..]) by {
        forall i | 0 <= i < |tail| ensures IsLine(tail[i]) { assert tail[i] == lines[i + 1]; }
        forall i | 0 <= i < |tail| - 1 ensures tail[i][|tail[i]| - 1] == '\n' { assert tail[i] == lines[i + 1]; }
      }
      LineSplitUnique(tail, s[|l|..]);
    }
  }

  /** Number of occurrences of `c` in `s`. */
  function Count(c: char, s: string): nat {
    if s == [] then 0 else (if s[0] == c then 1 else 0) + Count(c, s[1..])
  }

  lemma {:induction false} CountAppend(c: char, a: string, b: string)
    ensures Count(c, a + b) == Count(c, a) + Count(c, b)
    decreases |a|
  {
    if a == [] {
      assert a + b == b;
    } else {
      assert (a + b)[1..] == a[1..] + b;
      CountAppend(c, a[1..], b);
    }
  }

  lemma {:induction false} CountAbsent(c: char, s: string)
    requires c !in s
    ensures Count(c, s) == 0
    decreases |s|
  {
    if s != [] {
      CountAbsent(c, s[1..]);
    }
  }

  /** A line holds one "\n" if it is terminated and none otherwise. */
  lemma CountLine(l: string)
    requires IsLine(l)
    ensures Count('\n', l) == if l[|l| - 1] == '\n' then 1 else 0
  {
    var body := l[..|l| - 1];
    assert l == body + [l[|l| - 1]];
    CountAbsent('\n', body);
    CountAppend('\n', body, [l[|l| - 1]]);
  }

  /** `readlines()` yields one line per "\n", plus one for a last line that
      has no "\n" of its own. */
  lemma {:induction false} LineCount(s: string)
    ensures |ReadLines(s)| == Count('\n', s) + (if s != [] && s[|s| - 1] != '\n' then 1 else 0)
    decreases |s|
  {
    if s != [] {
      var k := LineEnd(s);
      var head, tail := s[..k], s[k..];
      assert ReadLines(s) == [head] + ReadLines(tail);
      assert s == head + tail;
      CountAppend('\n', head, tail);
      CountLine(head);
      LineCount(tail);
      if k < |s| {
        assert tail[|tail| - 1] == s[|s| - 1];
      }
    }
  }

  // ---------------------------------------------------------------------
  // load_proxies
  // ---------------------------------------------------------------------

  /** The lines `load_proxies` strips: the file's text with its newlines
      translated, split by `readlines()`. */
  function FileLines(text: string): (lines: seq<string>)
    ensures IsLineSplit(lines, TranslateNewlines(text))
    ensures '\r' !in Concat(lines)
  {
    TranslateRemovesReturns(text);
    ReadLines(TranslateNewlines(text))
  }

  /** `load_proxies`: one entry per line of the file, in file order, each the
      line with the whitespace at both ends removed. */
  function LoadProxies(text: string): (proxies: seq<string>)
    ensures |proxies| == |FileLines(text)|
    ensures forall i :: 0 <= i < |proxies| ==> IsTrimOf(proxies[i], FileLines(text)[i])
  {
    var lines := FileLines(text);
    seq(|lines|, i requires 0 <= i < |lines| => Strip(lines[i]))
  }

  /** What a loaded proxy looks like: no whitespace at its ends and no "\n"
      or "\r" anywhere in it. */
  predicate Clean(p: string) {
    NoEdgeSpace(p) && '\n' !in p && '\r' !in p
  }

  lemma {:induction false} InConcat(ls: seq<string>, i: nat, c: char)
    requires i < |ls| && c in ls[i]
    ensures c in Concat(ls)
    decreases i
  {
    if i > 0 {
      assert ls[1..][i - 1] == ls[i];
      InConcat(ls[1..], i - 1, c);
    }
  }

  /** A trimmed line holds no "\n" or "\r": the "\n" that `readlines()` keeps
      is always cut off together with the other edge whitespace. */
  lemma TrimmedLineClean(r: string, l: string)
    requires IsLine(l) && '\r' !in l && IsTrimOf(r, l)
    ensures Clean(r)
  {
    var i :| TrimmedAt(r, l, i);
    forall k | 0 <= k < |r| ensures r[k] != '\n' && r[k] != '\r' {
      assert r[k] == l[i + k];
      if i + k < |l| - 1 {
        assert l[..|l| - 1][i + k] == l[i + k];
      } else {
        assert k == |r| - 1;
      }
    }
  }

  /** Every loaded proxy is clean. */
  lemma LoadedClean(text: string, i: nat)
    requires i < |LoadProxies(text)|
    ensures Clean(LoadProxies(text)[i])
  {
    var lines := FileLines(text);
    if '\r' in lines[i] {
      InConcat(lines, i, '\r');
      assert false;
    }
    TrimmedLineClean(LoadProxies(text)[i], lines[i]);
  }

  /** The text `save_proxy_to_file` writes for a sequence of proxies: each one
      followed by "\n". */
  function Records(ps: seq<string>): (rs: seq<string>)
    ensures |rs| == |ps|
    ensures forall i :: 0 <= i < |ps| ==> rs[i] == ps[i] + "\n"
  {
    seq(|ps|, i requires 0 <= i < |ps| => ps[i] + "\n")
  }

  lemma RecordsSnoc(ps: seq<string>, p: string)
    ensures Records(ps + [p]) == Records(ps) + [p + "\n"]
  {
    assert forall i :: 0 <= i < |ps| ==> (ps + [p])[i] == ps[i];
  }

  lemma {:induction false} RecordsNoReturn(ps: seq<string>)
    requires forall k :: 0 <= k < |ps| ==> Clean(ps[k])
    ensures '\r' !in Concat(Records(ps))
    decreases |ps|
  {
    if ps != [] {
      assert Records(ps)[1..] == Records(ps[1..]);
      RecordsNoReturn(ps[1..]);
    }
  }

  /** The records of clean proxies are lines: `readlines()` on the written
      text gives back exactly the records, one per proxy. */
  lemma RecordsReadBack(ps: seq<string>)
    requires forall k :: 0 <= k < |ps| ==> Clean(ps[k])
    ensures IsLineSplit(Records(ps), Concat(Records(ps)))
    ensures ReadLines(Concat(Records(ps))) == Records(ps)
  {
    var rs := Records(ps);
    forall i | 0 <= i < |rs| ensures IsLine(rs[i]) && rs[i][|rs[i]| - 1] == '\n' {
      assert rs[i][..|rs[i]| - 1] == ps[i];
    }
    LineSplitUnique(rs, Concat(rs));
  }

  /** Loading a file made of clean records gives back exactly the proxies that
      were written, in order. */
  lemma ReloadRecords(ps: seq<string>)
    requires forall k :: 0 <= k < |ps| ==> Clean(ps[k])
    ensures LoadProxies(Concat(Records(ps))) == ps
  {
    var rs := Records(ps);
    var t := Concat(rs);
    RecordsNoReturn(ps);
    assert TranslateNewlines(t) == t;
    RecordsReadBack(ps);
    var loaded := LoadProxies(t);
    forall i | 0 <= i < |ps| ensures loaded[i] == ps[i] {
      StripDropsAppendedSpace(ps[i], '\n');
    }
  }

  /** A line ended by "\r\n" is read as if it were ended by "\n". */
  lemma TranslateCrLf(p: string, rest: string)
    requires '\r' !in p
    ensures TranslateNewlines(p + "\r\n" + rest) == p + "\n" + TranslateNewlines(rest)
  {
    assert p + "\r\n" + rest == p + "\r" + ("\n" + rest);
    assert AfterReturn("\n" + rest) == rest;
    TranslateFirstReturn(p, "\n" + rest);
  }

  /** A last line ended by a lone "\r" is read as if it were ended by "\n". */
  lemma TranslateLastCr(q: string)
    requires '\r' !in q
    ensures TranslateNewlines(q + "\r") == q + "\n"
  {
    assert q + "\r" == q + "\r" + "";
    TranslateFirstReturn(q, "");
  }

  /** Two lines ended by "\r\n" and by a lone "\r" are read as if each
      were ended by "\n". */
  lemma TranslateMixedEndings(p: string, q: string)
    requires '\r' !in p && '\r' !in q
    ensures TranslateNewlines(p + "\r\n" + q + "\r") == p + "\n" + q + "\n"
  {
    assert p + "\r\n" + q + "\r" == p + "\r\n" + (q + "\r");
    TranslateCrLf(p, q + "\r");
    TranslateLastCr(q);
    assert p + "\n" + (q + "\n") == p + "\n" + q + "\n";
  }

  /** Line endings do not change what is loaded: two proxies ended by "\r\n"
      and by a lone "\r" load exactly as when each is ended by "\n". */
  lemma CarriageReturnsLoadAlike(p: string, q: string)
    requires Clean(p) && Clean(q)
    ensures LoadProxies(p + "\r\n" + q + "\r") == [p, q]
  {
    var unix := p + "\n" + q + "\n";
    TranslateMixedEndings(p, q);
    assert Concat(Records([p, q])) == unix by {
      assert Records([p, q]) == [p + "\n", q + "\n"];
      assert Concat([q + "\n"]) == q + "\n";
    }
    assert TranslateNewlines(unix) == unix;
    ReloadRecords([p, q]);
  }
}
