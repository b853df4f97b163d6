/** The Slurm node counter of `collect_compute_metrics`: the text printed by
    `sinfo --noheader --partition <queue>` becomes a number of active nodes.
    The output is stripped, cut into lines at '\n', and every line that is
    neither empty, nor powered down (`idle~`), nor shorter than four
    whitespace-separated fields adds `int` of its fourth field (the NODES
    column of sinfo's default format). An unparsable fourth field raises in
    the source; here it is `None`, and the whole count is `None`. */
module Sinfo {
  import opened Wrappers

  /** Python's `str.isspace()` for one character. */
  predicate IsSpace(c: char) {
    || c == ' '
    || ('\t' <= c <= '\r')
    || ('\U{1C}' <= c <= '\U{1F}')
    || c == '\U{85}' || c == '\U{A0}' || c == '\U{1680}'
    || ('\U{2000}' <= c <= '\U{200A}')
    || c == '\U{2028}' || c == '\U{2029}' || c == '\U{202F}' || c == '\U{205F}' || c == '\U{3000}'
  }

  predicate NoSpace(w: string) {
    forall i :: 0 <= i < |w| ==> !IsSpace(w[i])
  }

  // ---------------------------------------------------------------------
  // The string operations the counter uses
  // ---------------------------------------------------------------------

  /** Text made of whitespace only (in particular the empty text). */
  predicate Blank(s: string) {
    forall i :: 0 <= i < |s| ==> IsSpace(s[i])
  }

  /** `str.lstrip()`: the suffix left once the leading whitespace is gone. */
  function TrimStart(s: string): (r: string)
    ensures |r| <= |s| && r == s[|s| - |r|..]
    ensures Blank(s[..|s| - |r|])
    ensures |r| > 0 ==> !IsSpace(r[0])
    decreases |s|
  {
    if |s| > 0 && IsSpace(s[0]) then
      var r := TrimStart(s[1..]);
      assert s[..|s| - |r|] == [s[0]] + s[1..][..|s| - 1 - |r|];
      r
    else s
  }

  /** `str.rstrip()`: the prefix left once the trailing whitespace is gone. */
  function TrimEnd(s: string): (r: string)
    ensures |r| <= |s| && r == s[..|r|]
    ensures Blank(s[|r|..])
    ensures |r| > 0 ==> !IsSpace(r[|r| - 1])
    decreases |s|
  {
    if |s| > 0 && IsSpace(s[|s| - 1]) then
      var r := TrimEnd(s[..|s| - 1]);
      assert s[|r|..] == s[..|s| - 1][|r|..] + [s[|s| - 1]];
      r
    else s
  }

  /** `str.strip()`: the infix of the text that neither starts nor ends with
      whitespace and has only whitespace around it. */
  function Strip(s: string): (r: string)
    ensures |r| > 0 ==> !IsSpace(r[0]) && !IsSpace(r[|r| - 1])
    ensures exists i :: StrippedAt(s, r, i)
  {
    var t := TrimStart(s);
    var r := TrimEnd(t);
    var i := |s| - |t|;
    assert r == s[i..i + |r|];
    assert s[i + |r|..] == t[|r|..];
    assert StrippedAt(s, r, i);
    r
  }

  /** `r` stands at position `i` of `s` with only whitespace around it. */
  predicate StrippedAt(s: string, r: string, i: int) {
    0 <= i <= |s| - |r| && r == s[i..i + |r|] && Blank(s[..i]) && Blank(s[i + |r|..])
  }

  /** Python's `pat in s` on strings. */
  predicate Contains(s: string, pat: string)
    decreases |s|
  {
    pat <= s || (|s| > 0 && Contains(s[1..], pat))
  }

  /** A pattern occurs in any text built around it. */
  lemma {:induction false} ContainsInfix(a: string, pat: string, b: string)
    ensures Contains(a + pat + b, pat)
    decreases |a|
  {
    if |a| == 0 {
      assert a + pat + b == pat + b;
    } else {
      ContainsInfix(a[1..], pat, b);
      assert (a + pat + b)[1..] == a[1..] + pat + b;
    }
  }

  /** `pat` occurs in `s` starting at position `i`. */
  predicate OccursAt(s: string, pat: string, i: int) {
    0 <= i && i + |pat| <= |s| && s[i..i + |pat|] == pat
  }

  /** Where `pat in s` holds, the pattern occurs at some position of the text. */
  lemma {:induction false} ContainsOccurs(s: string, pat: string)
    requires Contains(s, pat)
    ensures exists i :: OccursAt(s, pat, i)
    decreases |s|
  {
    if pat <= s {
      assert s[0..|pat|] == pat;
      assert OccursAt(s, pat, 0);
    } else {
      ContainsOccurs(s[1..], pat);
      var i :| OccursAt(s[1..], pat, i);
      assert s[i + 1..i + 1 + |pat|] == s[1..][i..i + |pat|];
      assert OccursAt(s, pat, i + 1);
    }
  }

  /** A pattern that occurs at no position is not in the text. */
  lemma {:induction false} NoOccurrenceNotContained(s: string, pat: string)
    requires forall i :: !OccursAt(s, pat, i)
    ensures !Contains(s, pat)
    decreases |s|
  {
    if |pat| <= |s| {
      assert !OccursAt(s, pat, 0);
      assert s[..|pat|] != pat;
    }
    if |s| > 0 {
      forall i
        ensures !OccursAt(s[1..], pat, i)
      {
        if 0 <= i && i + |pat| <= |s| - 1 {
          assert s[1..][i..i + |pat|] == s[i + 1..i + 1 + |pat|];
          assert !OccursAt(s, pat, i + 1);
        }
      }
      NoOccurrenceNotContained(s[1..], pat);
    }
  }

  /** A pattern with a character the text lacks does not occur in it. */
  lemma {:induction false} MissingCharNotContained(s: string, pat: string, k: nat)
    requires k < |pat| && pat[k] !in s
    ensures !Contains(s, pat)
    decreases |s|
  {
    if |s| > 0 {
      assert pat[k] !in s[1..];
      MissingCharNotContained(s[1..], pat, k);
    }
  }

  /** `str.split(sep)` with an explicit separator: the text between
      separators, empty pieces kept, so that "" splits into [""]. */
  function SplitOn(s: string, sep: char): (pieces: seq<string>)
    ensures |pieces| > 0
    ensures forall i :: 0 <= i < |pieces| ==> sep !in pieces[i]
    decreases |s|
  {
    if |s| == 0 then [""]
    else
      var rest := SplitOn(s[1..], sep);
      if s[0] == sep then [""] + rest
      else [[s[0]] + rest[0]] + rest[1..]
  }

  /** `sep.join(pieces)`: the inverse of SplitOn. */
  function Join(pieces: seq<string>, sep: char): string
    requires |pieces| > 0
  {
    if |pieces| == 1 then pieces[0] else pieces[0] + [sep] + Join(pieces[1..], sep)
  }

  lemma JoinTwo(a: string, b: string, sep: char)
    ensures Join([a, b], sep) == a + [sep] + b
  {
    assert [a, b][1..] == [b];
  }

  /** Joining the pieces of a split gives back the text. */
  lemma {:induction false} JoinSplit(s: string, sep: char)
    ensures Join(SplitOn(s, sep), sep) == s
    decreases |s|
  {
    if |s| > 0 {
      JoinSplit(s[1..], sep);
      var rest := SplitOn(s[1..], sep);
      var pieces := SplitOn(s, sep);
      if s[0] != sep {
        if |rest| > 1 {
          assert pieces[1..] == rest[1..];
        }
      }
      assert s == [s[0]] + s[1..];
    }
  }

  /** Splitting a join gives back the pieces, when no piece holds the separator. */
  lemma {:induction false} SplitJoin(pieces: seq<string>, sep: char)
    requires |pieces| > 0
    requires forall i :: 0 <= i < |pieces| ==> sep !in pieces[i]
    ensures SplitOn(Join(pieces, sep), sep) == pieces
    decreases |pieces|
  {
    if |pieces| == 1 {
      SplitPlain(pieces[0], [], sep);
      assert pieces[0] + [] == pieces[0];
    } else {
      var tail := Join(pieces[1..], sep);
      SplitJoin(pieces[1..], sep);
      SplitPlain(pieces[0], [sep] + tail, sep);
      assert pieces[0] + [sep] + tail == pieces[0] + ([sep] + tail);
      assert ([sep] + tail)[1..] == tail;
      assert SplitOn([sep] + tail, sep) == [""] + pieces[1..];
      assert pieces[0] + "" == pieces[0];
      assert [pieces[0]] + pieces[1..] == pieces;
    }
  }

  /** A separator-free prefix glues onto the first piece of what follows. */
  lemma {:induction false} SplitPlain(w: string, t: string, sep: char)
    requires sep !in w
    ensures SplitOn(w + t, sep) == [w + SplitOn(t, sep)[0]] + SplitOn(t, sep)[1..]
    decreases |w|
  {
    if |w| > 0 {
      SplitPlain(w[1..], t, sep);
      assert (w + t)[1..] == w[1..] + t;
      assert [w[0]] + (w[1..] + SplitOn(t, sep)[0]) == w + SplitOn(t, sep)[0];
    } else {
      assert w + t == t;
      assert w + SplitOn(t, sep)[0] == SplitOn(t, sep)[0];
      assert SplitOn(t, sep) == [SplitOn(t, sep)[0]] + SplitOn(t, sep)[1..];
    }
  }

  /** `str.split()` without a separator: the maximal runs of non-whitespace. */
  function Fields(s: string): (fields: seq<string>)
    ensures forall k :: 0 <= k < |fields| ==> |fields[k]| > 0 && NoSpace(fields[k])
    ensures |s| > 0 && !IsSpace(s[0]) ==> |fields| > 0 && fields[0][0] == s[0]
    decreases |s|
  {
    if |s| == 0 then []
    else
      var rest := Fields(s[1..]);
      if IsSpace(s[0]) then rest
      else if |s| > 1 && !IsSpace(s[1]) then [[s[0]] + rest[0]] + rest[1..]
      else [[s[0]]] + rest
  }

  /** The words separated by single spaces: the inverse of Fields. */
  function Unwords(words: seq<string>): string {
    if |words| == 0 then ""
    else if |words| == 1 then words[0]
    else words[0] + " " + Unwords(words[1..])
  }

  lemma {:induction false} FieldsOfWord(w: string, t: string)
    requires |w| > 0 && NoSpace(w)
    requires t == [] || IsSpace(t[0])
    ensures Fields(w + t) == [w] + Fields(t)
    decreases |w|
  {
    assert (w + t)[1..] == w[1..] + t;
    if |w| > 1 {
      FieldsOfWord(w[1..], t);
      assert [w[0]] + w[1..] == w;
    } else {
      assert w[1..] + t == t;
      assert w == [w[0]];
      assert |t| > 0 ==> (w + t)[1] == t[0];
    }
  }

  /** Splitting space-joined words on whitespace gives back the words. */
  lemma {:induction false} FieldsUnwords(words: seq<string>)
    requires forall i :: 0 <= i < |words| ==> |words[i]| > 0 && NoSpace(words[i])
    ensures Fields(Unwords(words)) == words
    decreases |words|
  {
    if |words| == 1 {
      FieldsOfWord(words[0], []);
      assert words[0] + [] == words[0];
    } else if |words| > 1 {
      var rest := " " + Unwords(words[1..]);
      FieldsUnwords(words[1..]);
      FieldsOfWord(words[0], rest);
      assert words[0] + " " + Unwords(words[1..]) == words[0] + rest;
      assert rest[1..] == Unwords(words[1..]);
      assert [words[0]] + words[1..] == words;
    }
  }

  /** Words with the whitespace runs `gaps` between them, as sinfo pads its
      columns to width. */
  function Padded(words: seq<string>, gaps: seq<string>): string
    requires |gaps| + 1 == |words|
  {
    if |words| == 1 then words[0] else words[0] + gaps[0] + Padded(words[1..], gaps[1..])
  }

  /** Leading whitespace contributes no field. */
  lemma {:induction false} FieldsBlankPrefix(b: string, t: string)
    requires Blank(b)
    ensures Fields(b + t) == Fields(t)
    decreases |b|
  {
    if |b| == 0 {
      assert b + t == t;
    } else {
      FieldsBlankPrefix(b[1..], t);
      assert (b + t)[1..] == b[1..] + t;
    }
  }

  lemma {:induction false} FieldsPaddedTail(words: seq<string>, gaps: seq<string>, trail: string)
    requires |gaps| + 1 == |words|
    requires forall i :: 0 <= i < |words| ==> |words[i]| > 0 && NoSpace(words[i])
    requires forall i :: 0 <= i < |gaps| ==> |gaps[i]| > 0 && Blank(gaps[i])
    requires Blank(trail)
    ensures Fields(Padded(words, gaps) + trail) == words
    decreases |words|
  {
    if |words| == 1 {
      FieldsBlankPrefix(trail, []);
      assert trail + [] == trail;
      FieldsOfWord(words[0], trail);
    } else {
      var tail := Padded(words[1..], gaps[1..]) + trail;
      FieldsPaddedTail(words[1..], gaps[1..], trail);
      var gapTail := gaps[0] + tail;
      FieldsBlankPrefix(gaps[0], tail);
      assert gapTail[0] == gaps[0][0];
      FieldsOfWord(words[0], gapTail);
      PaddedStep(words, gaps, trail);
      assert [words[0]] + words[1..] == words;
    }
  }

  lemma PaddedStep(words: seq<string>, gaps: seq<string>, trail: string)
    requires |gaps| + 1 == |words| && |words| > 1
    ensures Padded(words, gaps) + trail == words[0] + (gaps[0] + (Padded(words[1..], gaps[1..]) + trail))
  {
  }

  /** `split()` of words separated by runs of whitespace of any length, with
      any whitespace before and after, gives back the words. */
  lemma FieldsOfPadded(lead: string, words: seq<string>, gaps: seq<string>, trail: string)
    requires |gaps| + 1 == |words|
    requires forall i :: 0 <= i < |words| ==> |words[i]| > 0 && NoSpace(words[i])
    requires forall i :: 0 <= i < |gaps| ==> |gaps[i]| > 0 && Blank(gaps[i])
    requires Blank(lead) && Blank(trail)
    ensures Fields(lead + Padded(words, gaps) + trail) == words
  {
    FieldsPaddedTail(words, gaps, trail);
    FieldsBlankPrefix(lead, Padded(words, gaps) + trail);
    assert lead + Padded(words, gaps) + trail == lead + (Padded(words, gaps) + trail);
  }

  // ---------------------------------------------------------------------
  // int() on the node-count field
  // ---------------------------------------------------------------------

  predicate IsDigit(c: char) {
    '0' <= c <= '9'
  }

  predicate AllDigits(s: string) {
    forall i :: 0 <= i < |s| ==> IsDigit(s[i])
  }

  function DigitsValue(s: string): nat
    requires AllDigits(s)
  {
    if |s| == 0 then 0
    else DigitsValue(s[..|s| - 1]) * 10 + (s[|s| - 1] as int - '0' as int)
  }

  /** `int(field)` on a field without whitespace: an optional sign and one or
      more ASCII decimal digits; `None` where `int()` raises ValueError. */
  function ParseInt(s: string): Option<int> {
    if |s| > 0 && (s[0] == '+' || s[0] == '-') then
      var n :- ParseNat(s[1..]);
      var m: int := n;
      var v := if s[0] == '-' then -m else m;
      Some(v)
    else
      var n :- ParseNat(s);
      Some(n)
  }

  function ParseNat(s: string): Option<nat> {
    if |s| > 0 && AllDigits(s) then Some(DigitsValue(s)) else None
  }

  function Digit(d: nat): char
    requires d < 10
  {
    ('0' as int + d) as char
  }

  /** `str(n)` for a natural number. */
  function ShowNat(n: nat): (s: string)
    ensures |s| > 0 && AllDigits(s)
  {
    if n < 10 then [Digit(n)] else ShowNat(n / 10) + [Digit(n % 10)]
  }

  /** `str(i)` for an integer. */
  function ShowInt(i: int): string {
    if i < 0 then "-" + ShowNat(-i) else ShowNat(i)
  }

  lemma {:induction false} DigitsOfShowNat(n: nat)
    ensures DigitsValue(ShowNat(n)) == n
  {
    var s := ShowNat(n);
    if n >= 10 {
      DigitsOfShowNat(n / 10);
      assert s[..|s| - 1] == ShowNat(n / 10);
    }
  }

  lemma NegativeShown(i: int)
    requires i < 0
    ensures ParseInt(ShowInt(i)) == Some(i)
  {
    var digits := ShowNat(-i);
    DigitsOfShowNat(-i);
    assert ShowInt(i) == "-" + digits;
    assert ("-" + digits)[0] == '-' && ("-" + digits)[1..] == digits;
    assert ParseNat(digits) == Some(-i);
  }

  /** int(str(i)) == i: the parser reads back every integer the program could print. */
  lemma ParseShowInt(i: int)
    ensures ParseInt(ShowInt(i)) == Some(i)
  {
    if i < 0 {
      NegativeShown(i);
    } else {
      DigitsOfShowNat(i);
    }
  }

  // ---------------------------------------------------------------------
  // The count
  // ---------------------------------------------------------------------

  /** The state label of a powered-down cloud node, which costs nothing. */
  const IdleMarker := "idle~"

  /** A line the counter passes over without reading its fourth field. */
  predicate Skipped(line: string) {
    line == "" || Contains(line, IdleMarker) || |Fields(line)| < 4
  }

  /** What one line adds to the count; `None` when `int()` raises on its fourth field. */
  function LineNodes(line: string): Option<int> {
    if line == "" || Contains(line, IdleMarker) then Some(0)
    else
      var parts := Fields(line);
      if |parts| < 4 then Some(0) else ParseInt(parts[3])
  }

  /** The running total of the loop over lines, first line first. */
  function SumLines(lines: seq<string>): Option<int> {
    if |lines| == 0 then Some(0)
    else
      var before :- SumLines(lines[..|lines| - 1]);
      var last :- LineNodes(lines[|lines| - 1]);
      Some(before + last)
  }

  /** The lines the loop visits: `stdout.strip().split('\n')`. */
  function Lines(stdout: string): seq<string> {
    SplitOn(Strip(stdout), '\n')
  }

  /** The active-node count of one sinfo output, `None` when the count raises. */
  function ActiveNodes(stdout: string): Option<int> {
    SumLines(Lines(stdout))
  }

  /** The loop of `collect_compute_metrics` over the lines of one sinfo output. */
  method CountLines(lines: seq<string>) returns (total: Option<int>)
    ensures total == SumLines(lines)
  {
    var nodes := 0;
    for i := 0 to |lines|
      invariant SumLines(lines[..i]) == Some(nodes)
    {
      var line := lines[i];
      SumLinesSnoc(lines, i);
      if line != "" && !Contains(line, IdleMarker) {
        var parts := Fields(line);
        if |parts| >= 4 {
          var n := ParseInt(parts[3]);
          if n.None? {
            AbortedPrefix(lines, i + 1);
            return None;
          }
          nodes := nodes + n.value;
        }
      }
    }
    assert lines[..|lines|] == lines;
    return Some(nodes);
  }

  /** The node count of one sinfo output, as `collect_compute_metrics` computes it. */
  method CountActiveNodes(stdout: string) returns (total: Option<int>)
    ensures total == ActiveNodes(stdout)
  {
    total := CountLines(SplitOn(Strip(stdout), '\n'));
  }

  // ---------------------------------------------------------------------
  // Properties of the count
  // ---------------------------------------------------------------------

  /** The count over two runs of lines is the sum of their counts; it raises if either raises. */
  lemma {:induction false} SumLinesAppend(a: seq<string>, b: seq<string>)
    ensures SumLines(a + b) ==
      if SumLines(a).Some? && SumLines(b).Some? then Some(SumLines(a).value + SumLines(b).value) else None
    decreases |b|
  {
    if |b| == 0 {
      assert a + b == a;
    } else {
      var b' := b[..|b| - 1];
      SumLinesAppend(a, b');
      assert (a + b)[..|a + b| - 1] == a + b';
      assert (a + b)[|a + b| - 1] == b[|b| - 1];
    }
  }

  lemma SumLinesSnoc(lines: seq<string>, i: nat)
    requires i < |lines|
    ensures SumLines(lines[..i + 1]) ==
      if SumLines(lines[..i]).Some? && LineNodes(lines[i]).Some?
      then Some(SumLines(lines[..i]).value + LineNodes(lines[i]).value) else None
  {
    assert lines[..i + 1][..i] == lines[..i];
  }

  /** Once the loop has raised on a prefix of the lines, the whole count raises. */
  lemma AbortedPrefix(lines: seq<string>, i: nat)
    requires i <= |lines|
    requires SumLines(lines[..i]) == None
    ensures SumLines(lines) == None
  {
    SumLinesAppend(lines[..i], lines[i..]);
    assert lines[..i] + lines[i..] == lines;
  }

  /** An empty line, a line containing `idle~` anywhere, or a line of fewer
      than four fields adds nothing, wherever it stands. */
  lemma SkippedLineAddsNothing(a: seq<string>, line: string, b: seq<string>)
    requires Skipped(line)
    ensures SumLines(a + [line] + b) == SumLines(a + b)
  {
    SumLinesAppend(a + [line], b);
    SumLinesAppend(a, [line]);
    SumLinesAppend(a, b);
    assert [line][..0] == [];
  }

  /** The lines that are counted, in order. */
  function Counted(lines: seq<string>): seq<string> {
    if |lines| == 0 then []
    else (if Skipped(lines[0]) then [] else [lines[0]]) + Counted(lines[1..])
  }

  /** Sum of `int(line.split()[3])` over lines each of which has four fields. */
  function SumFourthFields(lines: seq<string>): Option<int> {
    if |lines| == 0 then Some(0)
    else if |Fields(lines[0])| < 4 then SumFourthFields(lines[1..])
    else
      var first :- ParseInt(Fields(lines[0])[3]);
      var rest :- SumFourthFields(lines[1..]);
      Some(first + rest)
  }

  /** The loop's total equals the sum of the fourth fields of the counted lines
      (and raises exactly when one of those fields is not an integer). */
  lemma {:induction false} SumLinesIsSumOfCounted(lines: seq<string>)
    ensures SumLines(lines) == SumFourthFields(Counted(lines))
    decreases |lines|
  {
    if |lines| > 0 {
      SumLinesIsSumOfCounted(lines[1..]);
      SumLinesAppend([lines[0]], lines[1..]);
      assert [lines[0]] + lines[1..] == lines;
      assert [lines[0]][..0] == [];
      var rest := Counted(lines[1..]);
      assert SumLines([lines[0]]) == LineNodes(lines[0]);
      if !Skipped(lines[0]) {
        var c := Counted(lines);
        assert LineNodes(lines[0]) == ParseInt(Fields(lines[0])[3]);
        assert c == [lines[0]] + rest;
        assert c[0] == lines[0] && c[1..] == rest;
        assert |Fields(c[0])| >= 4;
        assert SumFourthFields(c) ==
          if ParseInt(Fields(lines[0])[3]).Some? && SumFourthFields(rest).Some?
          then Some(ParseInt(Fields(lines[0])[3]).value + SumFourthFields(rest).value) else None;
      } else {
        assert Counted(lines) == rest;
      }
    }
  }

  lemma {:induction false} TrimBlank(s: string)
    requires Blank(s)
    ensures TrimStart(s) == []
    decreases |s|
  {
    if |s| > 0 {
      TrimBlank(s[1..]);
    }
  }

  /** Output made only of whitespace (in particular empty output) counts zero nodes. */
  lemma BlankOutputCountsZero(stdout: string)
    requires Blank(stdout)
    ensures ActiveNodes(stdout) == Some(0)
  {
    TrimBlank(stdout);
    assert Strip(stdout) == [];
    assert Lines(stdout) == [""];
    assert [""][..0] == [];
    assert SumLines([""]) == Some(0);
  }

  /** Output whose every line is skipped counts zero nodes. */
  lemma AllSkippedCountsZero(stdout: string)
    requires forall i :: 0 <= i < |Lines(stdout)| ==> Skipped(Lines(stdout)[i])
    ensures ActiveNodes(stdout) == Some(0)
  {
    NothingCounted(Lines(stdout));
    SumLinesIsSumOfCounted(Lines(stdout));
  }

  lemma {:induction false} NothingCounted(lines: seq<string>)
    requires forall i :: 0 <= i < |lines| ==> Skipped(lines[i])
    ensures Counted(lines) == []
    decreases |lines|
  {
    if |lines| > 0 {
      NothingCounted(lines[1..]);
    }
  }

  // ---------------------------------------------------------------------
  // Two outputs worked through
  // ---------------------------------------------------------------------

  lemma {:induction false} TrimEndBlankSuffix(body: string, tail: string)
    requires Blank(tail)
    ensures TrimEnd(body + tail) == TrimEnd(body)
    decreases |tail|
  {
    if |tail| == 0 {
      assert body + tail == body;
    } else {
      var t := tail[..|tail| - 1];
      assert (body + tail)[..|body + tail| - 1] == body + t;
      TrimEndBlankSuffix(body, t);
    }
  }

  /** Two lines of text, followed by any trailing whitespace, are visited as exactly those two lines. */
  lemma TwoLines(l1: string, l2: string, tail: string)
    requires |l1| > 0 && !IsSpace(l1[0]) && |l2| > 0 && !IsSpace(l2[|l2| - 1])
    requires '\n' !in l1 && '\n' !in l2
    requires Blank(tail)
    ensures Lines(l1 + "\n" + l2 + tail) == [l1, l2]
  {
    var body := l1 + "\n" + l2;
    JoinTwo(l1, l2, '\n');
    assert TrimStart(body + tail) == body + tail;
    TrimEndBlankSuffix(body, tail);
    assert body[|body| - 1] == l2[|l2| - 1];
    SplitJoin([l1, l2], '\n');
  }

  lemma PoweredDownLine(prefix: string, suffix: string)
    ensures LineNodes(prefix + IdleMarker + suffix) == Some(0)
  {
    ContainsInfix(prefix, IdleMarker, suffix);
  }

  /** A line of at least four words, none of them holding '~', adds `int` of its fourth word. */
  lemma WordsLine(words: seq<string>)
    requires |words| >= 4
    requires forall i :: 0 <= i < |words| ==> |words[i]| > 0 && NoSpace(words[i])
    requires '~' !in Unwords(words)
    ensures LineNodes(Unwords(words)) == ParseInt(words[3])
  {
    FieldsUnwords(words);
    MissingCharNotContained(Unwords(words), IdleMarker, 4);
  }

  /** A line of sinfo's padded columns, at least four of them, that does not
      hold `idle~` adds `int` of its fourth column. */
  lemma ColumnsLine(lead: string, words: seq<string>, gaps: seq<string>, trail: string)
    requires |gaps| + 1 == |words| && |words| >= 4
    requires forall i :: 0 <= i < |words| ==> |words[i]| > 0 && NoSpace(words[i])
    requires forall i :: 0 <= i < |gaps| ==> |gaps[i]| > 0 && Blank(gaps[i])
    requires Blank(lead) && Blank(trail)
    requires !Contains(lead + Padded(words, gaps) + trail, IdleMarker)
    ensures LineNodes(lead + Padded(words, gaps) + trail) == ParseInt(words[3])
  {
    FieldsOfPadded(lead, words, gaps, trail);
  }

  /** A state word ending in '~' other than `idle~` (such as `down~`) does not
      put `idle~` into its line, when it starts a word and the rest of the
      line holds no '~'. */
  lemma TildeWordIsNotIdle(prefix: string, state: string, suffix: string)
    requires '~' !in prefix && '~' !in suffix
    requires |prefix| == 0 || IsSpace(prefix[|prefix| - 1])
    requires |state| > 0 && state[|state| - 1] == '~' && '~' !in state[..|state| - 1]
    requires |state| < |IdleMarker| || state[|state| - |IdleMarker|..] != IdleMarker
    ensures !Contains(prefix + state + suffix, IdleMarker)
  {
    var line := prefix + state + suffix;
    var p, n := |prefix|, |state|;
    forall i
      ensures !OccursAt(line, IdleMarker, i)
    {
      if 0 <= i && i + 5 <= |line| {
        var k := i + 4;
        if k < p {
          assert line[k] == prefix[k];
        } else if k >= p + n {
          assert line[k] == suffix[k - p - n];
        } else if k < p + n - 1 {
          assert line[k] == state[..n - 1][k - p];
        } else if i >= p {
          assert line[i..i + 5] == state[n - 5..];
        } else {
          assert line[p - 1] == prefix[p - 1];
          assert line[i..i + 5][p - 1 - i] == line[p - 1];
        }
      }
    }
    NoOccurrenceNotContained(line, IdleMarker);
  }

  lemma UnwordsCons(w: string, rest: seq<string>)
    requires |rest| > 0
    ensures Unwords([w] + rest) == w + " " + Unwords(rest)
  {
    assert ([w] + rest)[1..] == rest;
  }

  lemma AllocatedWords()
    ensures Unwords(["q", "up", "inf", "2", "alloc", "n1"]) == "q up inf 2 alloc n1"
  {
    var w5 := ["n1"];
    var w4 := ["alloc"] + w5;
    var w3 := ["2"] + w4;
    var w2 := ["inf"] + w3;
    var w1 := ["up"] + w2;
    UnwordsCons("alloc", w5);
    assert Unwords(w4) == "alloc n1";
    UnwordsCons("2", w4);
    assert Unwords(w3) == "2 alloc n1";
    UnwordsCons("inf", w3);
    assert Unwords(w2) == "inf 2 alloc n1";
    UnwordsCons("up", w2);
    assert Unwords(w1) == "up inf 2 alloc n1";
    UnwordsCons("q", w1);
    assert ["q"] + w1 == ["q", "up", "inf", "2", "alloc", "n1"];
  }

  lemma AllocatedLine(line: string)
    requires line == "q up inf 2 alloc n1"
    ensures LineNodes(line) == Some(2)
  {
    var w := ["q", "up", "inf", "2", "alloc", "n1"];
    AllocatedWords();
    WordsLine(w);
    assert ParseInt(w[3]) == Some(2);
  }

  lemma StateColumnWords()
    ensures Unwords(["queue1", "up", "2", "idle", "2/0/0/2"]) == "queue1 up 2 idle 2/0/0/2"
  {
    var w4 := ["2/0/0/2"];
    var w3 := ["idle"] + w4;
    var w2 := ["2"] + w3;
    var w1 := ["up"] + w2;
    UnwordsCons("idle", w4);
    assert Unwords(w3) == "idle 2/0/0/2";
    UnwordsCons("2", w3);
    assert Unwords(w2) == "2 idle 2/0/0/2";
    UnwordsCons("up", w2);
    assert Unwords(w1) == "up 2 idle 2/0/0/2";
    UnwordsCons("queue1", w1);
    assert ["queue1"] + w1 == ["queue1", "up", "2", "idle", "2/0/0/2"];
  }

  lemma StateColumnLine(line: string)
    requires line == "queue1 up 2 idle 2/0/0/2"
    ensures LineNodes(line) == None
  {
    var w := ["queue1", "up", "2", "idle", "2/0/0/2"];
    StateColumnWords();
    WordsLine(w);
    assert ParseInt(w[3]) == None;
  }

  lemma DownWords()
    ensures Unwords(["q", "up", "inf", "1", "down~", "n3"]) == "q up inf 1 down~ n3"
  {
    var w5 := ["n3"];
    var w4 := ["down~"] + w5;
    var w3 := ["1"] + w4;
    var w2 := ["inf"] + w3;
    var w1 := ["up"] + w2;
    UnwordsCons("down~", w5);
    assert Unwords(w4) == "down~ n3";
    UnwordsCons("1", w4);
    assert Unwords(w3) == "1 down~ n3";
    UnwordsCons("inf", w3);
    assert Unwords(w2) == "inf 1 down~ n3";
    UnwordsCons("up", w2);
    assert Unwords(w1) == "up inf 1 down~ n3";
    UnwordsCons("q", w1);
    assert ["q"] + w1 == ["q", "up", "inf", "1", "down~", "n3"];
  }

  lemma DownLineFields(line: string)
    requires line == "q up inf 1 down~ n3"
    ensures Fields(line) == ["q", "up", "inf", "1", "down~", "n3"]
  {
    DownWords();
    FieldsUnwords(["q", "up", "inf", "1", "down~", "n3"]);
  }

  lemma DownLineNotIdle(line: string)
    requires line == "q up inf 1 down~ n3"
    ensures !Contains(line, IdleMarker)
  {
    assert line == "q up inf 1 " + "down~" + " n3";
    TildeWordIsNotIdle("q up inf 1 ", "down~", " n3");
  }

  /** A node powered down in another state than idle (`down~`) is counted:
      the line holds '~' but not `idle~`. */
  lemma DownStateLine(line: string)
    requires line == "q up inf 1 down~ n3"
    ensures LineNodes(line) == Some(1)
  {
    DownLineFields(line);
    DownLineNotIdle(line);
    assert ParseInt("1") == Some(1);
  }

  /** Output in sinfo's default column order (PARTITION AVAIL TIMELIMIT NODES
      STATE NODELIST): the two allocated nodes count, the eight powered-down
      ones do not. */
  lemma DefaultFormatCountsAllocatedNodes(l1: string, l2: string, stdout: string)
    requires l1 == "q up inf 2 alloc n1" && l2 == "q up inf 8 idle~ n2"
    requires stdout == l1 + "\n" + l2 + "\n"
    ensures ActiveNodes(stdout) == Some(2)
  {
    TwoLines(l1, l2, "\n");
    AllocatedLine(l1);
    assert l2 == "q up inf 8 " + IdleMarker + " n2";
    PoweredDownLine("q up inf 8 ", " n2");
    assert [l1][..0] == [];
    assert SumLines([l1]) == Some(2);
    assert [l1, l2][..1] == [l1];
    assert SumLines([l1, l2]) == Some(2);
  }

  /** Wherever it stands, a line that is not skipped and whose fourth field is
      the state word "idle" makes `int()` raise, so the whole count raises. */
  lemma StateWordAborts(a: seq<string>, line: string, b: seq<string>)
    requires line != "" && !Contains(line, IdleMarker)
    requires |Fields(line)| >= 4 && Fields(line)[3] == "idle"
    ensures SumLines(a + [line] + b) == None
  {
    assert ParseInt("idle") == None;
    SumLinesAppend(a + [line], b);
    SumLinesAppend(a, [line]);
  }

  /** With the STATE label in the fourth column, the fourth field of a line that
      is not powered down is a word such as "idle": `int()` raises and the count
      is abandoned; the trailing "2/0/0/2" column is never read. */
  lemma StateInFourthColumnAborts(l1: string, l2: string, stdout: string)
    requires l1 == "queue1 up 2 idle~ 3/0/0/3" && l2 == "queue1 up 2 idle 2/0/0/2"
    requires stdout == l1 + "\n" + l2
    ensures ActiveNodes(stdout) == None
  {
    assert stdout == l1 + "\n" + l2 + "";
    TwoLines(l1, l2, "");
    assert l1 == "queue1 up 2 " + IdleMarker + " 3/0/0/3";
    PoweredDownLine("queue1 up 2 ", " 3/0/0/3");
    StateColumnLine(l2);
    assert [l1][..0] == [];
    assert SumLines([l1]) == Some(0);
    assert [l1, l2][..1] == [l1];
  }
}
