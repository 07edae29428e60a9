/**
 * `ContentNormalizer` of `ingestion/content_normalizer.py`: the text of a repository
 * file is cleaned before chunking (runs of blank lines shortened to two, trailing
 * whitespace removed from every line, the whole text stripped), and its metadata
 * record is built.
 */
module ContentNormalizer {
  import opened Wrappers
  import opened Text
  import opened RepoContent

  // ------------------------------------------------------------- blank-line runs

  /** The length of the run of blank lines that ends just before index `n`: the value of
      `blank_count` once `n` lines have been seen. */
  function BlanksBefore(lines: seq<string>, n: nat): nat
    requires n <= |lines|
  {
    if n == 0 || !Blank(lines[n - 1]) then 0 else BlanksBefore(lines, n - 1) + 1
  }

  /** The rule the blank-line loop applies: a line is kept unless it is blank and so are the
      two lines before it. */
  predicate KeepLine(lines: seq<string>, j: nat)
    requires j < |lines|
  {
    !Blank(lines[j]) || j < 2 || !Blank(lines[j - 1]) || !Blank(lines[j - 2])
  }

  /** The lines among the first `n` that the rule keeps, in order. */
  function Collapse(lines: seq<string>, n: nat): seq<string>
    requires n <= |lines|
  {
    if n == 0 then [] else Collapse(lines, n - 1) + if KeepLine(lines, n - 1) then [lines[n - 1]] else []
  }

  /** `[line.rstrip() for line in lines]`. */
  function RStripAll(lines: seq<string>): (r: seq<string>)
    ensures |r| == |lines|
  {
    seq(|lines|, k requires 0 <= k < |lines| => RStrip(lines[k]))
  }

  /** What `normalize_content` returns for `content`. */
  function Normalized(content: string): string {
    if content == "" then ""
    else
      var lines := Split(content, '\n');
      var collapsed := Join("\n", Collapse(lines, |lines|));
      var trimmed := Join("\n", RStripAll(Split(collapsed, '\n')));
      Strip(trimmed)
  }

  /** The blank-line counter decides as the rule does. */
  lemma KeepLineByCount(lines: seq<string>, j: nat)
    requires j < |lines|
    ensures KeepLine(lines, j) <==> !Blank(lines[j]) || BlanksBefore(lines, j) < 2
  {
    if j >= 1 && Blank(lines[j - 1]) {
      assert BlanksBefore(lines, j) == BlanksBefore(lines, j - 1) + 1;
    }
  }

  /** `normalize_content(content, file_path)`; the path is not used. */
  method NormalizeContent(content: string, filePath: string) returns (normalized: string)
    ensures normalized == Normalized(content)
  {
    if content == "" {
      return "";
    }
    var lines := Split(content, '\n');
    var normalizedLines := [];
    var blankCount := 0;
    for i := 0 to |lines|
      invariant normalizedLines == Collapse(lines, i) && blankCount == BlanksBefore(lines, i)
    {
      var line := lines[i];
      KeepLineByCount(lines, i);
      if Strip(line) == "" {
        blankCount := blankCount + 1;
        if blankCount <= 2 {
          normalizedLines := normalizedLines + [line];
        }
      } else {
        blankCount := 0;
        normalizedLines := normalizedLines + [line];
      }
    }
    normalized := Join("\n", normalizedLines);
    normalized := Join("\n", RStripAll(Split(normalized, '\n')));
    normalized := Strip(normalized);
  }

  // ------------------------------------------------------------- what the rule keeps

  /** The collapsed lines are the lines the rule keeps, unchanged and in order: collapsed line
      `k` is line `idx[k]`, the indices increase, and they are exactly the indices the rule
      keeps. So every non-blank line is kept, and of each run of blank lines the first two. */
  lemma {:induction false} CollapseIsOrderedFilter(lines: seq<string>, n: nat) returns (idx: seq<nat>)
    requires n <= |lines|
    ensures |idx| == |Collapse(lines, n)|
    ensures forall k :: 0 <= k < |idx| ==> idx[k] < n && Collapse(lines, n)[k] == lines[idx[k]]
    ensures forall k, l :: 0 <= k < l < |idx| ==> idx[k] < idx[l]
    ensures forall j :: 0 <= j < n ==> (j in idx <==> KeepLine(lines, j))
  {
    if n == 0 {
      idx := [];
    } else {
      var pidx := CollapseIsOrderedFilter(lines, n - 1);
      if KeepLine(lines, n - 1) {
        idx := pidx + [n - 1];
        assert Collapse(lines, n) == Collapse(lines, n - 1) + [lines[n - 1]];
      } else {
        idx := pidx;
      }
    }
  }

  lemma {:induction false} CollapseMembers(lines: seq<string>, n: nat)
    requires n <= |lines|
    ensures forall l :: l in Collapse(lines, n) ==> l in lines
    ensures n >= 1 ==> |Collapse(lines, n)| >= 1
  {
    if n > 0 {
      CollapseMembers(lines, n - 1);
    }
  }

  /** A rule that keeps every line leaves the lines as they are. */
  lemma {:induction false} CollapseKeepsAll(lines: seq<string>, n: nat)
    requires n <= |lines|
    requires forall j :: 0 <= j < n ==> KeepLine(lines, j)
    ensures Collapse(lines, n) == lines[..n]
  {
    if n > 0 {
      CollapseKeepsAll(lines, n - 1);
      assert lines[..n] == lines[..n - 1] + [lines[n - 1]];
    }
  }

  /** The rule keeps no line that was not there: a line without a newline stays so. */
  lemma {:induction false} CollapseNoNewline(lines: seq<string>, n: nat)
    requires n <= |lines| && NoNewline(lines)
    ensures NoNewline(Collapse(lines, n))
  {
    if n > 0 {
      CollapseNoNewline(lines, n - 1);
    }
  }

  /** Every line is blank. */
  predicate AllBlank(lines: seq<string>) {
    forall k :: 0 <= k < |lines| ==> Blank(lines[k])
  }

  lemma AllBlankSnoc(lines: seq<string>, x: string)
    ensures AllBlank(lines + [x]) <==> AllBlank(lines) && Blank(x)
  {
    var t := lines + [x];
    assert forall k :: 0 <= k < |lines| ==> t[k] == lines[k];
    assert t[|lines|] == x;
  }

  /** The kept lines are all blank exactly when all the lines are (non-blank lines are always kept). */
  lemma {:induction false} CollapseAllBlank(lines: seq<string>, n: nat)
    requires n <= |lines|
    ensures AllBlank(Collapse(lines, n)) <==> AllBlank(lines[..n])
  {
    if n > 0 {
      CollapseAllBlank(lines, n - 1);
      var c := Collapse(lines, n - 1);
      assert lines[..n] == lines[..n - 1] + [lines[n - 1]];
      AllBlankSnoc(lines[..n - 1], lines[n - 1]);
      if KeepLine(lines, n - 1) {
        assert Collapse(lines, n) == c + [lines[n - 1]];
        AllBlankSnoc(c, lines[n - 1]);
      } else {
        assert Collapse(lines, n) == c;
      }
    }
  }

  // ------------------------------------------------------------- shapes of line lists

  /** Lines `k`, `k + 1` and `k + 2` are all blank. */
  predicate ThreeBlanks(lines: seq<string>, k: nat)
    requires k + 2 < |lines|
  {
    Blank(lines[k]) && Blank(lines[k + 1]) && Blank(lines[k + 2])
  }

  /** No three consecutive lines are blank. */
  predicate FewBlanks(lines: seq<string>) {
    forall k: nat :: k + 2 < |lines| ==> !ThreeBlanks(lines, k)
  }

  /** The number of blank lines at the end. */
  function TrailingBlanks(lines: seq<string>): nat {
    if lines == [] || !Blank(lines[|lines| - 1]) then 0 else TrailingBlanks(lines[..|lines| - 1]) + 1
  }

  /** A line with no trailing whitespace. */
  predicate Tight(line: string) {
    line == [] || !IsSpace(line[|line| - 1])
  }

  predicate AllTight(lines: seq<string>) {
    forall k :: 0 <= k < |lines| ==> Tight(lines[k])
  }

  predicate NoNewline(lines: seq<string>) {
    forall k :: 0 <= k < |lines| ==> '\n' !in lines[k]
  }

  predicate LinesOK(lines: seq<string>) {
    NoNewline(lines) && AllTight(lines) && FewBlanks(lines)
  }

  /** The lines of a normalized text: at least one, none containing a newline, none ending
      in whitespace, never three blank ones in a row, and either a single empty line or a
      first line starting and a last line ending with non-whitespace. */
  predicate NormalLines(lines: seq<string>) {
    && |lines| >= 1
    && LinesOK(lines)
    && (lines == [""] || (lines[0] != [] && !IsSpace(lines[0][0]) && lines[|lines| - 1] != []))
  }

  lemma FewBlanksSnoc(lines: seq<string>, x: string)
    requires FewBlanks(lines)
    requires Blank(x) ==> TrailingBlanks(lines) < 2
    ensures FewBlanks(lines + [x])
    ensures TrailingBlanks(lines + [x]) == if Blank(x) then TrailingBlanks(lines) + 1 else 0
  {
    var t := lines + [x];
    assert t[..|t| - 1] == lines;
    forall k: nat | k + 2 < |t|
      ensures !ThreeBlanks(t, k)
    {
      if k + 2 < |lines| {
        assert !ThreeBlanks(lines, k);
      } else {
        assert t[k] == lines[|lines| - 2] && t[k + 1] == lines[|lines| - 1] && t[k + 2] == x;
        if Blank(x) {
          FewTrailing(lines);
        }
      }
    }
  }

  /** Fewer than two trailing blanks: one of the last two lines is not blank. */
  lemma FewTrailing(lines: seq<string>)
    requires |lines| >= 2 && TrailingBlanks(lines) < 2
    ensures !Blank(lines[|lines| - 1]) || !Blank(lines[|lines| - 2])
  {
    var p := lines[..|lines| - 1];
    assert p[|p| - 1] == lines[|lines| - 2];
  }

  /** After the rule, no three blank lines are adjacent, and the collapsed lines end with as
      many blank lines as the input run, but at most two. */
  lemma {:induction false} CollapseFew(lines: seq<string>, n: nat)
    requires n <= |lines|
    ensures FewBlanks(Collapse(lines, n))
    ensures TrailingBlanks(Collapse(lines, n)) == if BlanksBefore(lines, n) < 2 then BlanksBefore(lines, n) else 2
  {
    if n > 0 {
      CollapseFew(lines, n - 1);
      KeepLineByCount(lines, n - 1);
      var c := Collapse(lines, n - 1);
      if Blank(lines[n - 1]) {
        assert BlanksBefore(lines, n) == BlanksBefore(lines, n - 1) + 1;
      }
      if KeepLine(lines, n - 1) {
        assert Collapse(lines, n) == c + [lines[n - 1]];
        FewBlanksSnoc(c, lines[n - 1]);
      } else {
        assert Collapse(lines, n) == c;
      }
    }
  }

  lemma LinesOKPrefix(lines: seq<string>, b: nat)
    requires LinesOK(lines) && b <= |lines|
    ensures LinesOK(lines[..b])
  {
    var s := lines[..b];
    assert forall k :: 0 <= k < |s| ==> s[k] == lines[k];
    forall k: nat | k + 2 < |s|
      ensures !ThreeBlanks(s, k)
    {
      assert !ThreeBlanks(lines, k);
    }
  }

  lemma LinesOKSuffix(lines: seq<string>, a: nat)
    requires LinesOK(lines) && a <= |lines|
    ensures LinesOK(lines[a..])
  {
    var s := lines[a..];
    assert forall k :: 0 <= k < |s| ==> s[k] == lines[a + k];
    forall k: nat | k + 2 < |s|
      ensures !ThreeBlanks(s, k)
    {
      assert !ThreeBlanks(lines, a + k);
    }
  }

  lemma RStripAllOK(lines: seq<string>)
    requires NoNewline(lines) && FewBlanks(lines)
    ensures LinesOK(RStripAll(lines))
  {
    var r := RStripAll(lines);
    forall k | 0 <= k < |lines|
      ensures Blank(r[k]) <==> Blank(lines[k])
      ensures '\n' !in r[k]
    {
      RStripEmptyIffBlank(lines[k]);
      assert r[k] == lines[k][..|r[k]|];
    }
    forall k: nat | k + 2 < |r|
      ensures !ThreeBlanks(r, k)
    {
      assert !ThreeBlanks(lines, k);
    }
  }

  lemma RStripAllTight(lines: seq<string>)
    requires AllTight(lines)
    ensures RStripAll(lines) == lines
  {
    forall k | 0 <= k < |lines|
      ensures RStripAll(lines)[k] == lines[k]
    {
      RStripOfNonSpace(lines[k]);
    }
  }

  // ------------------------------------------------------------- the final strip

  /** The lines up to the last one that is not empty (at least one line). */
  function DropBack(lines: seq<string>): (r: seq<string>)
    requires |lines| >= 1
    ensures 1 <= |r| <= |lines| && r == lines[..|r|]
    ensures |r| == 1 || r[|r| - 1] != []
  {
    if |lines| > 1 && lines[|lines| - 1] == [] then DropBack(lines[..|lines| - 1]) else lines
  }

  /** The lines from the first one that is not empty on (at least one line). */
  function DropFront(lines: seq<string>): (r: seq<string>)
    requires |lines| >= 1
    ensures 1 <= |r| <= |lines| && r == lines[|lines| - |r|..] && r[|r| - 1] == lines[|lines| - 1]
    ensures |r| == 1 || r[0] != []
  {
    if |lines| > 1 && lines[0] == [] then DropFront(lines[1..]) else lines
  }

  /** What `lstrip()` leaves of the joined lines, as lines. */
  function Front(lines: seq<string>): seq<string>
    requires |lines| >= 1
  {
    var d := DropFront(lines);
    [LStrip(d[0])] + d[1..]
  }

  /** `rstrip()` of joined tight lines drops the empty lines at the end. */
  lemma {:induction false} RStripJoin(lines: seq<string>)
    requires |lines| >= 1 && AllTight(lines)
    ensures RStrip(Join("\n", lines)) == Join("\n", DropBack(lines))
    decreases |lines|
  {
    var n := |lines|;
    var j := Join("\n", lines);
    if n > 1 && lines[n - 1] == [] {
      var p := lines[..n - 1];
      assert lines == p + [[]];
      JoinAppend("\n", p, []);
      assert j == Join("\n", p) + ['\n'];
      RStripAppendSpace(Join("\n", p), '\n');
      assert AllTight(p) by {
        assert forall k :: 0 <= k < |p| ==> p[k] == lines[k];
      }
      RStripJoin(p);
    } else {
      JoinEnds("\n", lines);
      if lines[n - 1] != [] {
        assert j[|j| - 1] == lines[n - 1][|lines[n - 1]| - 1];
      } else {
        assert j == [];
      }
      RStripOfNonSpace(j);
    }
  }

  /** `lstrip()` of joined tight lines drops the empty lines at the front and strips the
      first line left. */
  lemma {:induction false} LStripJoin(lines: seq<string>)
    requires |lines| >= 1 && AllTight(lines)
    ensures LStrip(Join("\n", lines)) == Join("\n", Front(lines))
    decreases |lines|
  {
    if |lines| > 1 && lines[0] == [] {
      var rest := lines[1..];
      assert AllTight(rest) by {
        assert forall k :: 0 <= k < |rest| ==> rest[k] == lines[k + 1];
      }
      LStripJoinEmptyFirst(lines);
      LStripJoin(rest);
    } else if lines[0] != [] {
      assert Tight(lines[0]);
      LStripJoinFirst(lines);
    }
  }

  lemma LStripJoinEmptyFirst(lines: seq<string>)
    requires |lines| > 1 && lines[0] == []
    ensures LStrip(Join("\n", lines)) == LStrip(Join("\n", lines[1..]))
  {
    assert Join("\n", lines) == ['\n'] + Join("\n", lines[1..]);
    LStripPrependSpace('\n', Join("\n", lines[1..]));
  }

  lemma LStripJoinFirst(lines: seq<string>)
    requires |lines| >= 1 && !Blank(lines[0])
    ensures LStrip(Join("\n", lines)) == Join("\n", [LStrip(lines[0])] + lines[1..])
  {
    if |lines| > 1 {
      var rest := lines[1..];
      JoinCons("\n", lines[0], rest);
      assert lines == [lines[0]] + rest;
      LStripAppend(lines[0], "\n" + Join("\n", rest));
      JoinCons("\n", LStrip(lines[0]), rest);
    } else {
      assert [LStrip(lines[0])] + lines[1..] == [LStrip(lines[0])];
    }
  }

  lemma JoinCons(sep: string, x: string, rest: seq<string>)
    requires |rest| >= 1
    ensures Join(sep, [x] + rest) == x + (sep + Join(sep, rest))
  {
    var l := [x] + rest;
    assert l[0] == x && l[1..] == rest;
  }

  lemma DropBackOK(r: seq<string>)
    requires |r| >= 1 && LinesOK(r)
    ensures LinesOK(DropBack(r))
  {
    var d := DropBack(r);
    LinesOKPrefix(r, |d|);
  }

  lemma DropFrontOK(d: seq<string>)
    requires |d| >= 1 && LinesOK(d)
    ensures LinesOK(DropFront(d))
  {
    var f := DropFront(d);
    LinesOKSuffix(d, |d| - |f|);
  }

  /** Stripping the first line keeps the line list in shape. */
  lemma LinesOKFront(d: seq<string>)
    requires |d| >= 1 && LinesOK(d)
    ensures LinesOK([LStrip(d[0])] + d[1..])
  {
    LStripLine(d[0]);
    LinesOKReplaceFirst(d, LStrip(d[0]));
  }

  lemma LStripLine(l: string)
    requires '\n' !in l && Tight(l)
    ensures '\n' !in LStrip(l) && Tight(LStrip(l)) && (Blank(LStrip(l)) <==> Blank(l))
  {
    var r := LStrip(l);
    LStripEmptyIffBlank(l);
    if r != [] {
      assert r[|r| - 1] == l[|l| - 1];
    }
  }

  lemma LinesOKReplaceFirst(d: seq<string>, x: string)
    requires |d| >= 1 && LinesOK(d)
    requires '\n' !in x && Tight(x) && (Blank(x) <==> Blank(d[0]))
    ensures LinesOK([x] + d[1..])
  {
    var f := [x] + d[1..];
    assert forall k :: 1 <= k < |f| ==> f[k] == d[k];
    forall k: nat | k + 2 < |f|
      ensures !ThreeBlanks(f, k)
    {
      assert !ThreeBlanks(d, k);
    }
  }

  // ------------------------------------------------------------- the normal form

  /** `strip()` of joined tight lines: the empty lines at both ends dropped, the first line
      left-stripped. */
  lemma StripJoin(r: seq<string>)
    requires |r| >= 1 && AllTight(r)
    ensures 1 <= |DropBack(r)| && Strip(Join("\n", r)) == Join("\n", Front(DropBack(r)))
  {
    var d := DropBack(r);
    RStripJoin(r);
    assert AllTight(d) by {
      assert forall k :: 0 <= k < |d| ==> d[k] == r[k];
    }
    LStripJoin(d);
  }

  /** Front of lines in shape is in shape. */
  lemma FrontOK(d: seq<string>)
    requires |d| >= 1 && LinesOK(d)
    ensures LinesOK(Front(d))
  {
    DropFrontOK(d);
    LinesOKFront(DropFront(d));
  }

  /** Front of tight lines, the last of which is not empty (or the only one), either is a
      single empty line or starts and ends with a non-empty line, the first starting with
      non-whitespace. */
  lemma FrontEnds(d: seq<string>)
    requires |d| >= 1 && AllTight(d) && (|d| == 1 || d[|d| - 1] != [])
    ensures var t := Front(d);
      t == [""] || (t[0] != [] && !IsSpace(t[0][0]) && t[|t| - 1] != [])
  {
    if DropFront(d)[0] == [] {
      FrontOfEmpty(d);
    } else {
      FrontOfNonEmpty(d);
    }
  }

  lemma FrontOfEmpty(d: seq<string>)
    requires |d| >= 1 && DropFront(d)[0] == []
    ensures Front(d) == [""]
  {
  }

  lemma FrontOfNonEmpty(d: seq<string>)
    requires |d| >= 1 && AllTight(d) && (|d| == 1 || d[|d| - 1] != [])
    requires DropFront(d)[0] != []
    ensures var t := Front(d); t[0] != [] && !IsSpace(t[0][0]) && t[|t| - 1] != []
  {
    FrontFirst(d);
    FrontLast(d);
  }

  lemma FrontFirst(d: seq<string>)
    requires |d| >= 1 && AllTight(d) && DropFront(d)[0] != []
    ensures Front(d)[0] != [] && !IsSpace(Front(d)[0][0])
  {
    var f := DropFront(d);
    assert Tight(f[0]) by {
      assert f[0] == d[|d| - |f|];
    }
    NonBlankLine(f[0]);
  }

  lemma FrontLast(d: seq<string>)
    requires |d| >= 1 && (|d| == 1 || d[|d| - 1] != []) && Front(d)[0] != []
    ensures Front(d)[|Front(d)| - 1] != []
  {
    var r := DropFront(d);
    if |r| > 1 {
      assert Front(d)[|r| - 1] == r[|r| - 1] == d[|d| - 1];
    }
  }

  /** A tight line that is not empty keeps a non-empty remainder when left-stripped. */
  lemma NonBlankLine(l: string)
    requires l != [] && Tight(l)
    ensures LStrip(l) != []
  {
    LStripEmptyIffBlank(l);
  }

  /** Front of lines in shape, the last of which is not empty (or the only one), is normal. */
  lemma FrontIsNormal(d: seq<string>)
    requires |d| >= 1 && LinesOK(d) && (|d| == 1 || d[|d| - 1] != [])
    ensures NormalLines(Front(d))
  {
    FrontOK(d);
    FrontEnds(d);
  }

  /** `strip()` of joined lines in shape is the join of normal lines. */
  lemma ShapeOfJoin(r: seq<string>) returns (t: seq<string>)
    requires |r| >= 1 && LinesOK(r)
    ensures NormalLines(t) && Strip(Join("\n", r)) == Join("\n", t)
  {
    StripJoin(r);
    DropBackNormal(r);
    t := Front(DropBack(r));
  }

  lemma DropBackNormal(r: seq<string>)
    requires |r| >= 1 && LinesOK(r)
    ensures NormalLines(Front(DropBack(r)))
  {
    DropBackOK(r);
    FrontIsNormal(DropBack(r));
  }

  /** The lines the rule keeps, once the text is split again. */
  lemma CollapsedLines(content: string)
    requires content != ""
    ensures var lines := Split(content, '\n');
      var c := Collapse(lines, |lines|);
      && |c| >= 1 && NoNewline(c) && FewBlanks(c)
      && Split(Join("\n", c), '\n') == c
  {
    var lines := Split(content, '\n');
    var c := Collapse(lines, |lines|);
    CollapseMembers(lines, |lines|);
    CollapseNoNewline(lines, |lines|);
    CollapseFew(lines, |lines|);
    SplitJoin(c, '\n');
  }

  /** The kept lines, right-stripped, are all blank exactly when the content is. */
  lemma CollapsedBlank(content: string)
    requires content != ""
    ensures var lines := Split(content, '\n');
      AllBlank(RStripAll(Collapse(lines, |lines|))) <==> Blank(content)
  {
    var lines := Split(content, '\n');
    var c := Collapse(lines, |lines|);
    RStripAllBlank(c);
    CollapseAllBlank(lines, |lines|);
    assert lines[..|lines|] == lines;
    SplitBlank(content, '\n');
  }

  lemma RStripAllBlank(lines: seq<string>)
    ensures AllBlank(RStripAll(lines)) <==> AllBlank(lines)
  {
    forall k | 0 <= k < |lines|
      ensures Blank(RStripAll(lines)[k]) <==> Blank(lines[k])
    {
      RStripEmptyIffBlank(lines[k]);
    }
  }

  /** The normal form: every normalized text is the join of normal lines. */
  lemma NormalizedShape(content: string) returns (t: seq<string>)
    ensures NormalLines(t) && Normalized(content) == Join("\n", t)
  {
    if content == "" {
      t := [""];
      assert FewBlanks(t);
    } else {
      CollapsedLines(content);
      var lines := Split(content, '\n');
      var c := Collapse(lines, |lines|);
      RStripAllOK(c);
      t := ShapeOfJoin(RStripAll(c));
    }
  }

  /** Normal lines pass the blank-line rule and `rstrip()` unchanged. */
  lemma NormalLinesKept(t: seq<string>)
    requires NormalLines(t)
    ensures Split(Join("\n", t), '\n') == t
    ensures Collapse(t, |t|) == t && RStripAll(t) == t
  {
    SplitJoin(t, '\n');
    forall j | 0 <= j < |t|
      ensures KeepLine(t, j)
    {
      if j >= 2 {
        assert !ThreeBlanks(t, j - 2);
      }
    }
    CollapseKeepsAll(t, |t|);
    assert t[..|t|] == t;
    RStripAllTight(t);
  }

  /** Normal lines are a fixed point: normalizing their join gives it back. */
  lemma NormalizedFixed(t: seq<string>)
    requires NormalLines(t)
    ensures Normalized(Join("\n", t)) == Join("\n", t)
  {
    if t != [""] {
      NormalLinesKept(t);
      NormalizedOfKept(t);
      JoinTrimmed(t);
      StripOfTrimmed(Join("\n", t));
    }
  }

  /** When the lines survive splitting, the blank-line rule and `rstrip()` unchanged, only the
      final strip is left. */
  lemma NormalizedOfKept(t: seq<string>)
    requires Split(Join("\n", t), '\n') == t && Collapse(t, |t|) == t && RStripAll(t) == t
    ensures Normalized(Join("\n", t)) == Strip(Join("\n", t))
  {
  }

  /** The join of normal lines other than the single empty one starts and ends with
      non-whitespace. */
  lemma JoinTrimmed(t: seq<string>)
    requires NormalLines(t) && t != [""]
    ensures var x := Join("\n", t); x != [] && !IsSpace(x[0]) && !IsSpace(x[|x| - 1])
  {
    var x := Join("\n", t);
    JoinEnds("\n", t);
    StartsWithFirst(x, t[0]);
    EndsWithLast(x, t[|t| - 1]);
    assert Tight(t[|t| - 1]);
  }

  // ------------------------------------------------------------- properties

  /** `normalize_content` is idempotent. */
  lemma NormalizeIdempotent(content: string)
    ensures Normalized(Normalized(content)) == Normalized(content)
  {
    var t := NormalizedShape(content);
    NormalizedFixed(t);
  }

  /** No line of the result ends in whitespace and no three lines in a row are blank. */
  lemma NormalizedIsTidy(content: string)
    ensures AllTight(Split(Normalized(content), '\n'))
    ensures FewBlanks(Split(Normalized(content), '\n'))
  {
    var t := NormalizedShape(content);
    SplitJoin(t, '\n');
  }

  /** The result has no leading and no trailing whitespace. */
  lemma NormalizedIsStripped(content: string)
    ensures var x := Normalized(content); x == [] || (!IsSpace(x[0]) && !IsSpace(x[|x| - 1]))
  {
    var t := NormalizedShape(content);
    if t != [""] {
      JoinTrimmed(t);
    }
  }

  /** The result never holds four newlines in a row. */
  lemma NoFourNewlines(content: string)
    ensures !Contains(Normalized(content), "\n\n\n\n")
  {
    var t := NormalizedShape(content);
    NoRunInLines(t);
  }

  /** Lines without newlines, no three adjacent ones blank, joined, hold no four newlines in
      a row. */
  lemma NoRunInLines(t: seq<string>)
    requires |t| >= 1 && NoNewline(t) && FewBlanks(t)
    ensures !Contains(Join("\n", t), "\n\n\n\n")
  {
    var x := Join("\n", t);
    SplitJoin(t, '\n');
    if Contains(x, "\n\n\n\n") {
      var p: nat :| p <= |x| && OccursAt(x, "\n\n\n\n", p);
      SplitRun(x, '\n', p);
      var k :| EmptyRun(Split(x, '\n'), k);
      EmptyRunIsThreeBlanks(t, k);
      assert false;
    }
  }

  lemma EmptyRunIsThreeBlanks(t: seq<string>, k: nat)
    requires EmptyRun(t, k)
    ensures !FewBlanks(t)
  {
    assert ThreeBlanks(t, k);
  }

  /** The result is empty exactly when the content is whitespace only (or empty). */
  lemma NormalizedEmptyIffBlank(content: string)
    ensures Normalized(content) == "" <==> Blank(content)
  {
    if content != "" {
      CollapsedLines(content);
      CollapsedBlank(content);
      var lines := Split(content, '\n');
      JoinBlank("\n", RStripAll(Collapse(lines, |lines|)));
    }
  }

  // ------------------------------------------------------------- metadata

  /** `name.split('.')[-1] if '.' in name else 'none'`. */
  function FileExtension(name: string): string {
    if '.' in name then LastPiece(name, ".") else "none"
  }

  const MetadataKeys: set<string> := {"file_path", "file_name", "file_extension", "file_size", "file_url"}

  /** `create_file_metadata(content_file)`. */
  function FileMetadata(f: ContentFile): (m: map<string, string>)
    ensures m.Keys == MetadataKeys
    ensures m["file_path"] == f.path && m["file_name"] == f.name && m["file_url"] == f.htmlUrl
    ensures m["file_extension"] == FileExtension(f.name) && m["file_size"] == IntToString(f.size)
  {
    map["file_path" := f.path, "file_name" := f.name, "file_extension" := FileExtension(f.name),
        "file_size" := IntToString(f.size), "file_url" := f.htmlUrl]
  }

  /** The extension is the text after the last '.' of the name, or "none" when there is none. */
  lemma FileExtensionMeans(name: string)
    ensures '.' !in name ==> FileExtension(name) == "none"
    ensures '.' in name ==> exists j :: 0 <= j < |name| && name[j] == '.' &&
                                        FileExtension(name) == name[j + 1..] && '.' !in FileExtension(name)
  {
    if '.' in name {
      var i :| 0 <= i < |name| && name[i] == '.';
      assert OccursAt(name, ".", i);
      var w := LastOccurrence(name, ".");
      LastPieceFree(name, ".");
      var e := FileExtension(name);
      if '.' in e {
        var m :| 0 <= m < |e| && e[m] == '.';
        assert OccursAt(e, ".", m);
      }
      assert name[w] == '.';
    }
  }

  /** A processed file: its normalized text and its metadata. */
  datatype Document = Document(content: string, metadata: map<string, string>)

  /** `process_file(content_file)`, with the outcome of `extract_content` given: `None` when
      extraction failed. */
  method ProcessFile(f: ContentFile, extracted: Option<string>) returns (r: Option<Document>)
    ensures r.None? <==> extracted.None? || Blank(extracted.value)
    ensures r.Some? ==> r.value == Document(Normalized(extracted.value), FileMetadata(f))
  {
    if extracted.None? {
      return None;
    }
    var normalizedContent := NormalizeContent(extracted.value, f.path);
    NormalizedEmptyIffBlank(extracted.value);
    if normalizedContent == "" {
      return None;
    }
    var metadata := FileMetadata(f);
    return Some(Document(normalizedContent, metadata));
  }
}
