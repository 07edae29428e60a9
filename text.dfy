/**
 * Models of the Python string built-ins the pipeline is written with:
 * `strip`/`lstrip`/`rstrip`, `split(c)`, `split()`, `sep.join(...)`,
 * `endswith`, `in`, `replace(p, "")`, `str(int)` and `<` on strings.
 * Strings are sequences of code points, as Python's `str` is.
 */
module Text {
  import opened Wrappers

  /** The characters Python's `str.isspace()` accepts, which `strip()` and `split()` remove. */
  predicate IsSpace(c: char) {
    c == ' ' || ('\t' <= c <= '\r') || ('\U{1C}' <= c <= '\U{1F}')
    || c == '\U{85}' || c == '\U{A0}' || c == '\U{1680}'
    || ('\U{2000}' <= c <= '\U{200A}') || c == '\U{2028}' || c == '\U{2029}'
    || c == '\U{202F}' || c == '\U{205F}' || c == '\U{3000}'
  }

  /** Every character is whitespace: Python's `not s.strip()`. */
  predicate Blank(s: string) {
    forall i :: 0 <= i < |s| ==> IsSpace(s[i])
  }

  /** A non-empty run of non-whitespace characters, as `str.split()` yields. */
  predicate IsWord(w: string) {
    w != [] && forall i :: 0 <= i < |w| ==> !IsSpace(w[i])
  }

  /** Python's `s.lstrip()`. */
  function LStrip(s: string): (r: string)
    ensures |r| <= |s| && r == s[|s| - |r|..]
    ensures r == [] || !IsSpace(r[0])
    ensures Blank(s[..|s| - |r|])
  {
    if |s| > 0 && IsSpace(s[0]) then LStrip(s[1..]) else s
  }

  /** Python's `s.rstrip()`. */
  function RStrip(s: string): (r: string)
    ensures |r| <= |s| && r == s[..|r|]
    ensures r == [] || !IsSpace(r[|r| - 1])
    ensures Blank(s[|r|..])
  {
    if |s| > 0 && IsSpace(s[|s| - 1]) then RStrip(s[..|s| - 1]) else s
  }

  /** Python's `s.strip()`. */
  function Strip(s: string): (r: string)
    ensures r == [] || (!IsSpace(r[0]) && !IsSpace(r[|r| - 1]))
    ensures r == [] <==> Blank(s)
  {
    var t := RStrip(s);
    var r := LStrip(t);
    assert r == [] ==> Blank(s) by {
      if r == [] {
        assert t == t[..|t| - |r|];
        assert s == t + s[|t|..];
      }
    }
    assert r != [] ==> r[|r| - 1] == t[|t| - 1];
    r
  }

  lemma {:induction false} LStripOfNonSpace(s: string)
    requires s == [] || !IsSpace(s[0])
    ensures LStrip(s) == s
  {
  }

  lemma {:induction false} RStripOfNonSpace(s: string)
    requires s == [] || !IsSpace(s[|s| - 1])
    ensures RStrip(s) == s
  {
  }

  /** A string that starts and ends with non-whitespace is its own `strip()`. */
  lemma StripOfTrimmed(s: string)
    requires s == [] || (!IsSpace(s[0]) && !IsSpace(s[|s| - 1]))
    ensures Strip(s) == s
  {
    RStripOfNonSpace(s);
    LStripOfNonSpace(s);
  }

  /** Trailing whitespace does not change `rstrip()`. */
  lemma {:induction false} RStripAppendSpace(s: string, c: char)
    requires IsSpace(c)
    ensures RStrip(s + [c]) == RStrip(s)
  {
    assert (s + [c])[..|s|] == s;
  }

  /** Leading whitespace does not change `lstrip()`. */
  lemma {:induction false} LStripPrependSpace(c: char, s: string)
    requires IsSpace(c)
    ensures LStrip([c] + s) == LStrip(s)
  {
    assert ([c] + s)[1..] == s;
  }

  /** `lstrip()` stops at the first non-whitespace character and keeps what follows. */
  lemma {:induction false} LStripAppend(s: string, t: string)
    requires !Blank(s)
    ensures LStrip(s + t) == LStrip(s) + t
    decreases |s|
  {
    if IsSpace(s[0]) {
      assert (s + t)[1..] == s[1..] + t;
      LStripAppend(s[1..], t);
    }
  }

  /** `rstrip()` stops at the last non-whitespace character and keeps what precedes it. */
  lemma {:induction false} RStripPrepend(s: string, t: string)
    requires !Blank(t)
    ensures RStrip(s + t) == s + RStrip(t)
    decreases |t|
  {
    var n := |t|;
    if IsSpace(t[n - 1]) {
      assert (s + t)[..|s + t| - 1] == s + t[..n - 1];
      assert !Blank(t[..n - 1]) by {
        var i :| 0 <= i < n && !IsSpace(t[i]);
        assert t[..n - 1][i] == t[i];
      }
      RStripPrepend(s, t[..n - 1]);
    }
  }

  /** Python's `s.split(sep)` for a one-character separator. */
  function Split(s: string, sep: char): (r: seq<string>)
    ensures |r| >= 1
    ensures forall k :: 0 <= k < |r| ==> sep !in r[k]
  {
    if s == [] then [[]]
    else
      var rest := Split(s[1..], sep);
      if s[0] == sep then [[]] + rest else [[s[0]] + rest[0]] + rest[1..]
  }

  /** Python's `sep.join(parts)`. */
  function Join(sep: string, parts: seq<string>): string {
    if |parts| == 0 then []
    else if |parts| == 1 then parts[0]
    else parts[0] + sep + Join(sep, parts[1..])
  }

  lemma {:induction false} JoinPrefixFirst(sep: string, p: string, parts: seq<string>)
    requires |parts| >= 1
    ensures Join(sep, [p + parts[0]] + parts[1..]) == p + Join(sep, parts)
  {
    var q := [p + parts[0]] + parts[1..];
    assert q[1..] == parts[1..];
  }

  /** Joining the pieces of a split gives back the string. */
  lemma {:induction false} JoinSplit(s: string, sep: char)
    ensures Join([sep], Split(s, sep)) == s
    decreases |s|
  {
    if s != [] {
      var rest := Split(s[1..], sep);
      JoinSplit(s[1..], sep);
      if s[0] == sep {
        assert ([[]] + rest)[1..] == rest;
      } else {
        JoinPrefixFirst([sep], [s[0]], rest);
      }
    }
  }

  lemma {:induction false} SplitOfNoSep(s: string, sep: char)
    requires sep !in s
    ensures Split(s, sep) == [s]
    decreases |s|
  {
    if s != [] {
      assert sep !in s[1..] by {
        forall i | 0 <= i < |s| - 1 ensures s[1..][i] != sep { assert s[1..][i] == s[i + 1]; }
      }
      SplitOfNoSep(s[1..], sep);
      assert [s[0]] + s[1..] == s;
    }
  }

  /** A string splits into several pieces exactly when it holds the separator. */
  lemma SplitSeveral(s: string, sep: char)
    ensures |Split(s, sep)| >= 2 <==> sep in s
  {
    if sep !in s {
      SplitOfNoSep(s, sep);
    }
    if |Split(s, sep)| < 2 {
      JoinSplit(s, sep);
    }
  }

  lemma {:induction false} SplitFirstPiece(a: string, sep: char, b: string)
    requires sep !in a
    ensures Split(a + [sep] + b, sep) == [a] + Split(b, sep)
    decreases |a|
  {
    if a == [] {
      assert a + [sep] + b == [sep] + b;
      assert ([sep] + b)[1..] == b;
    } else {
      var s := a + [sep] + b;
      assert s[1..] == a[1..] + [sep] + b;
      assert sep !in a[1..] by {
        forall i | 0 <= i < |a| - 1 ensures a[1..][i] != sep { assert a[1..][i] == a[i + 1]; }
      }
      SplitFirstPiece(a[1..], sep, b);
      assert [a[0]] + a[1..] == a;
    }
  }

  /** Splitting a join of separator-free parts gives back the parts. */
  lemma {:induction false} SplitJoin(parts: seq<string>, sep: char)
    requires |parts| >= 1
    requires forall k :: 0 <= k < |parts| ==> sep !in parts[k]
    ensures Split(Join([sep], parts), sep) == parts
    decreases |parts|
  {
    if |parts| == 1 {
      SplitOfNoSep(parts[0], sep);
    } else {
      SplitJoin(parts[1..], sep);
      SplitFirstPiece(parts[0], sep, Join([sep], parts[1..]));
      assert [parts[0]] + parts[1..] == parts;
    }
  }

  /** Appending one more part to a join appends the separator and the part. */
  lemma JoinPair(sep: string, parts: seq<string>)
    requires |parts| == 2
    ensures Join(sep, parts) == parts[0] + sep + parts[1]
  {
    assert |parts[1..]| == 1 && parts[1..][0] == parts[1];
  }

  /** Three or more parts joined start with the first two and a separator. */
  lemma JoinMore(sep: string, parts: seq<string>)
    requires |parts| > 2
    ensures StartsWith(Join(sep, parts), parts[0] + sep + parts[1] + sep)
  {
    var rest := parts[1..];
    assert rest[0] == parts[1];
    var x := parts[0] + sep + parts[1] + sep;
    var t := Join(sep, rest[1..]);
    assert Join(sep, parts) == x + t;
    assert (x + t)[..|x|] == x;
  }

  lemma {:induction false} JoinAppend(sep: string, parts: seq<string>, p: string)
    requires |parts| >= 1
    ensures Join(sep, parts + [p]) == Join(sep, parts) + sep + p
    decreases |parts|
  {
    var q := parts + [p];
    if |parts| > 1 {
      assert q[1..] == parts[1..] + [p];
      JoinAppend(sep, parts[1..], p);
    } else {
      assert q[1..] == [p];
    }
  }

  /** A join starts with its first part and ends with its last. */
  lemma JoinEnds(sep: string, parts: seq<string>)
    requires |parts| >= 1
    ensures StartsWith(Join(sep, parts), parts[0])
    ensures EndsWith(Join(sep, parts), parts[|parts| - 1])
  {
    var n := |parts|;
    if n > 1 {
      assert parts == parts[..n - 1] + [parts[n - 1]];
      JoinAppend(sep, parts[..n - 1], parts[n - 1]);
    }
  }

  lemma SplitSepFirst(s: string, sep: char)
    requires s != [] && s[0] == sep
    ensures Split(s, sep) == [[]] + Split(s[1..], sep)
  {
  }

  lemma SplitOtherFirst(s: string, sep: char)
    requires s != [] && s[0] != sep
    ensures var rest := Split(s[1..], sep);
      Split(s, sep) == [[s[0]] + rest[0]] + rest[1..]
  {
  }

  /** A string starting with four separators splits into four empty pieces, then the rest. */
  lemma SplitRunAtStart(s: string, sep: char)
    requires OccursAt(s, [sep, sep, sep, sep], 0)
    ensures Split(s, sep) == [[], [], [], []] + Split(s[4..], sep)
  {
    var s1, s2, s3 := s[1..], s[2..], s[3..];
    assert s1[1..] == s2 && s2[1..] == s3 && s3[1..] == s[4..];
    assert s[..4] == [sep, sep, sep, sep];
    assert s[0] == sep && s1[0] == sep && s2[0] == sep && s3[0] == sep;
    SplitSepFirst(s, sep);
    SplitSepFirst(s1, sep);
    SplitSepFirst(s2, sep);
    SplitSepFirst(s3, sep);
  }

  /** Pieces `k`, `k + 1` and `k + 2` are empty, and are not the first piece. */
  predicate EmptyRun(pieces: seq<string>, k: int) {
    1 <= k && k + 2 < |pieces| && pieces[k] == [] && pieces[k + 1] == [] && pieces[k + 2] == []
  }

  lemma EmptyRunShift(s: string, sep: char, k: int)
    requires s != [] && EmptyRun(Split(s[1..], sep), k)
    ensures s[0] == sep ==> EmptyRun(Split(s, sep), k + 1)
    ensures s[0] != sep ==> EmptyRun(Split(s, sep), k)
  {
    if s[0] == sep {
      SplitSepFirst(s, sep);
    } else {
      SplitOtherFirst(s, sep);
    }
  }

  /** Four separators in a row leave three empty pieces between them. */
  lemma {:induction false} SplitRun(s: string, sep: char, p: nat)
    requires OccursAt(s, [sep, sep, sep, sep], p)
    ensures exists k :: EmptyRun(Split(s, sep), k)
    decreases |s|
  {
    if p == 0 {
      SplitRunAtStart(s, sep);
      assert EmptyRun(Split(s, sep), 1);
    } else {
      assert s[1..][p - 1..p - 1 + 4] == s[p..p + 4];
      SplitRun(s[1..], sep, p - 1);
      var k :| EmptyRun(Split(s[1..], sep), k);
      EmptyRunShift(s, sep, k);
    }
  }

  /** A concatenation is blank exactly when both parts are. */
  lemma BlankAppend(a: string, b: string)
    ensures Blank(a + b) <==> Blank(a) && Blank(b)
  {
    if Blank(a + b) {
      assert forall i :: 0 <= i < |a| ==> (a + b)[i] == a[i];
      assert forall i :: 0 <= i < |b| ==> (a + b)[|a| + i] == b[i];
    }
  }

  /** With a whitespace separator, a join is blank exactly when all its parts are. */
  lemma {:induction false} JoinBlank(sep: string, parts: seq<string>)
    requires Blank(sep)
    ensures Blank(Join(sep, parts)) <==> forall k :: 0 <= k < |parts| ==> Blank(parts[k])
    decreases |parts|
  {
    if |parts| > 1 {
      JoinBlank(sep, parts[1..]);
      BlankAppend(parts[0] + sep, Join(sep, parts[1..]));
      BlankAppend(parts[0], sep);
      assert forall k :: 1 <= k < |parts| ==> parts[k] == parts[1..][k - 1];
    }
  }

  /** With a whitespace separator, a string is blank exactly when all its pieces are. */
  lemma SplitBlank(s: string, sep: char)
    requires IsSpace(sep)
    ensures Blank(s) <==> forall k :: 0 <= k < |Split(s, sep)| ==> Blank(Split(s, sep)[k])
  {
    JoinSplit(s, sep);
    JoinBlank([sep], Split(s, sep));
  }

  /** `rstrip()` leaves nothing exactly of a blank string, and never leaves a blank rest. */
  lemma RStripEmptyIffBlank(s: string)
    ensures RStrip(s) == [] <==> Blank(s)
    ensures Blank(RStrip(s)) <==> Blank(s)
  {
    var r := RStrip(s);
    if r == [] {
      assert s[|r|..] == s;
    } else {
      assert s[|r| - 1] == r[|r| - 1];
    }
  }

  /** `lstrip()` leaves nothing exactly of a blank string, and never leaves a blank rest. */
  lemma LStripEmptyIffBlank(s: string)
    ensures LStrip(s) == [] <==> Blank(s)
    ensures Blank(LStrip(s)) <==> Blank(s)
  {
    var r := LStrip(s);
    if r == [] {
      assert s[..|s| - |r|] == s;
    } else {
      assert s[|s| - |r|] == r[0];
    }
  }

  /** The leading run of non-whitespace characters of `s`. */
  function TakeWord(s: string): (w: string)
    ensures |w| <= |s| && w == s[..|w|]
    ensures forall i :: 0 <= i < |w| ==> !IsSpace(w[i])
    ensures |w| == |s| || IsSpace(s[|w|])
  {
    if s == [] || IsSpace(s[0]) then [] else [s[0]] + TakeWord(s[1..])
  }

  /** Python's `s.split()`: the maximal runs of non-whitespace characters, in order. */
  function Words(s: string): (r: seq<string>)
    ensures forall k :: 0 <= k < |r| ==> IsWord(r[k])
    decreases |s|
  {
    if s == [] then []
    else if IsSpace(s[0]) then Words(s[1..])
    else
      var w := TakeWord(s);
      var rest := Words(s[|w|..]);
      assert forall k :: 1 <= k < 1 + |rest| ==> ([w] + rest)[k] == rest[k - 1];
      [w] + rest
  }

  /** A string has no words exactly when it is all whitespace. */
  lemma {:induction false} WordsEmptyIffBlank(s: string)
    ensures Words(s) == [] <==> Blank(s)
    decreases |s|
  {
    if s != [] && IsSpace(s[0]) {
      WordsEmptyIffBlank(s[1..]);
      assert Blank(s) <==> Blank(s[1..]) by {
        assert forall i :: 1 <= i < |s| ==> s[i] == s[1..][i - 1];
      }
    }
  }

  /** Python's `s.startswith(p)`. */
  predicate StartsWith(s: string, p: string) {
    |p| <= |s| && s[..|p|] == p
  }

  /** Python's `s.endswith(p)`. */
  predicate EndsWith(s: string, p: string) {
    |p| <= |s| && s[|s| - |p|..] == p
  }

  lemma StartsWithFirst(s: string, p: string)
    requires StartsWith(s, p) && p != []
    ensures s[0] == p[0]
  {
    assert s[..|p|][0] == s[0];
  }

  lemma EndsWithLast(s: string, p: string)
    requires EndsWith(s, p) && p != []
    ensures s[|s| - 1] == p[|p| - 1]
  {
    assert s[|s| - |p|..][|p| - 1] == s[|s| - 1];
  }

  /** `p` occurs in `s` starting at index `i`. */
  predicate OccursAt(s: string, p: string, i: nat) {
    i + |p| <= |s| && s[i..i + |p|] == p
  }

  lemma OccursAtEnd(s: string, p: string)
    ensures OccursAt(s + p, p, |s|)
  {
    assert (s + p)[|s|..|s| + |p|] == p;
  }

  lemma OccursAtExtend(s: string, p: string, i: nat, t: string)
    requires OccursAt(s, p, i)
    ensures OccursAt(s + t, p, i)
  {
    assert (s + t)[i..i + |p|] == s[i..i + |p|];
  }

  lemma OccursAtPrepend(t: string, s: string, p: string, i: nat)
    requires OccursAt(s, p, i)
    ensures OccursAt(t + s, p, |t| + i)
  {
    assert (t + s)[|t| + i..|t| + i + |p|] == s[i..i + |p|];
  }

  /** An occurrence inside an occurrence. */
  lemma OccursAtWithin(s: string, p: string, i: nat, q: string, j: nat)
    requires OccursAt(s, p, i) && OccursAt(p, q, j)
    ensures OccursAt(s, q, i + j)
  {
    forall t | 0 <= t < |q|
      ensures s[i + j + t] == q[t]
    {
      assert s[i + j + t] == s[i..i + |p|][j + t];
      assert p[j + t] == p[j..j + |q|][t];
    }
  }

  /** Where the `k`-th part starts in `Join(sep, parts)`. */
  function Offset(sep: string, parts: seq<string>, k: nat): nat
    requires k <= |parts|
  {
    if k == 0 then 0 else Offset(sep, parts, k - 1) + |parts[k - 1]| + |sep|
  }

  lemma {:induction false} OffsetShift(sep: string, parts: seq<string>, k: nat)
    requires 1 <= k <= |parts|
    ensures Offset(sep, parts, k) == |parts[0]| + |sep| + Offset(sep, parts[1..], k - 1)
  {
    if k > 1 {
      OffsetShift(sep, parts, k - 1);
      assert parts[1..][k - 2] == parts[k - 1];
    }
  }

  /** Every part occurs in the joined string at its offset. */
  lemma {:induction false} JoinOffset(sep: string, parts: seq<string>, k: nat)
    requires k < |parts|
    ensures OccursAt(Join(sep, parts), parts[k], Offset(sep, parts, k))
    decreases |parts|
  {
    if k == 0 {
      JoinEnds(sep, parts);
    } else {
      var rest := parts[1..];
      assert rest[k - 1] == parts[k];
      JoinOffset(sep, rest, k - 1);
      OffsetShift(sep, parts, k);
      OccursAtPrepend(parts[0] + sep, Join(sep, rest), parts[k], Offset(sep, rest, k - 1));
    }
  }

  /** Python's `p in s` on strings: `p` occurs somewhere in `s`. */
  predicate Contains(s: string, p: string) {
    exists i: nat :: i <= |s| && OccursAt(s, p, i)
  }

  /** The leftmost occurrence of `sep` at or after index `k`, if any. */
  function FindFrom(s: string, sep: string, k: nat): (r: Option<nat>)
    ensures r.Some? ==> k <= r.value && OccursAt(s, sep, r.value)
    ensures r.Some? ==> forall i: nat :: k <= i < r.value ==> !OccursAt(s, sep, i)
    ensures r.None? ==> forall i: nat :: k <= i ==> !OccursAt(s, sep, i)
    decreases |s| - k
  {
    if k + |sep| > |s| then None
    else if OccursAt(s, sep, k) then Some(k)
    else FindFrom(s, sep, k + 1)
  }

  /** Python's `s.find(sep)`: the leftmost occurrence of `sep`, if any. */
  function Find(s: string, sep: string): (r: Option<nat>)
    ensures r.Some? ==> OccursAt(s, sep, r.value)
    ensures r.Some? ==> forall i: nat :: i < r.value ==> !OccursAt(s, sep, i)
    ensures r.None? ==> !Contains(s, sep)
  {
    FindFrom(s, sep, 0)
  }

  /** Python's `s.split(sep)` for a non-empty separator string. */
  function SplitOn(s: string, sep: string): (r: seq<string>)
    requires |sep| > 0
    ensures |r| >= 1
    decreases |s|
  {
    match Find(s, sep)
    case None => [s]
    case Some(i) => [s[..i]] + SplitOn(s[i + |sep|..], sep)
  }

  /** Python's `s.split(sep)[-1]`: the text after the last occurrence of `sep`, found by
      cutting at the leftmost occurrence until none is left. */
  function LastPiece(s: string, sep: string): string
    requires |sep| > 0
    decreases |s|
  {
    match Find(s, sep)
    case None => s
    case Some(i) => LastPiece(s[i + |sep|..], sep)
  }

  /** `LastPiece` is the last element of `SplitOn`. */
  lemma {:induction false} LastPieceIsLastOfSplit(s: string, sep: string)
    requires |sep| > 0
    ensures LastPiece(s, sep) == SplitOn(s, sep)[|SplitOn(s, sep)| - 1]
    decreases |s|
  {
    match Find(s, sep)
    case None =>
    case Some(i) =>
      var rest := s[i + |sep|..];
      LastPieceIsLastOfSplit(rest, sep);
      assert SplitOn(s, sep) == [s[..i]] + SplitOn(rest, sep);
  }

  lemma LastPieceStep(s: string, sep: string, i: nat)
    requires |sep| > 0 && Find(s, sep) == Some(i)
    ensures i + |sep| <= |s| && LastPiece(s, sep) == LastPiece(s[i + |sep|..], sep)
  {
  }

  /** `sep` never occurs in `s.split(sep)[-1]`. */
  lemma {:induction false} LastPieceFree(s: string, sep: string)
    requires |sep| > 0
    ensures !Contains(LastPiece(s, sep), sep)
    decreases |s|
  {
    var f := Find(s, sep);
    if f.Some? {
      LastPieceFree(s[f.value + |sep|..], sep);
    }
  }

  /** `s.split(sep)[-1]` is the whole string when `sep` does not occur in it. */
  lemma LastPieceWhole(s: string, sep: string)
    requires |sep| > 0 && !Contains(s, sep)
    ensures LastPiece(s, sep) == s
  {
  }

  /** When `sep` occurs in `s`, `s.split(sep)[-1]` is the text after one of its occurrences. */
  lemma {:induction false} LastPieceAfter(s: string, sep: string)
    requires |sep| > 0 && Contains(s, sep)
    ensures exists j: nat :: OccursAt(s, sep, j) && LastPiece(s, sep) == s[j + |sep|..]
    decreases |s|
  {
    var w := LastOccurrence(s, sep);
  }

  /** An occurrence of `sep` after which `s.split(sep)[-1]` is the rest of `s`. */
  lemma {:induction false} LastOccurrence(s: string, sep: string) returns (w: nat)
    requires |sep| > 0 && Contains(s, sep)
    ensures OccursAt(s, sep, w) && LastPiece(s, sep) == s[w + |sep|..]
    decreases |s|
  {
    var i := Find(s, sep).value;
    var rest := s[i + |sep|..];
    LastPieceStep(s, sep, i);
    if Contains(rest, sep) {
      var j := LastOccurrence(rest, sep);
      AfterShift(s, sep, i + |sep|, j);
      w := i + |sep| + j;
    } else {
      LastPieceWhole(rest, sep);
      w := i;
    }
  }

  /** The text after an occurrence in a suffix is the text after an occurrence in the whole string. */
  lemma AfterShift(s: string, sep: string, k: nat, j: nat)
    requires k <= |s| && OccursAt(s[k..], sep, j)
    ensures OccursAt(s, sep, k + j) && s[k..][j + |sep|..] == s[k + j + |sep|..]
  {
    OccursAtShift(s, sep, k, j);
  }

  /** An occurrence in a suffix is an occurrence in the whole string, shifted. */
  lemma {:induction false} OccursAtShift(s: string, p: string, k: nat, j: nat)
    requires k <= |s|
    ensures OccursAt(s[k..], p, j) <==> OccursAt(s, p, k + j)
  {
    if k + j + |p| <= |s| {
      assert s[k..][j..j + |p|] == s[k + j..k + j + |p|];
    }
  }

  /** Python's `s.replace(p, "")`: delete the occurrences of `p` found scanning left to right. */
  function RemoveAll(s: string, p: string): (r: string)
    ensures |r| <= |s|
    decreases |s|
  {
    if |p| == 0 || |s| == 0 then s
    else if StartsWith(s, p) then RemoveAll(s[|p|..], p)
    else [s[0]] + RemoveAll(s[1..], p)
  }

  /** Deleting a pattern that does not occur changes nothing. */
  lemma {:induction false} RemoveAllAbsent(s: string, p: string)
    requires !Contains(s, p)
    ensures RemoveAll(s, p) == s
    decreases |s|
  {
    if |p| > 0 && |s| > 0 {
      assert !OccursAt(s, p, 0);
      forall i: nat ensures OccursAt(s[1..], p, i) == OccursAt(s, p, 1 + i) {
        OccursAtShift(s, p, 1, i);
      }
      RemoveAllAbsent(s[1..], p);
    }
  }

  /** Deleting a pattern changes nothing in a prefix free of the pattern's first character. */
  lemma {:induction false} RemoveAllFreePrefix(a: string, b: string, p: string)
    requires |p| > 0 && p[0] !in a
    ensures RemoveAll(a + b, p) == a + RemoveAll(b, p)
    decreases |a|
  {
    if a != [] {
      var s := a + b;
      assert s[0] == a[0] && s[1..] == a[1..] + b;
      assert !StartsWith(s, p) by {
        if |p| <= |s| {
          assert s[..|p|][0] == a[0];
        }
      }
      RemoveAllFreePrefix(a[1..], b, p);
    } else {
      assert a + b == b;
    }
  }

  /** A non-empty string of decimal digits. */
  predicate IsDigits(s: string) {
    s != [] && forall i :: 0 <= i < |s| ==> '0' <= s[i] <= '9'
  }

  function DigitChar(d: nat): (c: char)
    requires d < 10
    ensures '0' <= c <= '9' && (c as int) - ('0' as int) == d
  {
    ((d + ('0' as int)) as char)
  }

  /** Python's `str(n)` for a natural number. */
  function NatToString(n: nat): (r: string)
    ensures IsDigits(r)
    ensures r[0] == '0' ==> n == 0
  {
    if n < 10 then [DigitChar(n)] else NatToString(n / 10) + [DigitChar(n % 10)]
  }

  /** Python's `str(i)` for an integer. */
  function IntToString(i: int): string {
    if i < 0 then "-" + NatToString(-i) else NatToString(i)
  }

  /** The number a string of decimal digits denotes (Python's `int(s)`). */
  function DigitsValue(s: string): nat
    requires IsDigits(s) || s == []
  {
    if s == [] then 0
    else DigitsValue(s[..|s| - 1]) * 10 + ((s[|s| - 1] as int) - ('0' as int))
  }

  /** Reading back the decimal rendering gives the number: `int(str(n)) == n`. */
  lemma {:induction false} NatToStringRoundTrip(n: nat)
    ensures DigitsValue(NatToString(n)) == n
  {
    if n >= 10 {
      NatToStringRoundTrip(n / 10);
      var r := NatToString(n);
      assert r[..|r| - 1] == NatToString(n / 10);
    }
  }

  /** Python's `a < b` on strings: lexicographic by code point, a proper prefix first. */
  predicate Less(a: string, b: string) {
    if a == [] then b != []
    else if b == [] then false
    else if a[0] != b[0] then a[0] < b[0]
    else Less(a[1..], b[1..])
  }

  lemma {:induction false} LessIrreflexive(a: string)
    ensures !Less(a, a)
  {
    if a != [] { LessIrreflexive(a[1..]); }
  }

  lemma {:induction false} LessTransitive(a: string, b: string, c: string)
    requires Less(a, b) && Less(b, c)
    ensures Less(a, c)
  {
    if a != [] && b != [] && c != [] && a[0] == b[0] && b[0] == c[0] {
      LessTransitive(a[1..], b[1..], c[1..]);
    }
  }

  lemma {:induction false} LessTotal(a: string, b: string)
    ensures a == b || Less(a, b) || Less(b, a)
  {
    if a != [] && b != [] && a[0] == b[0] {
      LessTotal(a[1..], b[1..]);
      if a[1..] == b[1..] {
        assert a == [a[0]] + a[1..] && b == [b[0]] + b[1..];
      }
    }
  }
}
