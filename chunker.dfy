/**
 * The line-based chunker of `ingestion/chunker.py`: content is split on
 * newlines and lines are packed into chunks under a token budget; a line that
 * is over the budget on its own is cut into chunks of whole words; after a
 * chunk is closed, the next one starts with a tail of its lines as overlap.
 */
module Chunker {
  import opened Text
  import opened ChunkRecord

  /** The chunker's settings, both counted in tokens. */
  datatype Config = Config(chunkSize: int, chunkOverlap: int)

  /** The settings used when the configuration lacks them. */
  const DefaultConfig: Config := Config(1000, 200)

  /** `config.get(key, default)` on the chunking configuration. */
  function Setting(settings: map<string, int>, key: string, default: int): int {
    if key in settings then settings[key] else default
  }

  /** `Chunker.__init__`: the two settings read from the chunking configuration. */
  function ChunkerConfig(settings: map<string, int>): Config {
    Config(Setting(settings, "chunk_size", DefaultConfig.chunkSize),
           Setting(settings, "chunk_overlap", DefaultConfig.chunkOverlap))
  }

  /** Each setting given is used as it is; each one missing falls back to its default, so
      an empty configuration gives the defaults. */
  lemma ConfigFallsBack(settings: map<string, int>)
    ensures ChunkerConfig(map[]) == DefaultConfig
    ensures ChunkerConfig(settings).chunkSize == if "chunk_size" in settings then settings["chunk_size"] else 1000
    ensures ChunkerConfig(settings).chunkOverlap == if "chunk_overlap" in settings then settings["chunk_overlap"] else 200
  {
  }

  const ChunkIndexKey: string := "chunk_index"
  const StartLineKey: string := "start_line"
  const EndLineKey: string := "end_line"
  const TokenCountKey: string := "token_count"
  const PositionKeys: set<string> := {ChunkIndexKey, StartLineKey, EndLineKey, TokenCountKey}

  /** An integer metadata field of a chunk, or -1 when it is absent or not an integer. */
  function IntField(c: Chunk, key: string): int {
    if key in c.metadata && c.metadata[key].Int? then c.metadata[key].n else -1
  }

  function Index(c: Chunk): int { IntField(c, ChunkIndexKey) }
  function StartLine(c: Chunk): int { IntField(c, StartLineKey) }
  function EndLine(c: Chunk): int { IntField(c, EndLineKey) }

  /** The chunk's metadata is the file's metadata overlaid with the four positional
      keys, and its token count is that of its own content. */
  predicate Inherits(c: Chunk, fileMetadata: map<string, string>, count: TokenCount) {
    && c.metadata.Keys == fileMetadata.Keys + PositionKeys
    && (forall k :: k in fileMetadata && k !in PositionKeys ==> c.metadata[k] == Str(fileMetadata[k]))
    && c.metadata[TokenCountKey] == Int(count(c.content))
  }

  /** `_create_chunk`: a chunk dictionary for `content` at the given position. */
  function CreateChunk(content: string, fileMetadata: map<string, string>, count: TokenCount,
                       chunkIndex: int, startLine: int, endLine: int): (c: Chunk)
    ensures c.content == content && Inherits(c, fileMetadata, count)
    ensures Index(c) == chunkIndex && StartLine(c) == startLine && EndLine(c) == endLine
  {
    var inherited := map k | k in fileMetadata :: Str(fileMetadata[k]);
    Chunk(content, inherited[ChunkIndexKey := Int(chunkIndex)][StartLineKey := Int(startLine)]
                            [EndLineKey := Int(endLine)][TokenCountKey := Int(count(content))])
  }

  /** The sum of the token counts of the lines (or words) one by one. */
  function SumCounts(count: TokenCount, s: seq<string>): nat {
    if s == [] then 0 else count(s[0]) + SumCounts(count, s[1..])
  }

  lemma {:induction false} SumCountsAppend(count: TokenCount, s: seq<string>, x: string)
    ensures SumCounts(count, s + [x]) == SumCounts(count, s) + count(x)
    decreases |s|
  {
    if s != [] {
      assert (s + [x])[1..] == s[1..] + [x];
      SumCountsAppend(count, s[1..], x);
    }
  }

  /** Sums over suffixes grow as the suffix gets longer. */
  lemma {:induction false} SumCountsSuffixes(count: TokenCount, s: seq<string>, a: nat, b: nat)
    requires a <= b <= |s|
    ensures SumCounts(count, s[a..]) >= SumCounts(count, s[b..])
    decreases b - a
  {
    if a < b {
      assert s[a..][1..] == s[a + 1..];
      SumCountsSuffixes(count, s, a + 1, b);
    }
  }

  // ---------------------------------------------------------------- overlap

  /** `ov` is what `_get_overlap_lines` takes from `prev`: a suffix whose lines fit
      the budget, which stops at the first line (walking backwards) that would not. */
  ghost predicate IsOverlap(prev: seq<string>, ov: seq<string>, count: TokenCount, budget: int) {
    && |ov| <= |prev|
    && ov == prev[|prev| - |ov|..]
    && (ov != [] ==> SumCounts(count, ov) <= budget)
    && (|ov| < |prev| ==> SumCounts(count, [prev[|prev| - |ov| - 1]] + ov) > budget)
  }

  /** `_get_overlap_lines`. */
  method GetOverlapLines(lines: seq<string>, count: TokenCount, chunkOverlap: int) returns (overlap: seq<string>)
    ensures IsOverlap(lines, overlap, count, chunkOverlap)
  {
    if |lines| == 0 {
      return [];
    }
    overlap := [];
    var overlapTokens := 0;
    var j := |lines|;
    while j > 0
      invariant 0 <= j <= |lines|
      invariant overlap == lines[j..]
      invariant overlapTokens == SumCounts(count, overlap)
      invariant overlap != [] ==> overlapTokens <= chunkOverlap
    {
      var line := lines[j - 1];
      var lineTokens := count(line);
      if overlapTokens + lineTokens > chunkOverlap {
        break;
      }
      overlap := [line] + overlap;
      overlapTokens := overlapTokens + lineTokens;
      j := j - 1;
    }
  }

  /** Every suffix longer than the overlap is over the budget, so the overlap is the
      longest suffix that fits. */
  lemma OverlapIsLongestFit(prev: seq<string>, ov: seq<string>, count: TokenCount, budget: int)
    requires IsOverlap(prev, ov, count, budget)
    ensures forall a :: 0 <= a < |prev| - |ov| ==> SumCounts(count, prev[a..]) > budget
  {
    var n := |prev|;
    if |ov| < n {
      assert [prev[n - |ov| - 1]] + ov == prev[n - |ov| - 1..];
    }
    forall a | 0 <= a < n - |ov|
      ensures SumCounts(count, prev[a..]) > budget
    {
      SumCountsSuffixes(count, prev, a, n - |ov| - 1);
    }
  }

  /** The overlap of a list of lines is determined by the lines and the budget. */
  lemma OverlapUnique(prev: seq<string>, a: seq<string>, b: seq<string>, count: TokenCount, budget: int)
    requires IsOverlap(prev, a, count, budget) && IsOverlap(prev, b, count, budget)
    ensures a == b
  {
    if |a| < |b| {
      OverlapIsLongestFit(prev, a, count, budget);
    } else if |b| < |a| {
      OverlapIsLongestFit(prev, b, count, budget);
    }
  }

  // ---------------------------------------------------------- word packing

  /** The concatenation of the groups. */
  function Flatten(groups: seq<seq<string>>): seq<string> {
    if groups == [] then [] else Flatten(groups[..|groups| - 1]) + groups[|groups| - 1]
  }

  /** `groups` is how the inner loop of `split_by_lines` packs `words`: the groups are
      the words in order, each non-empty and within the budget unless it is a single
      word, and each group was closed because its successor's first word would not fit. */
  ghost predicate GreedyPacking(words: seq<string>, groups: seq<seq<string>>, count: TokenCount, budget: int) {
    && Flatten(groups) == words
    && (forall k :: 0 <= k < |groups| ==> groups[k] != [] && (|groups[k]| == 1 || SumCounts(count, groups[k]) <= budget))
    && (forall k :: 0 < k < |groups| ==> SumCounts(count, groups[k - 1]) + count(groups[k][0]) > budget)
  }

  lemma PackingStart(words: seq<string>, groups: seq<seq<string>>, w: string, count: TokenCount, budget: int)
    requires GreedyPacking(words, groups, count, budget)
    requires groups != [] ==> SumCounts(count, groups[|groups| - 1]) + count(w) > budget
    ensures GreedyPacking(words + [w], groups + [[w]], count, budget)
  {
    assert (groups + [[w]])[..|groups|] == groups;
  }

  lemma PackingExtend(words: seq<string>, groups: seq<seq<string>>, g: seq<string>, w: string, count: TokenCount, budget: int)
    requires GreedyPacking(words, groups + [g], count, budget)
    requires SumCounts(count, g) + count(w) <= budget
    ensures GreedyPacking(words + [w], groups + [g + [w]], count, budget)
  {
    var before := groups + [g];
    var after := groups + [g + [w]];
    assert before[..|groups|] == groups && after[..|groups|] == groups;
    SumCountsAppend(count, g, w);
    assert Flatten(after) == Flatten(groups) + (g + [w]);
  }

  /** The closed groups followed by the open one, if it has any words. */
  function WithOpen(groups: seq<seq<string>>, open: seq<string>): seq<seq<string>> {
    if open == [] then groups else groups + [open]
  }

  /** The arguments of one `_create_chunk` call: the chunk's text and position. */
  datatype ChunkArgs = ChunkArgs(content: string, chunkIndex: int, startLine: int, endLine: int)

  /** The chunks that the calls produce, in order. */
  function Emit(calls: seq<ChunkArgs>, fileMetadata: map<string, string>, count: TokenCount): (r: seq<Chunk>)
    ensures |r| == |calls|
  {
    if calls == [] then []
    else
      var a := calls[|calls| - 1];
      Emit(calls[..|calls| - 1], fileMetadata, count) + [CreateChunk(a.content, fileMetadata, count, a.chunkIndex, a.startLine, a.endLine)]
  }

  /** The chunk emitted for call `k` carries that call's text and position and the file's metadata. */
  lemma EmitMeans(calls: seq<ChunkArgs>, fileMetadata: map<string, string>, count: TokenCount, k: int)
    requires 0 <= k < |calls|
    ensures var c := Emit(calls, fileMetadata, count)[k];
      && c.content == calls[k].content && Inherits(c, fileMetadata, count)
      && Index(c) == calls[k].chunkIndex && StartLine(c) == calls[k].startLine && EndLine(c) == calls[k].endLine
  {
  }

  lemma EmitOne(a: ChunkArgs, fileMetadata: map<string, string>, count: TokenCount)
    ensures Emit([a], fileMetadata, count) == [CreateChunk(a.content, fileMetadata, count, a.chunkIndex, a.startLine, a.endLine)]
  {
  }

  /** One call per group, each the group's words joined by spaces, all at line `line`. */
  function GroupCalls(groups: seq<seq<string>>, firstIndex: int, line: int): (r: seq<ChunkArgs>)
    ensures |r| == |groups|
  {
    if groups == [] then []
    else
      var n := |groups| - 1;
      GroupCalls(groups[..n], firstIndex, line) + [ChunkArgs(Join(" ", groups[n]), firstIndex + n, line, line)]
  }

  lemma GroupCallsSnoc(groups: seq<seq<string>>, g: seq<string>, firstIndex: int, line: int)
    ensures GroupCalls(groups + [g], firstIndex, line)
      == GroupCalls(groups, firstIndex, line) + [ChunkArgs(Join(" ", g), firstIndex + |groups|, line, line)]
  {
    assert (groups + [g])[..|groups|] == groups;
  }

  /** The inner loop of `split_by_lines` after `w` words: closed groups `groups` (already
      turned into calls), the open group `open` and its running token sum. */
  ghost predicate WordLoopInv(words: seq<string>, w: int, groups: seq<seq<string>>, open: seq<string>, openTokens: int,
                              calls: seq<ChunkArgs>, chunkIndex: int, firstIndex: int, line: int,
                              count: TokenCount, budget: int) {
    && 0 <= w <= |words|
    && chunkIndex == firstIndex + |groups|
    && calls == GroupCalls(groups, firstIndex, line)
    && openTokens == SumCounts(count, open)
    && (w == 0 <==> open == [])
    && (open == [] ==> groups == [])
    && GreedyPacking(words[..w], WithOpen(groups, open), count, budget)
  }

  /** A word that does not fit closes the open group and opens a new one. */
  lemma WordCloses(words: seq<string>, w: int, groups: seq<seq<string>>, open: seq<string>, openTokens: int,
                   calls: seq<ChunkArgs>, chunkIndex: int, firstIndex: int, line: int, count: TokenCount, budget: int)
    requires WordLoopInv(words, w, groups, open, openTokens, calls, chunkIndex, firstIndex, line, count, budget)
    requires w < |words| && openTokens + count(words[w]) > budget && open != []
    ensures WordLoopInv(words, w + 1, groups + [open], [words[w]], count(words[w]),
                        calls + [ChunkArgs(Join(" ", open), chunkIndex, line, line)], chunkIndex + 1,
                        firstIndex, line, count, budget)
  {
    assert words[..w + 1] == words[..w] + [words[w]];
    PackingStart(words[..w], groups + [open], words[w], count, budget);
    GroupCallsSnoc(groups, open, firstIndex, line);
  }

  /** The first word opens the first group even when it does not fit. */
  lemma FirstWordOpens(words: seq<string>, groups: seq<seq<string>>, open: seq<string>, openTokens: int,
                       calls: seq<ChunkArgs>, chunkIndex: int, firstIndex: int, line: int, count: TokenCount, budget: int)
    requires WordLoopInv(words, 0, groups, open, openTokens, calls, chunkIndex, firstIndex, line, count, budget)
    requires 0 < |words|
    ensures WordLoopInv(words, 1, groups, [words[0]], count(words[0]), calls, chunkIndex, firstIndex, line, count, budget)
  {
    assert words[..1] == [] + [words[0]];
    PackingStart([], groups, words[0], count, budget);
  }

  /** A word that fits joins the open group. */
  lemma WordJoins(words: seq<string>, w: int, groups: seq<seq<string>>, open: seq<string>, openTokens: int,
                  calls: seq<ChunkArgs>, chunkIndex: int, firstIndex: int, line: int, count: TokenCount, budget: int)
    requires WordLoopInv(words, w, groups, open, openTokens, calls, chunkIndex, firstIndex, line, count, budget)
    requires w < |words| && openTokens + count(words[w]) <= budget
    ensures WordLoopInv(words, w + 1, groups, open + [words[w]], openTokens + count(words[w]),
                        calls, chunkIndex, firstIndex, line, count, budget)
  {
    assert words[..w + 1] == words[..w] + [words[w]];
    SumCountsAppend(count, open, words[w]);
    if open == [] {
      PackingStart(words[..w], groups, words[w], count, budget);
      assert open + [words[w]] == [words[w]];
    } else {
      PackingExtend(words[..w], groups, open, words[w], count, budget);
    }
  }

  /** After the last word: closing the open group gives the packing of all words. */
  lemma WordsDone(words: seq<string>, groups: seq<seq<string>>, open: seq<string>, openTokens: int,
                  calls: seq<ChunkArgs>, chunkIndex: int, firstIndex: int, line: int, count: TokenCount, budget: int)
    requires WordLoopInv(words, |words|, groups, open, openTokens, calls, chunkIndex, firstIndex, line, count, budget)
    ensures GreedyPacking(words, WithOpen(groups, open), count, budget)
    ensures (if open != [] then calls + [ChunkArgs(Join(" ", open), chunkIndex, line, line)] else calls)
            == GroupCalls(WithOpen(groups, open), firstIndex, line)
  {
    assert words[..|words|] == words;
    if open != [] {
      GroupCallsSnoc(groups, open, firstIndex, line);
    }
  }

  /** One iteration of the inner loop of `split_by_lines`: the word joins the open group,
      or closes it (emitting its chunk) and opens a new one. */
  method WordStep(words: seq<string>, w: int, ghost groups: seq<seq<string>>, wordChunk: seq<string>, wordTokens: int,
                  calls: seq<ChunkArgs>, chunkIndex: int, firstIndex: int, line: int, count: TokenCount, chunkSize: int)
    returns (calls': seq<ChunkArgs>, ghost groups': seq<seq<string>>, wordChunk': seq<string>, wordTokens': int, chunkIndex': int)
    requires 0 <= w < |words|
    requires WordLoopInv(words, w, groups, wordChunk, wordTokens, calls, chunkIndex, firstIndex, line, count, chunkSize)
    ensures WordLoopInv(words, w + 1, groups', wordChunk', wordTokens', calls', chunkIndex', firstIndex, line, count, chunkSize)
  {
    var word := words[w];
    var wordTokenCount := count(word);
    calls', groups', chunkIndex' := calls, groups, chunkIndex;
    if wordTokens + wordTokenCount > chunkSize {
      if wordChunk != [] {
        WordCloses(words, w, groups, wordChunk, wordTokens, calls, chunkIndex, firstIndex, line, count, chunkSize);
        calls' := calls + [ChunkArgs(Join(" ", wordChunk), chunkIndex, line, line)];
        groups' := groups + [wordChunk];
        chunkIndex' := chunkIndex + 1;
      } else {
        FirstWordOpens(words, groups, wordChunk, wordTokens, calls, chunkIndex, firstIndex, line, count, chunkSize);
      }
      wordChunk' := [word];
      wordTokens' := wordTokenCount;
    } else {
      WordJoins(words, w, groups, wordChunk, wordTokens, calls, chunkIndex, firstIndex, line, count, chunkSize);
      wordChunk' := wordChunk + [word];
      wordTokens' := wordTokens + wordTokenCount;
    }
  }

  /** The inner loop of `split_by_lines` for a line over the budget: its words are
      packed greedily and each group becomes a chunk at that line. */
  method SplitLongLine(words: seq<string>, count: TokenCount, chunkSize: int, firstIndex: int, line: int)
    returns (calls: seq<ChunkArgs>, ghost groups: seq<seq<string>>)
    ensures GreedyPacking(words, groups, count, chunkSize)
    ensures calls == GroupCalls(groups, firstIndex, line)
  {
    calls := [];
    groups := [];
    var wordChunk: seq<string> := [];
    var wordTokens := 0;
    var chunkIndex := firstIndex;
    for w := 0 to |words|
      invariant WordLoopInv(words, w, groups, wordChunk, wordTokens, calls, chunkIndex, firstIndex, line, count, chunkSize)
    {
      calls, groups, wordChunk, wordTokens, chunkIndex :=
        WordStep(words, w, groups, wordChunk, wordTokens, calls, chunkIndex, firstIndex, line, count, chunkSize);
    }
    WordsDone(words, groups, wordChunk, wordTokens, calls, chunkIndex, firstIndex, line, count, chunkSize);
    if wordChunk != [] {
      calls := calls + [ChunkArgs(Join(" ", wordChunk), chunkIndex, line, line)];
      groups := groups + [wordChunk];
    }
  }

  // --------------------------------------------------------- split by lines

  /** The lines of a document. */
  function Lines(content: string): seq<string> {
    Split(content, '\n')
  }

  /** Line `j` is over the budget on its own. */
  predicate Long(lines: seq<string>, cfg: Config, count: TokenCount, j: int) {
    0 <= j < |lines| && count(lines[j]) > cfg.chunkSize
  }

  /** A chunk of whole lines `start..end` (inclusive), none of them over the budget. */
  ghost predicate IsLineChunk(lines: seq<string>, cfg: Config, count: TokenCount, a: ChunkArgs) {
    && 0 <= a.startLine <= a.endLine < |lines|
    && a.content == Join("\n", lines[a.startLine..a.endLine + 1])
    && (forall j :: a.startLine <= j <= a.endLine ==> !Long(lines, cfg, count, j))
  }

  /** A chunk cut from the words of one line over the budget. */
  ghost predicate IsWordChunk(lines: seq<string>, cfg: Config, count: TokenCount, a: ChunkArgs) {
    0 <= a.startLine == a.endLine < |lines| && Long(lines, cfg, count, a.startLine)
  }

  predicate Covers(a: ChunkArgs, j: int) {
    a.startLine <= j <= a.endLine
  }

  /** The chunks whose line range contains line `j`, in order. */
  function Covering(cs: seq<ChunkArgs>, j: int): seq<ChunkArgs> {
    if cs == [] then [] else Covering(cs[..|cs| - 1], j) + (if Covers(cs[|cs| - 1], j) then [cs[|cs| - 1]] else [])
  }

  lemma CoveringSnoc(cs: seq<ChunkArgs>, c: ChunkArgs, j: int)
    ensures Covering(cs + [c], j) == Covering(cs, j) + (if Covers(c, j) then [c] else [])
  {
    assert (cs + [c])[..|cs|] == cs;
  }

  lemma {:induction false} CoveringAppend(a: seq<ChunkArgs>, b: seq<ChunkArgs>, j: int)
    ensures Covering(a + b, j) == Covering(a, j) + Covering(b, j)
    decreases |b|
  {
    if b == [] {
      assert a + b == a;
    } else {
      var n := |b|;
      assert (a + b)[..|a + b| - 1] == a + b[..n - 1];
      CoveringAppend(a, b[..n - 1], j);
    }
  }

  lemma {:induction false} CoveringAll(cs: seq<ChunkArgs>, j: int)
    requires forall k :: 0 <= k < |cs| ==> Covers(cs[k], j)
    ensures Covering(cs, j) == cs
    decreases |cs|
  {
    if cs != [] {
      CoveringAll(cs[..|cs| - 1], j);
    }
  }

  lemma {:induction false} CoveringNone(cs: seq<ChunkArgs>, j: int)
    requires forall k :: 0 <= k < |cs| ==> !Covers(cs[k], j)
    ensures Covering(cs, j) == []
    decreases |cs|
  {
    if cs != [] {
      CoveringNone(cs[..|cs| - 1], j);
    }
  }

  /** The chunks' contents are the groups joined by spaces, one by one. */
  predicate PackedAs(cs: seq<ChunkArgs>, groups: seq<seq<string>>) {
    |cs| == |groups| && forall k :: 0 <= k < |cs| ==> cs[k].content == Join(" ", groups[k])
  }

  lemma {:induction false} GroupCallsIndex(groups: seq<seq<string>>, firstIndex: int, line: int)
    ensures forall k :: 0 <= k < |groups| ==>
      GroupCalls(groups, firstIndex, line)[k] == ChunkArgs(Join(" ", groups[k]), firstIndex + k, line, line)
    decreases |groups|
  {
    if groups != [] {
      var n := |groups| - 1;
      GroupCallsIndex(groups[..n], firstIndex, line);
      assert forall k :: 0 <= k < n ==> groups[..n][k] == groups[k];
    }
  }

  predicate DenseIndices(calls: seq<ChunkArgs>) {
    forall k :: 0 <= k < |calls| ==> calls[k].chunkIndex == k
  }

  /** A line chunk or a word chunk. */
  ghost predicate WellShaped(lines: seq<string>, cfg: Config, count: TokenCount, c: ChunkArgs) {
    IsLineChunk(lines, cfg, count, c) || IsWordChunk(lines, cfg, count, c)
  }

  /** Every chunk is a line chunk or a word chunk. */
  ghost predicate Shaped(lines: seq<string>, cfg: Config, count: TokenCount, calls: seq<ChunkArgs>) {
    forall k :: 0 <= k < |calls| ==> WellShaped(lines, cfg, count, calls[k])
  }

  predicate StartsOrdered(calls: seq<ChunkArgs>) {
    forall k :: 0 < k < |calls| ==> calls[k - 1].startLine <= calls[k].startLine
  }

  /** When line chunk `c` starts inside the lines of the line chunk `p` before it, the
      shared lines are exactly the overlap taken from `p`. */
  ghost predicate CarriesOverlap(lines: seq<string>, cfg: Config, count: TokenCount, p: ChunkArgs, c: ChunkArgs) {
    IsLineChunk(lines, cfg, count, p) && IsLineChunk(lines, cfg, count, c) && c.startLine <= p.endLine + 1 ==>
      IsOverlap(lines[p.startLine..p.endLine + 1], lines[c.startLine..p.endLine + 1], count, cfg.chunkOverlap)
  }

  ghost predicate OverlapCarried(lines: seq<string>, cfg: Config, count: TokenCount, calls: seq<ChunkArgs>) {
    forall k :: 0 < k < |calls| ==> CarriesOverlap(lines, cfg, count, calls[k - 1], calls[k])
  }

  /** The lines of line chunk `c` sum to at most the budget. */
  ghost predicate Fits(lines: seq<string>, cfg: Config, count: TokenCount, c: ChunkArgs) {
    IsLineChunk(lines, cfg, count, c) ==> SumCounts(count, lines[c.startLine..c.endLine + 1]) <= cfg.chunkSize
  }

  /** A line chunk `c` that does not start inside the line chunk `p` before it was built
      from the empty buffer, so it fits. */
  ghost predicate FitsIfFresh(lines: seq<string>, cfg: Config, count: TokenCount, p: ChunkArgs, c: ChunkArgs) {
    !IsLineChunk(lines, cfg, count, p) || c.startLine > p.endLine + 1 ==> Fits(lines, cfg, count, c)
  }

  /** The first chunk, and every line chunk that is not seeded by the one before it, fits. */
  ghost predicate FreshChunksFit(lines: seq<string>, cfg: Config, count: TokenCount, calls: seq<ChunkArgs>) {
    && (calls != [] ==> Fits(lines, cfg, count, calls[0]))
    && (forall k :: 0 < k < |calls| ==> FitsIfFresh(lines, cfg, count, calls[k - 1], calls[k]))
  }

  /** A line chunk `c` that starts right after the line chunk `p` (an empty overlap) was built
      from fresh lines only, so it fits. */
  ghost predicate FitsIfUnseeded(lines: seq<string>, cfg: Config, count: TokenCount, p: ChunkArgs, c: ChunkArgs) {
    (IsLineChunk(lines, cfg, count, p) && IsLineChunk(lines, cfg, count, c) && c.startLine == p.endLine + 1) ==>
      Fits(lines, cfg, count, c)
  }

  /** Every line chunk seeded with an empty overlap fits. */
  ghost predicate UnseededChunksFit(lines: seq<string>, cfg: Config, count: TokenCount, calls: seq<ChunkArgs>) {
    forall k :: 0 < k < |calls| ==> FitsIfUnseeded(lines, cfg, count, calls[k - 1], calls[k])
  }

  /** The last chunk of `prev` is a line chunk whose range reaches line `start - 1` or beyond. */
  ghost predicate Seeded(lines: seq<string>, cfg: Config, count: TokenCount, prev: seq<ChunkArgs>, start: int) {
    prev != [] && IsLineChunk(lines, cfg, count, prev[|prev| - 1]) && 0 <= start <= prev[|prev| - 1].endLine + 1
  }

  /** Chunk `c` may come right after the chunks `prev` in the output of `split_by_lines`. */
  ghost predicate Follows(lines: seq<string>, cfg: Config, count: TokenCount, prev: seq<ChunkArgs>, c: ChunkArgs) {
    && c.chunkIndex == |prev|
    && WellShaped(lines, cfg, count, c)
    && (prev == [] ==> Fits(lines, cfg, count, c))
    && (prev != [] ==> Adjacent(lines, cfg, count, prev[|prev| - 1], c))
  }

  /** Chunk `c` may come right after chunk `p`. */
  ghost predicate Adjacent(lines: seq<string>, cfg: Config, count: TokenCount, p: ChunkArgs, c: ChunkArgs) {
    && p.startLine <= c.startLine && p.endLine <= c.endLine
    && CarriesOverlap(lines, cfg, count, p, c)
    && FitsIfFresh(lines, cfg, count, p, c)
  }

  /** Each call follows the calls before it. */
  ghost predicate Chunking(lines: seq<string>, cfg: Config, count: TokenCount, calls: seq<ChunkArgs>)
    decreases |calls|
  {
    calls == [] ||
    (Chunking(lines, cfg, count, calls[..|calls| - 1]) && Follows(lines, cfg, count, calls[..|calls| - 1], calls[|calls| - 1]))
  }

  lemma ChunkingSnoc(lines: seq<string>, cfg: Config, count: TokenCount, calls: seq<ChunkArgs>, c: ChunkArgs)
    requires Chunking(lines, cfg, count, calls) && Follows(lines, cfg, count, calls, c)
    ensures Chunking(lines, cfg, count, calls + [c])
  {
    assert (calls + [c])[..|calls|] == calls;
  }

  /** What a `Chunking` says of all its calls at once. */
  lemma ChunkingMeans(lines: seq<string>, cfg: Config, count: TokenCount, calls: seq<ChunkArgs>)
    requires Chunking(lines, cfg, count, calls)
    ensures DenseIndices(calls) && Shaped(lines, cfg, count, calls) && StartsOrdered(calls)
    ensures OverlapCarried(lines, cfg, count, calls) && FreshChunksFit(lines, cfg, count, calls)
  {
    ChunkingDense(lines, cfg, count, calls);
    ChunkingShaped(lines, cfg, count, calls);
    ChunkingOrdered(lines, cfg, count, calls);
    ChunkingOverlaps(lines, cfg, count, calls);
    ChunkingFits(lines, cfg, count, calls);
  }

  lemma {:induction false} ChunkingDense(lines: seq<string>, cfg: Config, count: TokenCount, calls: seq<ChunkArgs>)
    requires Chunking(lines, cfg, count, calls)
    ensures DenseIndices(calls)
    decreases |calls|
  {
    if calls != [] {
      ChunkingDense(lines, cfg, count, calls[..|calls| - 1]);
      DenseLast(calls);
    }
  }

  lemma {:induction false} ChunkingShaped(lines: seq<string>, cfg: Config, count: TokenCount, calls: seq<ChunkArgs>)
    requires Chunking(lines, cfg, count, calls)
    ensures Shaped(lines, cfg, count, calls)
    decreases |calls|
  {
    if calls != [] {
      ChunkingShaped(lines, cfg, count, calls[..|calls| - 1]);
      ShapedLast(lines, cfg, count, calls);
    }
  }

  lemma {:induction false} ChunkingOrdered(lines: seq<string>, cfg: Config, count: TokenCount, calls: seq<ChunkArgs>)
    requires Chunking(lines, cfg, count, calls)
    ensures StartsOrdered(calls)
    decreases |calls|
  {
    if calls != [] {
      var prev, c := calls[..|calls| - 1], calls[|calls| - 1];
      assert calls == prev + [c];
      ChunkingOrdered(lines, cfg, count, prev);
      OrderedSnoc(prev, c);
    }
  }

  lemma {:induction false} ChunkingOverlaps(lines: seq<string>, cfg: Config, count: TokenCount, calls: seq<ChunkArgs>)
    requires Chunking(lines, cfg, count, calls)
    ensures OverlapCarried(lines, cfg, count, calls)
    decreases |calls|
  {
    if calls != [] {
      var prev, c := calls[..|calls| - 1], calls[|calls| - 1];
      assert calls == prev + [c];
      ChunkingOverlaps(lines, cfg, count, prev);
      OverlapCarriedSnoc(lines, cfg, count, prev, c);
    }
  }

  lemma {:induction false} ChunkingFits(lines: seq<string>, cfg: Config, count: TokenCount, calls: seq<ChunkArgs>)
    requires Chunking(lines, cfg, count, calls)
    ensures FreshChunksFit(lines, cfg, count, calls)
    decreases |calls|
  {
    if calls != [] {
      var prev, c := calls[..|calls| - 1], calls[|calls| - 1];
      assert calls == prev + [c];
      ChunkingFits(lines, cfg, count, prev);
      FreshChunksFitSnoc(lines, cfg, count, prev, c);
    }
  }

  lemma DenseLast(calls: seq<ChunkArgs>)
    requires calls != [] && DenseIndices(calls[..|calls| - 1]) && calls[|calls| - 1].chunkIndex == |calls| - 1
    ensures DenseIndices(calls)
  {
    assert forall k :: 0 <= k < |calls| - 1 ==> calls[..|calls| - 1][k] == calls[k];
  }

  lemma ShapedLast(lines: seq<string>, cfg: Config, count: TokenCount, calls: seq<ChunkArgs>)
    requires calls != [] && Shaped(lines, cfg, count, calls[..|calls| - 1])
    requires WellShaped(lines, cfg, count, calls[|calls| - 1])
    ensures Shaped(lines, cfg, count, calls)
  {
    var n := |calls| - 1;
    forall k | 0 <= k < n
      ensures WellShaped(lines, cfg, count, calls[k])
    {
      assert calls[..n][k] == calls[k];
    }
  }

  lemma OrderedSnoc(calls: seq<ChunkArgs>, c: ChunkArgs)
    requires StartsOrdered(calls)
    requires calls != [] ==> calls[|calls| - 1].startLine <= c.startLine
    ensures StartsOrdered(calls + [c])
  {
    assert forall k :: 0 <= k < |calls| ==> (calls + [c])[k] == calls[k];
  }

  lemma OverlapCarriedSnoc(lines: seq<string>, cfg: Config, count: TokenCount, calls: seq<ChunkArgs>, c: ChunkArgs)
    requires OverlapCarried(lines, cfg, count, calls)
    requires calls != [] ==> CarriesOverlap(lines, cfg, count, calls[|calls| - 1], c)
    ensures OverlapCarried(lines, cfg, count, calls + [c])
  {
    var all := calls + [c];
    forall k | 0 < k < |all|
      ensures CarriesOverlap(lines, cfg, count, all[k - 1], all[k])
    {
      if k < |calls| {
        assert all[k - 1] == calls[k - 1] && all[k] == calls[k];
      } else {
        assert all[k - 1] == calls[|calls| - 1] && all[k] == c;
      }
    }
  }

  lemma FreshChunksFitSnoc(lines: seq<string>, cfg: Config, count: TokenCount, calls: seq<ChunkArgs>, c: ChunkArgs)
    requires FreshChunksFit(lines, cfg, count, calls)
    requires calls == [] ==> Fits(lines, cfg, count, c)
    requires calls != [] ==> FitsIfFresh(lines, cfg, count, calls[|calls| - 1], c)
    ensures FreshChunksFit(lines, cfg, count, calls + [c])
  {
    var all := calls + [c];
    forall k | 0 < k < |all|
      ensures FitsIfFresh(lines, cfg, count, all[k - 1], all[k])
    {
      if k < |calls| {
        assert all[k - 1] == calls[k - 1] && all[k] == calls[k];
      } else {
        assert all[k - 1] == calls[|calls| - 1] && all[k] == c;
      }
    }
    assert all[0] == if calls == [] then c else calls[0];
  }

  /** No chunk covers a line after the last chunk's end. */
  lemma {:induction false} NoneCoverLater(lines: seq<string>, cfg: Config, count: TokenCount, calls: seq<ChunkArgs>, j: int)
    requires Chunking(lines, cfg, count, calls)
    requires calls != [] ==> calls[|calls| - 1].endLine < j
    ensures Covering(calls, j) == []
    decreases |calls|
  {
    if calls != [] {
      NoneCoverLater(lines, cfg, count, calls[..|calls| - 1], j);
    }
  }

  /** Every line before `upTo` lies in some chunk, except a line over the budget that has no words. */
  ghost predicate CoversLines(lines: seq<string>, cfg: Config, count: TokenCount, calls: seq<ChunkArgs>, upTo: int) {
    forall j {:trigger Covering(calls, j)} ::
      0 <= j < upTo ==> Covering(calls, j) != [] || (Long(lines, cfg, count, j) && Words(lines[j]) == [])
  }

  /** The chunks of each line over the budget (before `upTo`) are its words packed greedily. */
  ghost predicate PacksLongLines(lines: seq<string>, cfg: Config, count: TokenCount, calls: seq<ChunkArgs>, upTo: int,
                                 packing: map<int, seq<seq<string>>>) {
    forall j {:trigger Long(lines, cfg, count, j)} :: 0 <= j < upTo && Long(lines, cfg, count, j) ==>
      j in packing && GreedyPacking(Words(lines[j]), packing[j], count, cfg.chunkSize) && PackedAs(Covering(calls, j), packing[j])
  }

  /** The buffer at the head of iteration `i`: the lines just before `i`, none over the budget. */
  ghost predicate Buffer(lines: seq<string>, cfg: Config, count: TokenCount, i: int, cur: seq<string>, curTokens: int) {
    && |cur| <= i <= |lines|
    && cur == lines[i - |cur|..i]
    && (forall j :: i - |cur| <= j < i ==> !Long(lines, cfg, count, j))
    && (cur == [] ==> curTokens == 0)
    && (i > 0 && !Long(lines, cfg, count, i - 1) ==> cur != [])
  }

  /** The calls made before iteration `i`, whose buffer `cur` starts at line `start`. */
  ghost predicate Before(lines: seq<string>, cfg: Config, count: TokenCount, calls: seq<ChunkArgs>, i: int, start: int,
                         cur: seq<string>) {
    && (calls != [] ==> calls[|calls| - 1].endLine < i && calls[|calls| - 1].startLine <= start)
    && (calls != [] && !Long(lines, cfg, count, i - 1) ==> calls[|calls| - 1].endLine < i - 1)
    && (cur == [] ==> !Seeded(lines, cfg, count, calls, i))
  }

  /** The running count: a buffer seeded with overlap shares its first lines with the last
      line chunk; any other buffer's count is the sum of its lines' counts and fits. */
  ghost predicate Tokens(lines: seq<string>, cfg: Config, count: TokenCount, calls: seq<ChunkArgs>, start: int,
                         cur: seq<string>, curTokens: int) {
    && (cur != [] && Seeded(lines, cfg, count, calls, start) ==>
          IsOverlap(lines[calls[|calls| - 1].startLine..calls[|calls| - 1].endLine + 1],
                    lines[start..calls[|calls| - 1].endLine + 1], count, cfg.chunkOverlap))
    && (cur != [] && !Seeded(lines, cfg, count, calls, start) ==>
          curTokens == SumCounts(count, cur) && curTokens <= cfg.chunkSize)
  }

  /** The loop of `split_by_lines` at the head of iteration `i`, with the buffer starting at line `start`. */
  ghost predicate LoopInv(lines: seq<string>, cfg: Config, count: TokenCount, i: int, calls: seq<ChunkArgs>, chunkIndex: int,
                          cur: seq<string>, curTokens: int, packing: map<int, seq<seq<string>>>, start: int) {
    && start == i - |cur|
    && chunkIndex == |calls|
    && Buffer(lines, cfg, count, i, cur, curTokens)
    && Chunking(lines, cfg, count, calls)
    && Before(lines, cfg, count, calls, i, start, cur)
    && Tokens(lines, cfg, count, calls, start, cur, curTokens)
    && CoversLines(lines, cfg, count, calls, start)
    && PacksLongLines(lines, cfg, count, calls, i, packing)
  }

  /** Closing a non-empty buffer at iteration `i` makes a line chunk of exactly its lines. */
  lemma FlushChunking(lines: seq<string>, cfg: Config, count: TokenCount, i: int, calls: seq<ChunkArgs>,
                      cur: seq<string>, curTokens: int, start: int, c: ChunkArgs)
    requires Buffer(lines, cfg, count, i, cur, curTokens) && cur != [] && start == i - |cur|
    requires Chunking(lines, cfg, count, calls)
    requires Before(lines, cfg, count, calls, i, start, cur)
    requires Tokens(lines, cfg, count, calls, start, cur, curTokens)
    requires c == ChunkArgs(Join("\n", cur), |calls|, start, i - 1)
    ensures lines[c.startLine..c.endLine + 1] == cur
    ensures IsLineChunk(lines, cfg, count, c)
    ensures Chunking(lines, cfg, count, calls + [c])
  {
    assert lines[c.startLine..c.endLine + 1] == cur;
    ChunkingSnoc(lines, cfg, count, calls, c);
  }

  lemma CoversSnoc(lines: seq<string>, cfg: Config, count: TokenCount, calls: seq<ChunkArgs>, c: ChunkArgs, upTo: int)
    requires CoversLines(lines, cfg, count, calls, upTo)
    requires c.startLine <= upTo <= c.endLine + 1
    ensures CoversLines(lines, cfg, count, calls + [c], c.endLine + 1)
  {
    forall j | 0 <= j < c.endLine + 1
      ensures Covering(calls + [c], j) != [] || (Long(lines, cfg, count, j) && Words(lines[j]) == [])
    {
      CoveringSnoc(calls, c, j);
    }
  }

  lemma PacksSnocLine(lines: seq<string>, cfg: Config, count: TokenCount, calls: seq<ChunkArgs>, c: ChunkArgs, upTo: int,
                      packing: map<int, seq<seq<string>>>)
    requires PacksLongLines(lines, cfg, count, calls, upTo, packing)
    requires IsLineChunk(lines, cfg, count, c)
    ensures PacksLongLines(lines, cfg, count, calls + [c], upTo, packing)
  {
    forall j | 0 <= j < upTo && Long(lines, cfg, count, j)
      ensures Covering(calls + [c], j) == Covering(calls, j)
    {
      CoveringSnoc(calls, c, j);
    }
  }

  lemma PacksLater(lines: seq<string>, cfg: Config, count: TokenCount, calls: seq<ChunkArgs>, i: int,
                   packing: map<int, seq<seq<string>>>)
    requires PacksLongLines(lines, cfg, count, calls, i, packing) && !Long(lines, cfg, count, i)
    ensures PacksLongLines(lines, cfg, count, calls, i + 1, packing)
  {
    forall j | 0 <= j < i + 1 && Long(lines, cfg, count, j) ensures j < i {
    }
  }

  /** Appending the word chunks of line `i`, which is over the budget, to calls that end no later than `i`. */
  lemma {:induction false} ChunkingAppendWords(lines: seq<string>, cfg: Config, count: TokenCount, calls: seq<ChunkArgs>,
                                               groups: seq<seq<string>>, i: int)
    requires Chunking(lines, cfg, count, calls) && Long(lines, cfg, count, i)
    requires calls != [] ==> calls[|calls| - 1].startLine <= i && calls[|calls| - 1].endLine <= i
    ensures Chunking(lines, cfg, count, calls + GroupCalls(groups, |calls|, i))
    decreases |groups|
  {
    if groups != [] {
      var n := |groups| - 1;
      var before := GroupCalls(groups[..n], |calls|, i);
      var front := calls + before;
      ChunkingAppendWords(lines, cfg, count, calls, groups[..n], i);
      var w := ChunkArgs(Join(" ", groups[n]), |calls| + n, i, i);
      WordsEndAt(calls, groups[..n], i);
      WordFollows(lines, cfg, count, front, w, i);
      ChunkingSnoc(lines, cfg, count, front, w);
      AppendGroupsSnoc(calls, groups, i);
    } else {
      assert calls + GroupCalls(groups, |calls|, i) == calls;
    }
  }

  lemma AppendGroupsSnoc(calls: seq<ChunkArgs>, groups: seq<seq<string>>, i: int)
    requires groups != []
    ensures var n := |groups| - 1;
      calls + GroupCalls(groups, |calls|, i)
      == calls + GroupCalls(groups[..n], |calls|, i) + [ChunkArgs(Join(" ", groups[n]), |calls| + n, i, i)]
  {
  }

  /** After the word chunks of line `i` the last chunk starts and ends no later than `i`. */
  lemma WordsEndAt(calls: seq<ChunkArgs>, groups: seq<seq<string>>, i: int)
    requires calls != [] ==> calls[|calls| - 1].startLine <= i && calls[|calls| - 1].endLine <= i
    ensures var front := calls + GroupCalls(groups, |calls|, i);
      front != [] ==> front[|front| - 1].startLine <= i && front[|front| - 1].endLine <= i
  {
    var before := GroupCalls(groups, |calls|, i);
    if groups != [] {
      GroupCallsIndex(groups, |calls|, i);
      assert (calls + before)[|calls + before| - 1] == before[|groups| - 1];
    } else {
      assert calls + before == calls;
    }
  }

  /** A word chunk of line `i` may follow chunks that end no later than `i`. */
  lemma WordFollows(lines: seq<string>, cfg: Config, count: TokenCount, prev: seq<ChunkArgs>, w: ChunkArgs, i: int)
    requires Long(lines, cfg, count, i)
    requires w.chunkIndex == |prev| && w.startLine == i && w.endLine == i
    requires prev != [] ==> prev[|prev| - 1].startLine <= i && prev[|prev| - 1].endLine <= i
    ensures Follows(lines, cfg, count, prev, w)
  {
    assert !IsLineChunk(lines, cfg, count, w);
  }

  lemma CoversAppendWords(lines: seq<string>, cfg: Config, count: TokenCount, calls: seq<ChunkArgs>,
                          groups: seq<seq<string>>, i: int)
    requires CoversLines(lines, cfg, count, calls, i) && Long(lines, cfg, count, i)
    requires GreedyPacking(Words(lines[i]), groups, count, cfg.chunkSize)
    ensures CoversLines(lines, cfg, count, calls + GroupCalls(groups, |calls|, i), i + 1)
  {
    var ws := GroupCalls(groups, |calls|, i);
    GroupCallsIndex(groups, |calls|, i);
    forall j | 0 <= j < i + 1
      ensures Covering(calls + ws, j) != [] || (Long(lines, cfg, count, j) && Words(lines[j]) == [])
    {
      CoveringAppend(calls, ws, j);
      if j == i {
        CoveringAll(ws, j);
        assert groups == [] ==> Words(lines[i]) == Flatten(groups);
      }
    }
  }

  /** The chunks covering line `i` after its word chunks are added are exactly those word chunks. */
  lemma CoveringWordsLine(calls: seq<ChunkArgs>, groups: seq<seq<string>>, i: int)
    requires Covering(calls, i) == []
    ensures Covering(calls + GroupCalls(groups, |calls|, i), i) == GroupCalls(groups, |calls|, i)
  {
    var ws := GroupCalls(groups, |calls|, i);
    GroupCallsIndex(groups, |calls|, i);
    CoveringAppend(calls, ws, i);
    CoveringAll(ws, i);
  }

  lemma PacksAppendWords(lines: seq<string>, cfg: Config, count: TokenCount, calls: seq<ChunkArgs>,
                         groups: seq<seq<string>>, i: int, packing: map<int, seq<seq<string>>>)
    requires PacksLongLines(lines, cfg, count, calls, i, packing) && Long(lines, cfg, count, i)
    requires GreedyPacking(Words(lines[i]), groups, count, cfg.chunkSize)
    requires Covering(calls, i) == []
    ensures PacksLongLines(lines, cfg, count, calls + GroupCalls(groups, |calls|, i), i + 1, packing[i := groups])
  {
    var ws := GroupCalls(groups, |calls|, i);
    var packing' := packing[i := groups];
    forall j | 0 <= j < i + 1 && Long(lines, cfg, count, j)
      ensures j in packing' && GreedyPacking(Words(lines[j]), packing'[j], count, cfg.chunkSize)
              && PackedAs(Covering(calls + ws, j), packing'[j])
    {
      if j == i {
        CoveringWordsLine(calls, groups, i);
        GroupCallsPacked(groups, |calls|, i);
      } else {
        GroupCallsIndex(groups, |calls|, i);
        CoveringAppend(calls, ws, j);
        CoveringNone(ws, j);
      }
    }
  }

  lemma GroupCallsPacked(groups: seq<seq<string>>, first: int, i: int)
    ensures PackedAs(GroupCalls(groups, first, i), groups)
  {
    GroupCallsIndex(groups, first, i);
  }

  lemma BufferAppend(lines: seq<string>, cfg: Config, count: TokenCount, i: int, cur: seq<string>, curTokens: int)
    requires Buffer(lines, cfg, count, i, cur, curTokens)
    requires i < |lines| && !Long(lines, cfg, count, i)
    ensures Buffer(lines, cfg, count, i + 1, cur + [lines[i]], curTokens + count(lines[i]))
  {
    assert cur + [lines[i]] == lines[i - |cur|..i + 1];
  }

  lemma TokensAppend(lines: seq<string>, cfg: Config, count: TokenCount, calls: seq<ChunkArgs>, i: int,
                     cur: seq<string>, curTokens: int)
    requires Before(lines, cfg, count, calls, i, i - |cur|, cur)
    requires Tokens(lines, cfg, count, calls, i - |cur|, cur, curTokens)
    requires cur == [] ==> curTokens == 0
    requires 0 <= i < |lines| && curTokens + count(lines[i]) <= cfg.chunkSize
    ensures Tokens(lines, cfg, count, calls, i - |cur|, cur + [lines[i]], curTokens + count(lines[i]))
  {
    SumCountsAppend(count, cur, lines[i]);
  }

  /** Iteration `i` on a line within the budget that still fits the buffer. */
  lemma AppendStep(lines: seq<string>, cfg: Config, count: TokenCount, i: int, calls: seq<ChunkArgs>, chunkIndex: int,
                   cur: seq<string>, curTokens: int, packing: map<int, seq<seq<string>>>, start: int)
    requires LoopInv(lines, cfg, count, i, calls, chunkIndex, cur, curTokens, packing, start)
    requires GreedyInv(lines, cfg, count, i, calls, cur, curTokens, start)
    requires i < |lines| && !Long(lines, cfg, count, i) && curTokens + count(lines[i]) <= cfg.chunkSize
    ensures LoopInv(lines, cfg, count, i + 1, calls, chunkIndex, cur + [lines[i]], curTokens + count(lines[i]), packing, start)
    ensures GreedyInv(lines, cfg, count, i + 1, calls, cur + [lines[i]], curTokens + count(lines[i]), start)
  {
    AppendGreedy(lines, cfg, count, i, calls, cur, curTokens, start);
    BufferAppend(lines, cfg, count, i, cur, curTokens);
    TokensAppend(lines, cfg, count, calls, i, cur, curTokens);
    PacksLater(lines, cfg, count, calls, i, packing);
  }

  /** After an overflow the buffer is the overlap followed by line `i`. */
  lemma BufferOverflow(lines: seq<string>, cfg: Config, count: TokenCount, i: int, cur: seq<string>, curTokens: int,
                       ov: seq<string>, newTokens: int)
    requires Buffer(lines, cfg, count, i, cur, curTokens)
    requires i < |lines| && !Long(lines, cfg, count, i)
    requires IsOverlap(cur, ov, count, cfg.chunkOverlap)
    ensures ov == lines[i - |ov|..i]
    ensures Buffer(lines, cfg, count, i + 1, ov + [lines[i]], newTokens)
  {
    assert ov == cur[|cur| - |ov|..];
    assert ov == lines[i - |ov|..i];
    assert ov + [lines[i]] == lines[i - |ov|..i + 1];
  }

  /** A buffer seeded with the overlap of the chunk just made. */
  lemma TokensSeeded(lines: seq<string>, cfg: Config, count: TokenCount, calls: seq<ChunkArgs>, c: ChunkArgs,
                     cur: seq<string>, ov: seq<string>, start: int, next: seq<string>, newTokens: int)
    requires IsLineChunk(lines, cfg, count, c) && lines[c.startLine..c.endLine + 1] == cur
    requires c.startLine <= start <= c.endLine + 1 && ov == lines[start..c.endLine + 1]
    requires IsOverlap(cur, ov, count, cfg.chunkOverlap)
    ensures Tokens(lines, cfg, count, calls + [c], start, next, newTokens)
  {
    var all := calls + [c];
    assert all[|all| - 1] == c;
    assert Seeded(lines, cfg, count, all, start);
  }

  lemma BeforeSnocLine(lines: seq<string>, cfg: Config, count: TokenCount, calls: seq<ChunkArgs>, c: ChunkArgs, i: int,
                       start: int, next: seq<string>)
    requires c.endLine == i - 1 && c.startLine <= start && next != []
    ensures Before(lines, cfg, count, calls + [c], i + 1, start, next)
  {
    assert (calls + [c])[|calls|] == c;
  }

  /** Iteration `i` on a line within the budget that overflows the buffer. */
  lemma OverflowIteration(lines: seq<string>, cfg: Config, count: TokenCount, i: int, calls: seq<ChunkArgs>, chunkIndex: int,
                          cur: seq<string>, curTokens: int, packing: map<int, seq<seq<string>>>, start: int,
                          ov: seq<string>, newTokens: int, calls': seq<ChunkArgs>, chunkIndex': int,
                          cur': seq<string>, start': int)
    requires LoopInv(lines, cfg, count, i, calls, chunkIndex, cur, curTokens, packing, start)
    requires i < |lines| && !Long(lines, cfg, count, i) && curTokens + count(lines[i]) > cfg.chunkSize
    requires IsOverlap(cur, ov, count, cfg.chunkOverlap)
    requires calls' == if cur != [] then calls + [ChunkArgs(Join("\n", cur), chunkIndex, i - |cur|, i - 1)] else calls
    requires chunkIndex' == if cur != [] then chunkIndex + 1 else chunkIndex
    requires cur' == ov + [lines[i]] && start' == i - |ov|
    requires GreedyInv(lines, cfg, count, i, calls, cur, curTokens, start) && newTokens == count(Join("\n", cur'))
    ensures LoopInv(lines, cfg, count, i + 1, calls', chunkIndex', cur', newTokens, packing, start')
    ensures GreedyInv(lines, cfg, count, i + 1, calls', cur', newTokens, start')
  {
    OverflowGreedy(lines, cfg, count, i, calls, cur, curTokens, start, ov, calls', cur', start', newTokens);
    OverflowCloses(lines, cfg, count, i, calls, chunkIndex, cur, curTokens, packing, start);
    OverflowStep(lines, cfg, count, i, calls, chunkIndex, cur, curTokens, packing, start, ov, newTokens,
                 calls', chunkIndex', cur', start');
  }

  /** A line within the budget overflows only a non-empty buffer. */
  lemma OverflowCloses(lines: seq<string>, cfg: Config, count: TokenCount, i: int, calls: seq<ChunkArgs>, chunkIndex: int,
                       cur: seq<string>, curTokens: int, packing: map<int, seq<seq<string>>>, start: int)
    requires LoopInv(lines, cfg, count, i, calls, chunkIndex, cur, curTokens, packing, start)
    requires i < |lines| && !Long(lines, cfg, count, i) && curTokens + count(lines[i]) > cfg.chunkSize
    ensures cur != [] && start == i - |cur|
  {
  }

  /** Iteration `i` on a line within the budget that overflows the (non-empty) buffer. */
  lemma OverflowStep(lines: seq<string>, cfg: Config, count: TokenCount, i: int, calls: seq<ChunkArgs>, chunkIndex: int,
                       cur: seq<string>, curTokens: int, packing: map<int, seq<seq<string>>>, start: int,
                       ov: seq<string>, newTokens: int, calls': seq<ChunkArgs>, chunkIndex': int,
                       cur': seq<string>, start': int)
    requires LoopInv(lines, cfg, count, i, calls, chunkIndex, cur, curTokens, packing, start)
    requires i < |lines| && !Long(lines, cfg, count, i) && cur != []
    requires IsOverlap(cur, ov, count, cfg.chunkOverlap)
    requires calls' == calls + [ChunkArgs(Join("\n", cur), chunkIndex, i - |cur|, i - 1)] && chunkIndex' == chunkIndex + 1
    requires cur' == ov + [lines[i]] && start' == i - |ov|
    ensures LoopInv(lines, cfg, count, i + 1, calls', chunkIndex', cur', newTokens, packing, start')
  {
    FlushStartsAt(calls, cur, i, start, calls');
    OverflowFlush(lines, cfg, count, i, calls, cur, curTokens, start, ov, newTokens, calls', cur', start');
    OverflowCoverage(lines, cfg, count, i, calls, cur, packing, start, calls');
  }

  /** The chunk closed from a buffer starting at `start` starts at `start`. */
  lemma FlushStartsAt(calls: seq<ChunkArgs>, cur: seq<string>, i: int, start: int, calls': seq<ChunkArgs>)
    requires start == i - |cur|
    requires calls' == calls + [ChunkArgs(Join("\n", cur), |calls|, i - |cur|, i - 1)]
    ensures calls' == calls + [ChunkArgs(Join("\n", cur), |calls|, start, i - 1)]
  {
  }

  /** The chunk closed on an overflow follows the calls before it, and the new buffer is the overlap and line `i`. */
  lemma OverflowFlush(lines: seq<string>, cfg: Config, count: TokenCount, i: int, calls: seq<ChunkArgs>,
                      cur: seq<string>, curTokens: int, start: int, ov: seq<string>, newTokens: int,
                      calls': seq<ChunkArgs>, cur': seq<string>, start': int)
    requires Buffer(lines, cfg, count, i, cur, curTokens) && cur != [] && start == i - |cur|
    requires Chunking(lines, cfg, count, calls)
    requires Before(lines, cfg, count, calls, i, start, cur)
    requires Tokens(lines, cfg, count, calls, start, cur, curTokens)
    requires i < |lines| && !Long(lines, cfg, count, i)
    requires IsOverlap(cur, ov, count, cfg.chunkOverlap)
    requires calls' == calls + [ChunkArgs(Join("\n", cur), |calls|, start, i - 1)]
    requires cur' == ov + [lines[i]] && start' == i - |ov|
    ensures Chunking(lines, cfg, count, calls')
    ensures Buffer(lines, cfg, count, i + 1, cur', newTokens)
    ensures Tokens(lines, cfg, count, calls', start', cur', newTokens)
    ensures Before(lines, cfg, count, calls', i + 1, start', cur')
  {
    var c := ChunkArgs(Join("\n", cur), |calls|, start, i - 1);
    FlushChunking(lines, cfg, count, i, calls, cur, curTokens, start, c);
    BufferOverflow(lines, cfg, count, i, cur, curTokens, ov, newTokens);
    TokensSeeded(lines, cfg, count, calls, c, cur, ov, start', cur', newTokens);
    BeforeSnocLine(lines, cfg, count, calls, c, i, start', cur');
  }

  /** The chunk closed on an overflow covers the lines of the buffer and none over the budget. */
  lemma OverflowCoverage(lines: seq<string>, cfg: Config, count: TokenCount, i: int, calls: seq<ChunkArgs>,
                         cur: seq<string>, packing: map<int, seq<seq<string>>>, start: int, calls': seq<ChunkArgs>)
    requires |cur| <= i < |lines| && cur == lines[i - |cur|..i] && cur != [] && start == i - |cur|
    requires forall j :: i - |cur| <= j < i ==> !Long(lines, cfg, count, j)
    requires !Long(lines, cfg, count, i)
    requires CoversLines(lines, cfg, count, calls, start)
    requires PacksLongLines(lines, cfg, count, calls, i, packing)
    requires calls' == calls + [ChunkArgs(Join("\n", cur), |calls|, start, i - 1)]
    ensures CoversLines(lines, cfg, count, calls', start)
    ensures PacksLongLines(lines, cfg, count, calls', i + 1, packing)
  {
    var c := ChunkArgs(Join("\n", cur), |calls|, start, i - 1);
    assert lines[c.startLine..c.endLine + 1] == cur;
    CoversSnoc(lines, cfg, count, calls, c, start);
    PacksSnocLine(lines, cfg, count, calls, c, i, packing);
    PacksLater(lines, cfg, count, calls', i, packing);
  }

  /** Iteration `i` on a line over the budget: the buffer (if any) is closed into `flushed`, whose
      next index is `flushedIndex`, and the word chunks `wordCalls` of the line follow. */
  lemma LongStep(lines: seq<string>, cfg: Config, count: TokenCount, i: int, calls: seq<ChunkArgs>, chunkIndex: int,
                 cur: seq<string>, curTokens: int, packing: map<int, seq<seq<string>>>, start: int,
                 flushed: seq<ChunkArgs>, flushedIndex: int, groups: seq<seq<string>>, wordCalls: seq<ChunkArgs>,
                 calls': seq<ChunkArgs>, chunkIndex': int, packing': map<int, seq<seq<string>>>)
    requires LoopInv(lines, cfg, count, i, calls, chunkIndex, cur, curTokens, packing, start)
    requires i < |lines| && Long(lines, cfg, count, i)
    requires flushed == if cur != [] then calls + [ChunkArgs(Join("\n", cur), chunkIndex, i - |cur|, i - 1)] else calls
    requires flushedIndex == if cur != [] then chunkIndex + 1 else chunkIndex
    requires GreedyPacking(Words(lines[i]), groups, count, cfg.chunkSize)
    requires wordCalls == GroupCalls(groups, flushedIndex, i)
    requires calls' == flushed + wordCalls && chunkIndex' == flushedIndex + |wordCalls| && packing' == packing[i := groups]
    requires GreedyInv(lines, cfg, count, i, calls, cur, curTokens, start)
    ensures cur == [] ==> curTokens == 0
    ensures LoopInv(lines, cfg, count, i + 1, calls', chunkIndex', [], 0, packing', i + 1)
    ensures GreedyInv(lines, cfg, count, i + 1, calls', [], 0, i + 1)
  {
    LongGreedy(lines, cfg, count, i, calls, chunkIndex, cur, curTokens, start, flushed, flushedIndex, groups, calls');
    LongFlush(lines, cfg, count, i, calls, chunkIndex, cur, curTokens, packing, start, flushed, flushedIndex);
    LongWords(lines, cfg, count, i, calls, cur, packing, flushed, groups, wordCalls, calls', chunkIndex', packing');
  }

  /** The word chunks of a line over the budget, appended after the closed buffer `flushed`. */
  lemma LongWords(lines: seq<string>, cfg: Config, count: TokenCount, i: int, calls: seq<ChunkArgs>, cur: seq<string>,
                  packing: map<int, seq<seq<string>>>, flushed: seq<ChunkArgs>, groups: seq<seq<string>>,
                  wordCalls: seq<ChunkArgs>, calls': seq<ChunkArgs>, chunkIndex': int,
                  packing': map<int, seq<seq<string>>>)
    requires i < |lines| && Long(lines, cfg, count, i)
    requires flushed == if cur != [] then calls + [ChunkArgs(Join("\n", cur), |calls|, i - |cur|, i - 1)] else calls
    requires Before(lines, cfg, count, calls, i, i - |cur|, cur)
    requires Chunking(lines, cfg, count, flushed)
    requires flushed != [] ==> flushed[|flushed| - 1].startLine <= i && flushed[|flushed| - 1].endLine < i
    requires CoversLines(lines, cfg, count, flushed, i)
    requires PacksLongLines(lines, cfg, count, flushed, i, packing)
    requires GreedyPacking(Words(lines[i]), groups, count, cfg.chunkSize)
    requires wordCalls == GroupCalls(groups, |flushed|, i)
    requires calls' == flushed + wordCalls && chunkIndex' == |calls'| && packing' == packing[i := groups]
    ensures LoopInv(lines, cfg, count, i + 1, calls', chunkIndex', [], 0, packing', i + 1)
  {
    LongWordsParts(lines, cfg, count, i, calls, cur, packing, flushed, groups, wordCalls, calls', packing');
    EmptyBuffer(lines, cfg, count, calls', i + 1);
  }

  /** An empty buffer after a line over the budget. */
  lemma EmptyBuffer(lines: seq<string>, cfg: Config, count: TokenCount, calls: seq<ChunkArgs>, i: int)
    requires 0 < i <= |lines| && Long(lines, cfg, count, i - 1)
    ensures Buffer(lines, cfg, count, i, [], 0)
    ensures Tokens(lines, cfg, count, calls, i, [], 0)
  {
  }

  /** The loop invariant's facts about the calls, once the word chunks follow `flushed`. */
  lemma LongWordsParts(lines: seq<string>, cfg: Config, count: TokenCount, i: int, calls: seq<ChunkArgs>, cur: seq<string>,
                       packing: map<int, seq<seq<string>>>, flushed: seq<ChunkArgs>, groups: seq<seq<string>>,
                       wordCalls: seq<ChunkArgs>, calls': seq<ChunkArgs>, packing': map<int, seq<seq<string>>>)
    requires i < |lines| && Long(lines, cfg, count, i)
    requires flushed == if cur != [] then calls + [ChunkArgs(Join("\n", cur), |calls|, i - |cur|, i - 1)] else calls
    requires Before(lines, cfg, count, calls, i, i - |cur|, cur)
    requires Chunking(lines, cfg, count, flushed)
    requires flushed != [] ==> flushed[|flushed| - 1].startLine <= i && flushed[|flushed| - 1].endLine < i
    requires CoversLines(lines, cfg, count, flushed, i)
    requires PacksLongLines(lines, cfg, count, flushed, i, packing)
    requires GreedyPacking(Words(lines[i]), groups, count, cfg.chunkSize)
    requires wordCalls == GroupCalls(groups, |flushed|, i)
    requires calls' == flushed + wordCalls && packing' == packing[i := groups]
    ensures Chunking(lines, cfg, count, calls')
    ensures Before(lines, cfg, count, calls', i + 1, i + 1, [])
    ensures CoversLines(lines, cfg, count, calls', i + 1)
    ensures PacksLongLines(lines, cfg, count, calls', i + 1, packing')
  {
    NoneCoverLater(lines, cfg, count, flushed, i);
    ChunkingAppendWords(lines, cfg, count, flushed, groups, i);
    CoversAppendWords(lines, cfg, count, flushed, groups, i);
    PacksAppendWords(lines, cfg, count, flushed, groups, i, packing);
    LongStepLast(lines, cfg, count, i, calls, cur, flushed, groups);
  }

  /** Closing the buffer (if any) before a line over the budget. */
  lemma LongFlush(lines: seq<string>, cfg: Config, count: TokenCount, i: int, calls: seq<ChunkArgs>, chunkIndex: int,
                  cur: seq<string>, curTokens: int, packing: map<int, seq<seq<string>>>, start: int,
                  flushed: seq<ChunkArgs>, flushedIndex: int)
    requires LoopInv(lines, cfg, count, i, calls, chunkIndex, cur, curTokens, packing, start)
    requires i < |lines| && Long(lines, cfg, count, i)
    requires flushed == if cur != [] then calls + [ChunkArgs(Join("\n", cur), chunkIndex, i - |cur|, i - 1)] else calls
    requires flushedIndex == if cur != [] then chunkIndex + 1 else chunkIndex
    ensures flushedIndex == |flushed|
    ensures Chunking(lines, cfg, count, flushed)
    ensures flushed != [] ==> flushed[|flushed| - 1].startLine <= i && flushed[|flushed| - 1].endLine < i
    ensures CoversLines(lines, cfg, count, flushed, i)
    ensures PacksLongLines(lines, cfg, count, flushed, i, packing)
  {
    if cur != [] {
      LongFlushOpen(lines, cfg, count, i, calls, cur, curTokens, packing, start);
    } else {
      LongFlushEmpty(lines, cfg, count, i, calls, chunkIndex, curTokens, packing, start);
    }
  }

  /** With no open buffer, a line over the budget closes nothing. */
  lemma LongFlushEmpty(lines: seq<string>, cfg: Config, count: TokenCount, i: int, calls: seq<ChunkArgs>, chunkIndex: int,
                       curTokens: int, packing: map<int, seq<seq<string>>>, start: int)
    requires LoopInv(lines, cfg, count, i, calls, chunkIndex, [], curTokens, packing, start)
    ensures chunkIndex == |calls|
    ensures calls != [] ==> calls[|calls| - 1].startLine <= i && calls[|calls| - 1].endLine < i
    ensures CoversLines(lines, cfg, count, calls, i)
  {
  }

  /** Closing a non-empty buffer before a line over the budget. */
  lemma LongFlushOpen(lines: seq<string>, cfg: Config, count: TokenCount, i: int, calls: seq<ChunkArgs>,
                      cur: seq<string>, curTokens: int, packing: map<int, seq<seq<string>>>, start: int)
    requires Buffer(lines, cfg, count, i, cur, curTokens) && cur != [] && start == i - |cur|
    requires Chunking(lines, cfg, count, calls) && Before(lines, cfg, count, calls, i, start, cur)
    requires Tokens(lines, cfg, count, calls, start, cur, curTokens)
    requires CoversLines(lines, cfg, count, calls, start) && PacksLongLines(lines, cfg, count, calls, i, packing)
    requires i < |lines| && Long(lines, cfg, count, i)
    ensures var flushed := calls + [ChunkArgs(Join("\n", cur), |calls|, start, i - 1)];
      && Chunking(lines, cfg, count, flushed)
      && flushed[|flushed| - 1].startLine <= i && flushed[|flushed| - 1].endLine < i
      && CoversLines(lines, cfg, count, flushed, i)
      && PacksLongLines(lines, cfg, count, flushed, i, packing)
  {
    var c := ChunkArgs(Join("\n", cur), |calls|, start, i - 1);
    FlushChunking(lines, cfg, count, i, calls, cur, curTokens, start, c);
    CoversSnoc(lines, cfg, count, calls, c, start);
    PacksSnocLine(lines, cfg, count, calls, c, i, packing);
  }

  /** The last call after a line over the budget ends at that line and is no line chunk reaching past it. */
  lemma LongStepLast(lines: seq<string>, cfg: Config, count: TokenCount, i: int, calls: seq<ChunkArgs>, cur: seq<string>,
                     flushed: seq<ChunkArgs>, groups: seq<seq<string>>)
    requires Long(lines, cfg, count, i)
    requires Before(lines, cfg, count, calls, i, i - |cur|, cur)
    requires flushed == if cur != [] then calls + [ChunkArgs(Join("\n", cur), |calls|, i - |cur|, i - 1)] else calls
    ensures Before(lines, cfg, count, flushed + GroupCalls(groups, |flushed|, i), i + 1, i + 1, [])
  {
    var ws := GroupCalls(groups, |flushed|, i);
    var all := flushed + ws;
    if ws != [] {
      GroupCallsIndex(groups, |flushed|, i);
      var w := ws[|ws| - 1];
      assert all[|all| - 1] == w;
      assert w.startLine == i && w.endLine == i;
      assert !IsLineChunk(lines, cfg, count, w);
    } else {
      assert all == flushed;
      if cur != [] {
        assert flushed[|flushed| - 1].endLine == i - 1;
      }
    }
  }

  /** After the last line: closing the buffer gives calls with every property `SplitByLines` promises. */
  lemma Finish(lines: seq<string>, cfg: Config, count: TokenCount, calls: seq<ChunkArgs>, chunkIndex: int,
               cur: seq<string>, curTokens: int, packing: map<int, seq<seq<string>>>, start: int, result: seq<ChunkArgs>)
    requires LoopInv(lines, cfg, count, |lines|, calls, chunkIndex, cur, curTokens, packing, start)
    requires result == if cur != [] then calls + [ChunkArgs(Join("\n", cur), chunkIndex, start, |lines| - 1)] else calls
    requires GreedyInv(lines, cfg, count, |lines|, calls, cur, curTokens, start)
    ensures Chunking(lines, cfg, count, result)
    ensures CoversLines(lines, cfg, count, result, |lines|)
    ensures PacksLongLines(lines, cfg, count, result, |lines|, packing)
    ensures Greedy(lines, cfg, count, result)
  {
    FinishGreedy(lines, cfg, count, calls, chunkIndex, cur, curTokens, start, result);
    var n := |lines|;
    if cur != [] {
      var c := result[|calls|];
      assert result == calls + [c];
      FlushChunking(lines, cfg, count, n, calls, cur, curTokens, start, c);
      CoversSnoc(lines, cfg, count, calls, c, start);
      PacksSnocLine(lines, cfg, count, calls, c, n, packing);
    }
  }

  /** A document of one line within the budget is one chunk of the whole line. */
  lemma SingleLine(lines: seq<string>, cfg: Config, count: TokenCount, calls: seq<ChunkArgs>, chunkIndex: int,
                   cur: seq<string>, curTokens: int, packing: map<int, seq<seq<string>>>, start: int, result: seq<ChunkArgs>)
    requires LoopInv(lines, cfg, count, |lines|, calls, chunkIndex, cur, curTokens, packing, start)
    requires result == if cur != [] then calls + [ChunkArgs(Join("\n", cur), chunkIndex, start, |lines| - 1)] else calls
    requires |lines| == 1 && !Long(lines, cfg, count, 0)
    ensures result == [ChunkArgs(lines[0], 0, 0, 0)]
  {
    assert cur == lines;
    NoCallsBefore(lines, cfg, count, calls);
    assert Join("\n", [lines[0]]) == lines[0];
  }

  /** Calls that all end before line 0 are no calls. */
  lemma NoCallsBefore(lines: seq<string>, cfg: Config, count: TokenCount, calls: seq<ChunkArgs>)
    requires Chunking(lines, cfg, count, calls)
    requires calls != [] ==> calls[|calls| - 1].endLine < 0
    ensures calls == []
  {
  }

  // ------------------------------------------------------ greedy closure

  /** `current_tokens` for a buffer holding lines `start..end - 1` after the calls `prev`: a
      buffer seeded on an overflow at line `l` counts the joined overlap and line `l` as one
      text, then adds the lines appended after it; any other buffer sums its lines' counts. */
  ghost function Running(lines: seq<string>, cfg: Config, count: TokenCount, prev: seq<ChunkArgs>, start: int, end: int): int
    requires 0 <= start <= end <= |lines|
  {
    if Seeded(lines, cfg, count, prev, start) && prev[|prev| - 1].endLine + 1 < end then
      var l := prev[|prev| - 1].endLine + 1;
      count(Join("\n", lines[start..l + 1])) + SumCounts(count, lines[l + 1..end])
    else SumCounts(count, lines[start..end])
  }

  /** Every line appended to the buffer fitted: the running count is within the budget, unless
      the buffer is only the overlap and the line that overflowed the buffer before it. */
  ghost predicate Filled(lines: seq<string>, cfg: Config, count: TokenCount, prev: seq<ChunkArgs>, start: int, end: int)
    requires 0 <= start <= end <= |lines|
  {
    Running(lines, cfg, count, prev, start, end) <= cfg.chunkSize
    || (Seeded(lines, cfg, count, prev, start) && end == prev[|prev| - 1].endLine + 2)
  }

  /** The buffer was closed only where the loop closes it: after the last line, before a line
      over the budget, or before a line the running count cannot take. */
  ghost predicate ClosedAt(lines: seq<string>, cfg: Config, count: TokenCount, prev: seq<ChunkArgs>, start: int, end: int)
    requires 0 <= start <= end <= |lines|
  {
    end == |lines| || Long(lines, cfg, count, end)
    || Running(lines, cfg, count, prev, start, end) + count(lines[end]) > cfg.chunkSize
  }

  /** A line chunk `c` made after the calls `prev` took at least one line past them, took lines
      while they fitted and stopped at the first place where the loop closes a buffer. */
  ghost predicate StopsGreedily(lines: seq<string>, cfg: Config, count: TokenCount, prev: seq<ChunkArgs>, c: ChunkArgs) {
    IsLineChunk(lines, cfg, count, c) ==>
      && (prev != [] ==> prev[|prev| - 1].endLine < c.endLine)
      && Filled(lines, cfg, count, prev, c.startLine, c.endLine + 1)
      && ClosedAt(lines, cfg, count, prev, c.startLine, c.endLine + 1)
  }

  /** Each call stops greedily after the calls before it. */
  ghost predicate Greedy(lines: seq<string>, cfg: Config, count: TokenCount, calls: seq<ChunkArgs>)
    decreases |calls|
  {
    calls == [] ||
    (Greedy(lines, cfg, count, calls[..|calls| - 1]) && StopsGreedily(lines, cfg, count, calls[..|calls| - 1], calls[|calls| - 1]))
  }

  /** Every line chunk of the calls stops greedily. */
  ghost predicate ClosesGreedily(lines: seq<string>, cfg: Config, count: TokenCount, calls: seq<ChunkArgs>) {
    forall k :: 0 <= k < |calls| ==> StopsGreedily(lines, cfg, count, calls[..k], calls[k])
  }

  /** The greedy part of the loop invariant: the calls so far stop greedily, and the open buffer
      holds `current_tokens` and has taken only lines that fitted. */
  ghost predicate GreedyInv(lines: seq<string>, cfg: Config, count: TokenCount, i: int, calls: seq<ChunkArgs>,
                            cur: seq<string>, curTokens: int, start: int) {
    && Greedy(lines, cfg, count, calls)
    && (cur != [] ==>
          && 0 <= start <= i <= |lines|
          && curTokens == Running(lines, cfg, count, calls, start, i)
          && Filled(lines, cfg, count, calls, start, i))
  }

  lemma GreedySnoc(lines: seq<string>, cfg: Config, count: TokenCount, calls: seq<ChunkArgs>, c: ChunkArgs)
    requires Greedy(lines, cfg, count, calls) && StopsGreedily(lines, cfg, count, calls, c)
    ensures Greedy(lines, cfg, count, calls + [c])
  {
    assert (calls + [c])[..|calls|] == calls;
  }

  /** What `Greedy` says of all its calls at once. */
  lemma {:induction false} GreedyMeans(lines: seq<string>, cfg: Config, count: TokenCount, calls: seq<ChunkArgs>)
    requires Greedy(lines, cfg, count, calls)
    ensures ClosesGreedily(lines, cfg, count, calls)
    decreases |calls|
  {
    if calls != [] {
      var n := |calls| - 1;
      GreedyMeans(lines, cfg, count, calls[..n]);
      forall k | 0 <= k < |calls|
        ensures StopsGreedily(lines, cfg, count, calls[..k], calls[k])
      {
        if k < n {
          assert calls[..n][..k] == calls[..k] && calls[..n][k] == calls[k];
        }
      }
    }
  }

  /** Appending one line to a buffer adds its count to the running count. */
  lemma RunningSnoc(lines: seq<string>, cfg: Config, count: TokenCount, prev: seq<ChunkArgs>, start: int, end: int)
    requires 0 <= start <= end < |lines|
    requires Seeded(lines, cfg, count, prev, start) ==> prev[|prev| - 1].endLine + 1 < end
    ensures Running(lines, cfg, count, prev, start, end + 1) == Running(lines, cfg, count, prev, start, end) + count(lines[end])
  {
    var a := if Seeded(lines, cfg, count, prev, start) then prev[|prev| - 1].endLine + 1 else start;
    assert lines[a..end + 1] == lines[a..end] + [lines[end]];
    SumCountsAppend(count, lines[a..end], lines[end]);
  }

  /** Closing the buffer of iteration `i` makes a line chunk. */
  lemma FlushIsLineChunk(lines: seq<string>, cfg: Config, count: TokenCount, i: int, cur: seq<string>, curTokens: int,
                         start: int, index: int)
    requires Buffer(lines, cfg, count, i, cur, curTokens) && cur != [] && start == i - |cur|
    ensures IsLineChunk(lines, cfg, count, ChunkArgs(Join("\n", cur), index, start, i - 1))
  {
    assert lines[start..i - 1 + 1] == cur;
  }

  /** The buffer closed at iteration `i` stops greedily when the loop closes it there. */
  lemma FlushStops(lines: seq<string>, cfg: Config, count: TokenCount, i: int, calls: seq<ChunkArgs>, cur: seq<string>,
                   curTokens: int, start: int)
    requires Buffer(lines, cfg, count, i, cur, curTokens) && cur != [] && start == i - |cur|
    requires Before(lines, cfg, count, calls, i, start, cur)
    requires GreedyInv(lines, cfg, count, i, calls, cur, curTokens, start)
    requires ClosedAt(lines, cfg, count, calls, start, i)
    ensures Greedy(lines, cfg, count, calls + [ChunkArgs(Join("\n", cur), |calls|, start, i - 1)])
  {
    var c := ChunkArgs(Join("\n", cur), |calls|, start, i - 1);
    assert c.endLine + 1 == i;
    assert !Long(lines, cfg, count, i - 1);
    GreedySnoc(lines, cfg, count, calls, c);
  }

  /** Iteration `i` appends a line within the budget that fits. */
  lemma AppendGreedy(lines: seq<string>, cfg: Config, count: TokenCount, i: int, calls: seq<ChunkArgs>, cur: seq<string>,
                     curTokens: int, start: int)
    requires Buffer(lines, cfg, count, i, cur, curTokens) && start == i - |cur|
    requires Before(lines, cfg, count, calls, i, start, cur)
    requires GreedyInv(lines, cfg, count, i, calls, cur, curTokens, start)
    requires i < |lines| && !Long(lines, cfg, count, i) && curTokens + count(lines[i]) <= cfg.chunkSize
    ensures GreedyInv(lines, cfg, count, i + 1, calls, cur + [lines[i]], curTokens + count(lines[i]), start)
  {
    if cur == [] {
      assert !Seeded(lines, cfg, count, calls, start);
      assert lines[i..i + 1] == [lines[i]];
      assert SumCounts(count, [lines[i]]) == count(lines[i]);
    } else {
      assert !Long(lines, cfg, count, i - 1);
      RunningSnoc(lines, cfg, count, calls, start, i);
    }
  }

  /** Iteration `i` on a line within the budget that overflows the buffer. */
  lemma OverflowGreedy(lines: seq<string>, cfg: Config, count: TokenCount, i: int, calls: seq<ChunkArgs>, cur: seq<string>,
                       curTokens: int, start: int, ov: seq<string>, calls': seq<ChunkArgs>, cur': seq<string>,
                       start': int, newTokens: int)
    requires Buffer(lines, cfg, count, i, cur, curTokens) && start == i - |cur|
    requires Before(lines, cfg, count, calls, i, start, cur)
    requires GreedyInv(lines, cfg, count, i, calls, cur, curTokens, start)
    requires i < |lines| && !Long(lines, cfg, count, i) && curTokens + count(lines[i]) > cfg.chunkSize
    requires IsOverlap(cur, ov, count, cfg.chunkOverlap)
    requires calls' == if cur != [] then calls + [ChunkArgs(Join("\n", cur), |calls|, i - |cur|, i - 1)] else calls
    requires cur' == ov + [lines[i]] && start' == i - |ov| && newTokens == count(Join("\n", cur'))
    ensures GreedyInv(lines, cfg, count, i + 1, calls', cur', newTokens, start')
  {
    assert cur != [];
    var c := ChunkArgs(Join("\n", cur), |calls|, start, i - 1);
    FlushStops(lines, cfg, count, i, calls, cur, curTokens, start);
    FlushIsLineChunk(lines, cfg, count, i, cur, curTokens, start, |calls|);
    SeededBuffer(lines, cfg, count, i, cur, curTokens, ov, calls, c, start');
  }

  /** The buffer seeded on an overflow at line `i` is counted as one text and is `Filled`. */
  lemma SeededBuffer(lines: seq<string>, cfg: Config, count: TokenCount, i: int, cur: seq<string>, curTokens: int,
                     ov: seq<string>, calls: seq<ChunkArgs>, c: ChunkArgs, start': int)
    requires Buffer(lines, cfg, count, i, cur, curTokens) && i < |lines|
    requires IsOverlap(cur, ov, count, cfg.chunkOverlap) && start' == i - |ov|
    requires IsLineChunk(lines, cfg, count, c) && c.endLine == i - 1
    ensures Seeded(lines, cfg, count, calls + [c], start')
    ensures Running(lines, cfg, count, calls + [c], start', i + 1) == count(Join("\n", ov + [lines[i]]))
    ensures Filled(lines, cfg, count, calls + [c], start', i + 1)
  {
    var all := calls + [c];
    assert all[|all| - 1] == c;
    SeededLines(lines, cfg, count, i, cur, curTokens, ov);
    SeededAfter(lines, cfg, count, all, i, start', ov + [lines[i]]);
  }

  /** A buffer `t` seeded by the overlap of the chunk closed just before line `i`, once `i` is added. */
  lemma SeededAfter(lines: seq<string>, cfg: Config, count: TokenCount, all: seq<ChunkArgs>, i: int, start: int,
                    t: seq<string>)
    requires Seeded(lines, cfg, count, all, start) && all[|all| - 1].endLine == i - 1 && i < |lines|
    requires lines[start..i + 1] == t
    ensures Running(lines, cfg, count, all, start, i + 1) == count(Join("\n", t))
    ensures Filled(lines, cfg, count, all, start, i + 1)
  {
    SeededRunning(lines, cfg, count, all, i, start);
  }

  lemma SeededLines(lines: seq<string>, cfg: Config, count: TokenCount, i: int, cur: seq<string>, curTokens: int,
                    ov: seq<string>)
    requires Buffer(lines, cfg, count, i, cur, curTokens) && i < |lines|
    requires IsOverlap(cur, ov, count, cfg.chunkOverlap)
    ensures lines[i - |ov|..i + 1] == ov + [lines[i]]
  {
    assert ov == cur[|cur| - |ov|..];
  }

  lemma SeededRunning(lines: seq<string>, cfg: Config, count: TokenCount, all: seq<ChunkArgs>, i: int, start: int)
    requires Seeded(lines, cfg, count, all, start) && all[|all| - 1].endLine == i - 1 && i < |lines|
    ensures Running(lines, cfg, count, all, start, i + 1) == count(Join("\n", lines[start..i + 1]))
  {
    assert lines[i + 1..i + 1] == [];
  }

  /** Iteration `i` on a line over the budget: the buffer is closed and the word chunks follow. */
  lemma LongGreedy(lines: seq<string>, cfg: Config, count: TokenCount, i: int, calls: seq<ChunkArgs>, chunkIndex: int,
                   cur: seq<string>, curTokens: int, start: int, flushed: seq<ChunkArgs>, flushedIndex: int,
                   groups: seq<seq<string>>, calls': seq<ChunkArgs>)
    requires Buffer(lines, cfg, count, i, cur, curTokens) && start == i - |cur| && chunkIndex == |calls|
    requires Before(lines, cfg, count, calls, i, start, cur)
    requires GreedyInv(lines, cfg, count, i, calls, cur, curTokens, start)
    requires i < |lines| && Long(lines, cfg, count, i)
    requires flushed == if cur != [] then calls + [ChunkArgs(Join("\n", cur), chunkIndex, i - |cur|, i - 1)] else calls
    requires flushedIndex == if cur != [] then chunkIndex + 1 else chunkIndex
    requires calls' == flushed + GroupCalls(groups, flushedIndex, i)
    ensures GreedyInv(lines, cfg, count, i + 1, calls', [], 0, i + 1)
  {
    if cur != [] {
      FlushStops(lines, cfg, count, i, calls, cur, curTokens, start);
    }
    assert flushedIndex == |flushed|;
    GreedyAppendWords(lines, cfg, count, flushed, groups, i);
  }

  /** Word chunks of a line over the budget keep the calls greedy. */
  lemma {:induction false} GreedyAppendWords(lines: seq<string>, cfg: Config, count: TokenCount, calls: seq<ChunkArgs>,
                                             groups: seq<seq<string>>, i: int)
    requires Greedy(lines, cfg, count, calls) && Long(lines, cfg, count, i)
    ensures Greedy(lines, cfg, count, calls + GroupCalls(groups, |calls|, i))
    decreases |groups|
  {
    if groups != [] {
      var n := |groups| - 1;
      GreedyAppendWords(lines, cfg, count, calls, groups[..n], i);
      var w := ChunkArgs(Join(" ", groups[n]), |calls| + n, i, i);
      assert !IsLineChunk(lines, cfg, count, w);
      GreedySnoc(lines, cfg, count, calls + GroupCalls(groups[..n], |calls|, i), w);
      AppendGroupsSnoc(calls, groups, i);
    } else {
      assert calls + GroupCalls(groups, |calls|, i) == calls;
    }
  }

  /** The last flush, after the last line, stops greedily. */
  lemma FinishGreedy(lines: seq<string>, cfg: Config, count: TokenCount, calls: seq<ChunkArgs>, chunkIndex: int,
                     cur: seq<string>, curTokens: int, start: int, result: seq<ChunkArgs>)
    requires Buffer(lines, cfg, count, |lines|, cur, curTokens) && start == |lines| - |cur| && chunkIndex == |calls|
    requires Before(lines, cfg, count, calls, |lines|, start, cur)
    requires GreedyInv(lines, cfg, count, |lines|, calls, cur, curTokens, start)
    requires result == if cur != [] then calls + [ChunkArgs(Join("\n", cur), chunkIndex, start, |lines| - 1)] else calls
    ensures Greedy(lines, cfg, count, result)
  {
    if cur != [] {
      FlushStops(lines, cfg, count, |lines|, calls, cur, curTokens, start);
    }
  }

  /** A line chunk that starts right after the line chunk before it was seeded with an empty
      overlap; its running count is the sum of its lines' counts, so it fits. */
  lemma EmptyOverlapFits(lines: seq<string>, cfg: Config, count: TokenCount, prev: seq<ChunkArgs>, c: ChunkArgs)
    requires StopsGreedily(lines, cfg, count, prev, c) && IsLineChunk(lines, cfg, count, c)
    requires prev != [] && IsLineChunk(lines, cfg, count, prev[|prev| - 1]) && c.startLine == prev[|prev| - 1].endLine + 1
    ensures Fits(lines, cfg, count, c)
  {
    var l := c.startLine;
    assert Seeded(lines, cfg, count, prev, l);
    assert lines[l..l + 1] == [lines[l]];
    assert SumCounts(count, [lines[l]]) == count(lines[l]);
    if c.endLine == l {
      assert !Long(lines, cfg, count, l);
    } else {
      var t := lines[l..c.endLine + 1];
      assert t[0] == lines[l] && t[1..] == lines[l + 1..c.endLine + 1];
      assert Running(lines, cfg, count, prev, l, c.endLine + 1) == SumCounts(count, t);
    }
  }

  /** One line over the budget: the open buffer is closed, then the line is split into word chunks. */
  method LongLine(lines: seq<string>, cfg: Config, count: TokenCount, i: int, made: seq<ChunkArgs>, chunkIndex: int,
                  cur: seq<string>, curTokens: int, ghost packing: map<int, seq<seq<string>>>, ghost start: int)
    returns (made': seq<ChunkArgs>, chunkIndex': int, ghost packing': map<int, seq<seq<string>>>)
    requires 0 <= i < |lines| && count(lines[i]) > cfg.chunkSize
    requires LoopInv(lines, cfg, count, i, made, chunkIndex, cur, curTokens, packing, start)
    requires GreedyInv(lines, cfg, count, i, made, cur, curTokens, start)
    ensures LoopInv(lines, cfg, count, i + 1, made', chunkIndex', [], 0, packing', i + 1)
    ensures GreedyInv(lines, cfg, count, i + 1, made', [], 0, i + 1)
  {
    made', chunkIndex' := made, chunkIndex;
    if cur != [] {
      made' := made' + [ChunkArgs(Join("\n", cur), chunkIndex', i - |cur|, i - 1)];
      chunkIndex' := chunkIndex' + 1;
    }
    ghost var flushed, flushedIndex := made', chunkIndex';
    var wordCalls, groups := SplitLongLine(Words(lines[i]), count, cfg.chunkSize, chunkIndex', i);
    made' := made' + wordCalls;
    chunkIndex' := chunkIndex' + |wordCalls|;
    packing' := packing[i := groups];
    LongStep(lines, cfg, count, i, made, chunkIndex, cur, curTokens, packing, start, flushed, flushedIndex, groups, wordCalls,
             made', chunkIndex', packing');
  }

  /** One line that overflows the buffer: the buffer is closed and a new one starts from its overlap tail. */
  method OverflowLine(lines: seq<string>, cfg: Config, count: TokenCount, i: int, made: seq<ChunkArgs>, chunkIndex: int,
                      cur: seq<string>, curTokens: int, ghost packing: map<int, seq<seq<string>>>, ghost start: int)
    returns (made': seq<ChunkArgs>, chunkIndex': int, cur': seq<string>, curTokens': int, ghost start': int)
    requires 0 <= i < |lines| && count(lines[i]) <= cfg.chunkSize && curTokens + count(lines[i]) > cfg.chunkSize
    requires LoopInv(lines, cfg, count, i, made, chunkIndex, cur, curTokens, packing, start)
    requires GreedyInv(lines, cfg, count, i, made, cur, curTokens, start)
    ensures LoopInv(lines, cfg, count, i + 1, made', chunkIndex', cur', curTokens', packing, start')
    ensures GreedyInv(lines, cfg, count, i + 1, made', cur', curTokens', start')
  {
    var overlap := GetOverlapLines(cur, count, cfg.chunkOverlap);
    cur' := overlap + [lines[i]];
    curTokens' := count(Join("\n", cur'));
    made', chunkIndex' := made, chunkIndex;
    if cur != [] {
      made' := made' + [ChunkArgs(Join("\n", cur), chunkIndex', i - |cur|, i - 1)];
      chunkIndex' := chunkIndex' + 1;
    }
    start' := i - |overlap|;
    OverflowIteration(lines, cfg, count, i, made, chunkIndex, cur, curTokens, packing, start, overlap, curTokens',
                      made', chunkIndex', cur', start');
  }

  /** A greedy scan gives every line chunk seeded with an empty overlap a fitting range. */
  lemma GreedyUnseeded(lines: seq<string>, cfg: Config, count: TokenCount, calls: seq<ChunkArgs>)
    requires ClosesGreedily(lines, cfg, count, calls)
    ensures UnseededChunksFit(lines, cfg, count, calls)
  {
    forall k | 0 < k < |calls|
      ensures FitsIfUnseeded(lines, cfg, count, calls[k - 1], calls[k])
    {
      var prev := calls[..k];
      assert prev[|prev| - 1] == calls[k - 1];
      if IsLineChunk(lines, cfg, count, calls[k - 1]) && IsLineChunk(lines, cfg, count, calls[k])
         && calls[k].startLine == calls[k - 1].endLine + 1 {
        EmptyOverlapFits(lines, cfg, count, prev, calls[k]);
      }
    }
  }

  /** Two one-token lines within a budget of 100 are not closed after the first line. */
  lemma EarlyCloseRejected()
    ensures !ClosesGreedily(["a", "b"], Config(100, 0), s => 1, [ChunkArgs("a", 0, 0, 0), ChunkArgs("b", 1, 1, 1)])
  {
    var lines, cfg, one: TokenCount := ["a", "b"], Config(100, 0), s => 1;
    var calls := [ChunkArgs("a", 0, 0, 0), ChunkArgs("b", 1, 1, 1)];
    assert lines[0..1] == ["a"];
    assert IsLineChunk(lines, cfg, one, calls[0]);
    assert Running(lines, cfg, one, calls[..0], 0, 1) == 1;
    assert !StopsGreedily(lines, cfg, one, calls[..0], calls[0]);
  }

  /** Chunks ordered by start line all start at or after the first one. */
  lemma {:induction false} OrderedFromFirst(calls: seq<ChunkArgs>, k: int)
    requires StartsOrdered(calls) && 0 <= k < |calls|
    ensures calls[0].startLine <= calls[k].startLine
    decreases k
  {
    if k > 0 {
      OrderedFromFirst(calls, k - 1);
    }
  }

  /** What the chunks of three lines of 10 tokens each with a budget of 25 and an overlap of 10 satisfy. */
  ghost predicate ThreeTens(lines: seq<string>, count: TokenCount, calls: seq<ChunkArgs>) {
    && |lines| == 3 && count(lines[0]) == 10 && count(lines[1]) == 10 && count(lines[2]) == 10
    && Shaped(lines, Config(25, 10), count, calls) && StartsOrdered(calls) && DenseIndices(calls)
    && OverlapCarried(lines, Config(25, 10), count, calls) && CoversLines(lines, Config(25, 10), count, calls, 3)
    && ClosesGreedily(lines, Config(25, 10), count, calls)
  }

  /** A line covered by chunks ordered by start line is not before the first chunk's start. */
  lemma CoveredFromFirst(calls: seq<ChunkArgs>, j: int)
    requires StartsOrdered(calls) && Covering(calls, j) != []
    ensures calls != [] && calls[0].startLine <= j
  {
    if calls != [] && calls[0].startLine > j {
      forall k | 0 <= k < |calls| ensures !Covers(calls[k], j) {
        OrderedFromFirst(calls, k);
      }
      CoveringNone(calls, j);
    }
  }

  /** A line chunk made after a greedy scan's calls ends past the chunk before it. */
  lemma GreedyAdvances(lines: seq<string>, cfg: Config, count: TokenCount, calls: seq<ChunkArgs>, k: int)
    requires ClosesGreedily(lines, cfg, count, calls) && 0 < k < |calls| && IsLineChunk(lines, cfg, count, calls[k])
    ensures calls[k - 1].endLine < calls[k].endLine
  {
    var prev := calls[..k];
    assert prev[|prev| - 1] == calls[k - 1];
    assert StopsGreedily(lines, cfg, count, prev, calls[k]);
  }

  /** Each of those chunks is a line chunk. */
  lemma ThreeTensLineChunk(lines: seq<string>, count: TokenCount, calls: seq<ChunkArgs>, k: int)
    requires ThreeTens(lines, count, calls) && 0 <= k < |calls|
    ensures IsLineChunk(lines, Config(25, 10), count, calls[k])
  {
    assert WellShaped(lines, Config(25, 10), count, calls[k]);
  }

  /** The first of those chunks holds lines 0 and 1. */
  lemma ThreeTensFirst(lines: seq<string>, count: TokenCount, calls: seq<ChunkArgs>)
    requires ThreeTens(lines, count, calls)
    ensures calls != [] && calls[0] == ChunkArgs(Join("\n", lines[0..2]), 0, 0, 1)
  {
    var cfg := Config(25, 10);
    assert Covering(calls, 0) != [];
    CoveredFromFirst(calls, 0);
    ThreeTensLineChunk(lines, count, calls, 0);
    ThreeTensFirstEnd(lines, count, calls[0], calls[..0]);
  }

  /** A line chunk of those three lines starting at line 0 that stops greedily holds lines 0 and 1. */
  lemma ThreeTensFirstEnd(lines: seq<string>, count: TokenCount, c: ChunkArgs, none: seq<ChunkArgs>)
    requires |lines| == 3 && count(lines[0]) == 10 && count(lines[1]) == 10 && count(lines[2]) == 10
    requires none == [] && IsLineChunk(lines, Config(25, 10), count, c) && c.startLine == 0
    requires StopsGreedily(lines, Config(25, 10), count, none, c)
    ensures c.endLine == 1
  {
    var cfg := Config(25, 10);
    assert !Seeded(lines, cfg, count, none, 0);
    TensSum(count, lines[0..1]);
    TensSum(count, lines[0..3]);
  }

  /** Lines of 10 tokens each sum to 10 tokens per line. */
  lemma {:induction false} TensSum(count: TokenCount, t: seq<string>)
    requires forall j :: 0 <= j < |t| ==> count(t[j]) == 10
    ensures SumCounts(count, t) == 10 * |t|
  {
    if t != [] {
      TensSum(count, t[1..]);
    }
  }

  /** The second holds lines 1 and 2: line 1 is the overlap carried from the first. */
  lemma ThreeTensSecond(lines: seq<string>, count: TokenCount, calls: seq<ChunkArgs>)
    requires ThreeTens(lines, count, calls)
    requires calls != [] && calls[0] == ChunkArgs(Join("\n", lines[0..2]), 0, 0, 1)
    ensures |calls| >= 2 && calls[1] == ChunkArgs(Join("\n", lines[1..3]), 1, 1, 2)
  {
    var cfg := Config(25, 10);
    assert Covering(calls, 2) != [];
    if |calls| == 1 {
      CoveringNone(calls, 2);
    }
    ThreeTensLineChunk(lines, count, calls, 1);
    GreedyAdvances(lines, cfg, count, calls, 1);
    assert CarriesOverlap(lines, cfg, count, calls[0], calls[1]);
    var p := lines[0..2];
    assert p == [lines[0], lines[1]];
    assert SumCounts(count, p) == 20;
    assert SumCounts(count, [lines[1]]) == 10;
  }

  /** And there is no third. */
  lemma ThreeTensNoThird(lines: seq<string>, count: TokenCount, calls: seq<ChunkArgs>)
    requires ThreeTens(lines, count, calls)
    requires |calls| >= 2 && calls[1].endLine == 2
    ensures |calls| == 2
  {
    if |calls| > 2 {
      ThreeTensLineChunk(lines, count, calls, 2);
      GreedyAdvances(lines, Config(25, 10), count, calls, 2);
      assert false;
    }
  }

  /** Three lines of 10 tokens each, a budget of 25 and an overlap of 10: the chunks are
      lines 0-1 and lines 1-2, whatever the tokens of the joined lines. */
  lemma ThreeTensScenario(lines: seq<string>, count: TokenCount, calls: seq<ChunkArgs>)
    requires ThreeTens(lines, count, calls)
    ensures calls == [ChunkArgs(Join("\n", lines[0..2]), 0, 0, 1), ChunkArgs(Join("\n", lines[1..3]), 1, 1, 2)]
  {
    ThreeTensFirst(lines, count, calls);
    ThreeTensSecond(lines, count, calls);
    ThreeTensNoThird(lines, count, calls);
  }

  /** The loop of `split_by_lines` and its last flush: the `_create_chunk` calls, in order. */
  method ScanLines(lines: seq<string>, cfg: Config, count: TokenCount)
    returns (calls: seq<ChunkArgs>, ghost packing: map<int, seq<seq<string>>>)
    ensures Chunking(lines, cfg, count, calls)
    ensures CoversLines(lines, cfg, count, calls, |lines|)
    ensures PacksLongLines(lines, cfg, count, calls, |lines|, packing)
    ensures Greedy(lines, cfg, count, calls)
    ensures |lines| == 1 && !Long(lines, cfg, count, 0) ==> calls == [ChunkArgs(lines[0], 0, 0, 0)]
  {
    var made: seq<ChunkArgs> := [];
    var cur: seq<string> := [];
    var curTokens := 0;
    var chunkIndex := 0;
    packing := map[];
    ghost var start := 0;
    for i := 0 to |lines|
      invariant LoopInv(lines, cfg, count, i, made, chunkIndex, cur, curTokens, packing, start)
      invariant GreedyInv(lines, cfg, count, i, made, cur, curTokens, start)
    {
      var lineTokens := count(lines[i]);
      if lineTokens > cfg.chunkSize {
        made, chunkIndex, packing := LongLine(lines, cfg, count, i, made, chunkIndex, cur, curTokens, packing, start);
        cur, curTokens, start := [], 0, i + 1;
      } else if curTokens + lineTokens > cfg.chunkSize {
        made, chunkIndex, cur, curTokens, start := OverflowLine(lines, cfg, count, i, made, chunkIndex, cur, curTokens, packing, start);
      } else {
        AppendStep(lines, cfg, count, i, made, chunkIndex, cur, curTokens, packing, start);
        cur := cur + [lines[i]];
        curTokens := curTokens + lineTokens;
      }
    }
    ghost var made0 := made;
    var n := |lines|;
    assert n - |cur| == start;
    if cur != [] {
      made := made + [ChunkArgs(Join("\n", cur), chunkIndex, n - |cur|, n - 1)];
    }
    Finish(lines, cfg, count, made0, chunkIndex, cur, curTokens, packing, start, made);
    if |lines| == 1 && !Long(lines, cfg, count, 0) {
      SingleLine(lines, cfg, count, made0, chunkIndex, cur, curTokens, packing, start, made);
    }
    calls := made;
  }

  /** `split_by_lines`: the chunks are the `_create_chunk` calls `calls` of the scan of the content's lines. */
  method SplitByLines(content: string, metadata: map<string, string>, cfg: Config, count: TokenCount)
    returns (chunks: seq<Chunk>, ghost calls: seq<ChunkArgs>, ghost packing: map<int, seq<seq<string>>>)
    ensures chunks == Emit(calls, metadata, count)
    ensures DenseIndices(calls) && Shaped(Lines(content), cfg, count, calls) && StartsOrdered(calls)
    ensures OverlapCarried(Lines(content), cfg, count, calls) && FreshChunksFit(Lines(content), cfg, count, calls)
    ensures CoversLines(Lines(content), cfg, count, calls, |Lines(content)|)
    ensures PacksLongLines(Lines(content), cfg, count, calls, |Lines(content)|, packing)
    ensures ClosesGreedily(Lines(content), cfg, count, calls) && UnseededChunksFit(Lines(content), cfg, count, calls)
    ensures '\n' !in content && count(content) <= cfg.chunkSize ==> chunks == [CreateChunk(content, metadata, count, 0, 0, 0)]
  {
    var lines := Lines(content);
    var made;
    made, packing := ScanLines(lines, cfg, count);
    ChunkingMeans(lines, cfg, count, made);
    GreedyMeans(lines, cfg, count, made);
    GreedyUnseeded(lines, cfg, count, made);
    if '\n' !in content && count(content) <= cfg.chunkSize {
      SplitOfNoSep(content, '\n');
      EmitOne(made[0], metadata, count);
    }
    chunks := Emit(made, metadata, count);
    calls := made;
  }
}
