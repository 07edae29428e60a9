/**
 * `TokenCounter.truncate_chunks` of `utils/token_utils.py`: the retrieved chunks
 * are fitted into the model's context budget. Whole chunks are taken from the
 * front while they fit; the first one that does not fit may still contribute a
 * truncated copy built word by word, and nothing after it is taken.
 */
module TokenUtils {
  import opened Text
  import opened ChunkRecord

  /** A `TokenCounter`: the tokenizer of its model's encoding and the total budget. */
  datatype TokenCounter = TokenCounter(count: TokenCount, maxTokens: int)

  /** The budget a `TokenCounter` gets when none is given. */
  const DefaultMaxTokens: int := 100
  /** Tokens held back for the answer and the formatting. */
  const AnswerReserve: int := 50
  /** Below this many available tokens nothing is taken. */
  const MinAvailable: int := 20
  /** A truncated tail is tried only when more than this many tokens remain. */
  const MinRemaining: int := 10
  const Ellipsis: string := "..."

  /** The tokens left for chunks once the prompt, the query and the reserve are counted. */
  function Available(tc: TokenCounter, systemPrompt: string, userQuery: string): int {
    tc.maxTokens - (tc.count(systemPrompt) + tc.count(userQuery) + AnswerReserve)
  }

  /** The summed token counts of the contents of the first `i` chunks. */
  function TokensBefore(count: TokenCount, chunks: seq<Chunk>, i: nat): nat
    requires i <= |chunks|
  {
    if i == 0 then 0 else TokensBefore(count, chunks, i - 1) + count(chunks[i - 1].content)
  }

  /** How many chunks, from index `i` on, are taken whole when `budget` tokens are left. */
  function AcceptedFrom(count: TokenCount, chunks: seq<Chunk>, i: nat, budget: int): (k: nat)
    requires i <= |chunks|
    ensures i + k <= |chunks|
    decreases |chunks| - i
  {
    if i == |chunks| then 0
    else
      var c := count(chunks[i].content);
      if c <= budget then 1 + AcceptedFrom(count, chunks, i + 1, budget - c) else 0
  }

  /** What the word loop builds from word `j` on, starting from `acc`: each word after a
      space, while the count of the text stays under `remaining`; the first word that does
      not fit ends it. */
  function Grow(count: TokenCount, words: seq<string>, j: nat, acc: string, remaining: int): string
    requires j <= |words|
    decreases |words| - j
  {
    if j == |words| then acc
    else
      var test := acc + " " + words[j];
      if count(test) < remaining then Grow(count, words, j + 1, test, remaining) else acc
  }

  /** The first `n` words, each preceded by one space: `" w1 w2 ... wn"`. */
  function Spaced(words: seq<string>, n: nat): string
    requires n <= |words|
  {
    if n == 0 then "" else Spaced(words, n - 1) + " " + words[n - 1]
  }

  /** The truncated copy of `chunk` tried when `remaining` tokens are left: none unless more
      than `MinRemaining` are left and at least one word fits. */
  function Tail(count: TokenCount, chunk: Chunk, remaining: int): seq<Chunk> {
    if remaining <= MinRemaining then []
    else
      var partial := Grow(count, Words(chunk.content), 0, "", remaining);
      if partial == "" then [] else [chunk.(content := partial + Ellipsis)]
  }

  /** The chunks `truncate_chunks` returns for `available` tokens. */
  function Truncation(count: TokenCount, chunks: seq<Chunk>, available: int): seq<Chunk> {
    if available < MinAvailable then []
    else
      var k := AcceptedFrom(count, chunks, 0, available);
      chunks[..k] + if k < |chunks| then Tail(count, chunks[k], available - TokensBefore(count, chunks, k)) else []
  }

  // ------------------------------------------------------------- the methods

  /** `truncate_chunks(chunks, system_prompt, user_query)`. */
  method TruncateChunks(tc: TokenCounter, chunks: seq<Chunk>, systemPrompt: string, userQuery: string)
    returns (truncated: seq<Chunk>)
    ensures truncated == Truncation(tc.count, chunks, Available(tc, systemPrompt, userQuery))
  {
    var baseTokens := tc.count(systemPrompt) + tc.count(userQuery);
    baseTokens := baseTokens + AnswerReserve;
    var available := tc.maxTokens - baseTokens;
    assert available == Available(tc, systemPrompt, userQuery);
    if available < MinAvailable {
      return [];
    }
    truncated := [];
    var currentTokens := 0;
    var i := 0;
    while i < |chunks|
      invariant i <= |chunks|
      invariant truncated == chunks[..i] && currentTokens == TokensBefore(tc.count, chunks, i)
      invariant AcceptedFrom(tc.count, chunks, 0, available) == i + AcceptedFrom(tc.count, chunks, i, available - currentTokens)
    {
      var chunkTokens := tc.count(chunks[i].content);
      if currentTokens + chunkTokens <= available {
        truncated := truncated + [chunks[i]];
        currentTokens := currentTokens + chunkTokens;
      } else {
        var tail := FitPartial(tc.count, chunks[i], available - currentTokens);
        TruncationStops(tc.count, chunks, available, i, tail);
        truncated := truncated + tail;
        return;
      }
      i := i + 1;
    }
    TruncationTakesAll(tc.count, chunks, available);
  }

  /** Where the loop of `TruncateChunks` stops at the first chunk that does not fit. */
  lemma TruncationStops(count: TokenCount, chunks: seq<Chunk>, available: int, i: nat, tail: seq<Chunk>)
    requires available >= MinAvailable && i < |chunks|
    requires AcceptedFrom(count, chunks, 0, available) == i + AcceptedFrom(count, chunks, i, available - TokensBefore(count, chunks, i))
    requires TokensBefore(count, chunks, i) + count(chunks[i].content) > available
    requires tail == Tail(count, chunks[i], available - TokensBefore(count, chunks, i))
    ensures chunks[..i] + tail == Truncation(count, chunks, available)
  {
  }

  /** Where the loop of `TruncateChunks` runs out of chunks. */
  lemma TruncationTakesAll(count: TokenCount, chunks: seq<Chunk>, available: int)
    requires available >= MinAvailable
    requires AcceptedFrom(count, chunks, 0, available) == |chunks| + AcceptedFrom(count, chunks, |chunks|, available - TokensBefore(count, chunks, |chunks|))
    ensures chunks[..|chunks|] == Truncation(count, chunks, available)
  {
  }

  /** The partial fit of `truncate_chunks`: with more than `MinRemaining` tokens left, a copy
      of `chunk` whose content is the words that fit, then "...", if any word fits. */
  method FitPartial(count: TokenCount, chunk: Chunk, remaining: int) returns (tail: seq<Chunk>)
    ensures tail == Tail(count, chunk, remaining)
  {
    tail := [];
    if remaining > MinRemaining {
      var truncatedContent := FitWords(count, Words(chunk.content), remaining);
      if truncatedContent != "" {
        var chunkCopy := chunk.(content := truncatedContent + Ellipsis);
        tail := [chunkCopy];
      }
    }
  }

  /** The inner loop of `truncate_chunks`: words are added, each after a space, while the
      text stays under `remaining` tokens; the first word that does not fit ends it. */
  method FitWords(count: TokenCount, words: seq<string>, remaining: int) returns (truncatedContent: string)
    ensures truncatedContent == Grow(count, words, 0, "", remaining)
  {
    truncatedContent := "";
    var j := 0;
    while j < |words|
      invariant j <= |words|
      invariant Grow(count, words, 0, "", remaining) == Grow(count, words, j, truncatedContent, remaining)
    {
      var test := truncatedContent + " " + words[j];
      if count(test) < remaining {
        truncatedContent := test;
      } else {
        break;
      }
      j := j + 1;
    }
  }

  // ------------------------------------------------------------- properties

  /** The chunks taken whole from index `i` are the longest run whose counts fit in the budget. */
  lemma {:induction false} AcceptedIsLongestFit(count: TokenCount, chunks: seq<Chunk>, i: nat, budget: int)
    requires i <= |chunks| && budget >= 0
    ensures var k := AcceptedFrom(count, chunks, i, budget);
      && TokensBefore(count, chunks, i + k) - TokensBefore(count, chunks, i) <= budget
      && (i + k < |chunks| ==> TokensBefore(count, chunks, i + k + 1) - TokensBefore(count, chunks, i) > budget)
    decreases |chunks| - i
  {
    if i < |chunks| && count(chunks[i].content) <= budget {
      AcceptedIsLongestFit(count, chunks, i + 1, budget - count(chunks[i].content));
    }
  }

  /** A larger budget takes at least as many whole chunks. */
  lemma {:induction false} AcceptedMonotone(count: TokenCount, chunks: seq<Chunk>, i: nat, budget: int, budget': int)
    requires i <= |chunks| && budget <= budget'
    ensures AcceptedFrom(count, chunks, i, budget) <= AcceptedFrom(count, chunks, i, budget')
    decreases |chunks| - i
  {
    if i < |chunks| && count(chunks[i].content) <= budget {
      var c := count(chunks[i].content);
      AcceptedMonotone(count, chunks, i + 1, budget - c, budget' - c);
    }
  }

  /** The word loop only ever extends what it started with. */
  lemma {:induction false} GrowKeeps(count: TokenCount, words: seq<string>, j: nat, acc: string, remaining: int)
    requires j <= |words|
    ensures |Grow(count, words, j, acc, remaining)| >= |acc|
    decreases |words| - j
  {
    if j < |words| {
      var test := acc + " " + words[j];
      if count(test) < remaining {
        GrowKeeps(count, words, j + 1, test, remaining);
      }
    }
  }

  /** The word loop adds something exactly when the first word fits. */
  lemma GrowEmpty(count: TokenCount, words: seq<string>, remaining: int)
    ensures Grow(count, words, 0, "", remaining) == "" <==>
              (words == [] || count(" " + words[0]) >= remaining)
  {
    if words != [] {
      assert "" + " " + words[0] == " " + words[0];
    }
    if words != [] && count(" " + words[0]) < remaining {
      GrowKeeps(count, words, 1, " " + words[0], remaining);
    }
  }

  /** The text the word loop builds is the first `n` words, spaced, where every text on the
      way counts under `remaining` and the next word (if any) would not. */
  lemma {:induction false} GrowIsSpacedPrefix(count: TokenCount, words: seq<string>, j: nat, remaining: int)
    returns (n: nat)
    requires j <= |words|
    requires forall m :: 1 <= m <= j ==> count(Spaced(words, m)) < remaining
    ensures j <= n <= |words|
    ensures Grow(count, words, j, Spaced(words, j), remaining) == Spaced(words, n)
    ensures forall m :: 1 <= m <= n ==> count(Spaced(words, m)) < remaining
    ensures n < |words| ==> count(Spaced(words, n + 1)) >= remaining
    decreases |words| - j
  {
    if j == |words| {
      n := j;
    } else if count(Spaced(words, j + 1)) < remaining {
      n := GrowIsSpacedPrefix(count, words, j + 1, remaining);
    } else {
      n := j;
    }
  }

  /** The result of `truncate_chunks`: the longest prefix of the chunks whose counts fit the
      budget, taken whole, then at most one truncated copy of the next chunk, which differs
      from it only in its content: its first `n >= 1` words, spaced, counting under what was
      left, then "...". The copy needs more than `MinRemaining` tokens left. */
  lemma TruncationMeans(count: TokenCount, chunks: seq<Chunk>, available: int)
    ensures var r := Truncation(count, chunks, available);
      available < MinAvailable ==> r == []
    ensures var r := Truncation(count, chunks, available);
      available >= MinAvailable ==>
        var k := AcceptedFrom(count, chunks, 0, available);
        && (|r| == k || |r| == k + 1)
        && r[..k] == chunks[..k]
        && TokensBefore(count, chunks, k) <= available
        && (k < |chunks| ==> TokensBefore(count, chunks, k + 1) > available)
        && (|r| == k + 1 ==>
              var remaining := available - TokensBefore(count, chunks, k);
              var words := Words(chunks[k].content);
              && k < |chunks| && remaining > MinRemaining
              && r[k] == chunks[k].(content := r[k].content)
              && EndsWith(r[k].content, Ellipsis)
              && exists n :: 1 <= n <= |words| && r[k].content == Spaced(words, n) + Ellipsis
                               && count(Spaced(words, n)) < remaining)
  {
    var r := Truncation(count, chunks, available);
    if available >= MinAvailable {
      var k := AcceptedFrom(count, chunks, 0, available);
      AcceptedIsLongestFit(count, chunks, 0, available);
      if |r| == k + 1 {
        var n := TailWords(count, chunks, available);
      }
    }
  }

  /** The tail of the first chunk that does not fit is its first `n` words, `n >= 1`: the
      words taken while they counted under what was left, up to the first that did not. */
  lemma TailWords(count: TokenCount, chunks: seq<Chunk>, available: int) returns (n: nat)
    requires available >= MinAvailable
    requires |Truncation(count, chunks, available)| == AcceptedFrom(count, chunks, 0, available) + 1
    ensures var k := AcceptedFrom(count, chunks, 0, available);
      var remaining := available - TokensBefore(count, chunks, k);
      var words := Words(chunks[k].content);
      && 1 <= n <= |words|
      && Truncation(count, chunks, available)[k].content == Spaced(words, n) + Ellipsis
      && count(Spaced(words, n)) < remaining
      && (n < |words| ==> count(Spaced(words, n + 1)) >= remaining)
  {
    var r := Truncation(count, chunks, available);
    var k := AcceptedFrom(count, chunks, 0, available);
    var remaining := available - TokensBefore(count, chunks, k);
    var words := Words(chunks[k].content);
    assert Spaced(words, 0) == "";
    n := GrowIsSpacedPrefix(count, words, 0, remaining);
    assert r[k].content == Spaced(words, n) + Ellipsis;
    assert n != 0;
  }

  /** Whether the first chunk that does not fit gets a tail depends on the budget only
      through what is left and whether its first word fits in it. */
  lemma TruncationLength(count: TokenCount, chunks: seq<Chunk>, available: int)
    requires available >= MinAvailable
    ensures var k := AcceptedFrom(count, chunks, 0, available);
      var remaining := available - TokensBefore(count, chunks, k);
      |Truncation(count, chunks, available)| ==
        if k < |chunks| && remaining > MinRemaining && Words(chunks[k].content) != []
           && count(" " + Words(chunks[k].content)[0]) < remaining
        then k + 1 else k
  {
    var k := AcceptedFrom(count, chunks, 0, available);
    if k < |chunks| {
      GrowEmpty(count, Words(chunks[k].content), available - TokensBefore(count, chunks, k));
    }
  }

  /** More available tokens never return fewer chunks. */
  lemma TruncationMonotone(count: TokenCount, chunks: seq<Chunk>, available: int, available': int)
    requires available <= available'
    ensures |Truncation(count, chunks, available)| <= |Truncation(count, chunks, available')|
  {
    if available >= MinAvailable {
      AcceptedMonotone(count, chunks, 0, available, available');
      TruncationLength(count, chunks, available);
      TruncationLength(count, chunks, available');
    }
  }

  /** Raising `max_tokens`, with the same prompt and query, never returns fewer chunks. */
  lemma MaxTokensMonotone(count: TokenCount, maxTokens: int, maxTokens': int, chunks: seq<Chunk>,
                          systemPrompt: string, userQuery: string)
    requires maxTokens <= maxTokens'
    ensures var a := Available(TokenCounter(count, maxTokens), systemPrompt, userQuery);
      var a' := Available(TokenCounter(count, maxTokens'), systemPrompt, userQuery);
      |Truncation(count, chunks, a)| <= |Truncation(count, chunks, a')|
  {
    TruncationMonotone(count, chunks, Available(TokenCounter(count, maxTokens), systemPrompt, userQuery),
                       Available(TokenCounter(count, maxTokens'), systemPrompt, userQuery));
  }

  /** A counter built with the default budget of 100 tokens leaves 50 tokens, less the
      prompt and the query, for chunks, and takes none once those two hold more than 30. */
  lemma DefaultBudget(count: TokenCount, chunks: seq<Chunk>, systemPrompt: string, userQuery: string)
    ensures var a := Available(TokenCounter(count, DefaultMaxTokens), systemPrompt, userQuery);
      && a == 50 - count(systemPrompt) - count(userQuery)
      && (count(systemPrompt) + count(userQuery) > 30 ==> Truncation(count, chunks, a) == [])
  {
  }

  /** No chunks in, no chunks out. */
  lemma TruncationOfNone(count: TokenCount, available: int)
    ensures Truncation(count, [], available) == []
  {
  }
}
