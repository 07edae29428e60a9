/**
 * `QueryProcessor.format_context_for_llm` of `rag/query_processor.py`: the retrieved chunks
 * rendered as one context text, each under a numbered source header, separated by `---`.
 */
module QueryProcessor {
  import opened Wrappers
  import opened Text
  import opened ChunkRecord

  const PartSeparator := "\n---\n"

  /** The three metadata entries a part is rendered from. */
  predicate HasKeys(c: Chunk) {
    "file_path" in c.metadata && "start_line" in c.metadata && "end_line" in c.metadata
  }

  predicate AllKeys(chunks: seq<Chunk>) {
    forall j :: 0 <= j < |chunks| ==> HasKeys(chunks[j])
  }

  /** `[Source {i+1}: `, for the chunk at index `k`. */
  function SourceLabel(k: nat): string {
    "[Source " + NatToString(k + 1) + ": "
  }

  /** `{file_path} (lines {start_line}-{end_line})]` and a newline. */
  function Location(c: Chunk): string
    requires HasKeys(c)
  {
    Render(c.metadata["file_path"]) + " (lines " + Render(c.metadata["start_line"]) + "-"
    + Render(c.metadata["end_line"]) + ")]\n"
  }

  /** The header of the `k`-th part. */
  function Header(c: Chunk, k: nat): string
    requires HasKeys(c)
  {
    SourceLabel(k) + Location(c)
  }

  /** The part of the `k`-th chunk: its header, its content and a newline. */
  function Part(c: Chunk, k: nat): string
    requires HasKeys(c)
  {
    Header(c, k) + c.content + "\n"
  }

  /** One loop iteration: the metadata is read in source order, so the `KeyError` names the
      first missing key among `file_path`, `start_line` and `end_line`. */
  function PartOf(c: Chunk, k: nat): (r: Result<string>)
    ensures r.Success? <==> HasKeys(c)
  {
    if "file_path" !in c.metadata then Failure(KeyError("file_path"))
    else if "start_line" !in c.metadata then Failure(KeyError("start_line"))
    else if "end_line" !in c.metadata then Failure(KeyError("end_line"))
    else Success(Part(c, k))
  }

  /** The parts of chunks that all have the three keys. */
  function AllParts(chunks: seq<Chunk>): (ps: seq<string>)
    requires AllKeys(chunks)
    ensures |ps| == |chunks| && forall k :: 0 <= k < |chunks| ==> ps[k] == Part(chunks[k], k)
  {
    seq(|chunks|, k requires 0 <= k < |chunks| => Part(chunks[k], k))
  }

  /** `context_parts` after the first `n` iterations, or the error that stopped the loop. */
  function Parts(chunks: seq<Chunk>, n: nat): Result<seq<string>>
    requires n <= |chunks|
  {
    if n == 0 then Success([])
    else match Parts(chunks, n - 1)
      case Failure(e) => Failure(e)
      case Success(ps) =>
        match PartOf(chunks[n - 1], n - 1)
          case Failure(e) => Failure(e)
          case Success(p) => Success(ps + [p])
  }

  /** What `format_context_for_llm(retrieved_chunks)` returns or raises. */
  function FormatContext(chunks: seq<Chunk>): Result<string> {
    match Parts(chunks, |chunks|)
      case Failure(e) => Failure(e)
      case Success(ps) => Success(Join(PartSeparator, ps))
  }

  /** `format_context_for_llm`, with its loop. */
  method FormatContextForLlm(chunks: seq<Chunk>) returns (r: Result<string>)
    ensures r == FormatContext(chunks)
  {
    var contextParts: seq<string> := [];
    var i := 0;
    while i < |chunks|
      invariant 0 <= i <= |chunks|
      invariant Parts(chunks, i) == Success(contextParts)
    {
      var part := PartOf(chunks[i], i);
      if part.Failure? {
        FailureStays(chunks, i + 1, |chunks|);
        return Failure(part.error);
      }
      contextParts := contextParts + [part.value];
      i := i + 1;
    }
    return Success(Join(PartSeparator, contextParts));
  }

  /** Once an iteration fails the later ones are never run. */
  lemma {:induction false} FailureStays(chunks: seq<Chunk>, i: nat, n: nat)
    requires i <= n <= |chunks| && Parts(chunks, i).Failure?
    ensures Parts(chunks, n) == Parts(chunks, i)
    decreases n
  {
    if n > i {
      FailureStays(chunks, i, n - 1);
    }
  }

  /** The loop succeeds exactly when every chunk has the three keys. */
  lemma {:induction false} PartsSucceed(chunks: seq<Chunk>, n: nat)
    requires n <= |chunks|
    ensures Parts(chunks, n).Success? <==> AllKeys(chunks[..n])
    decreases n
  {
    if n > 0 {
      PartsSucceed(chunks, n - 1);
      AllKeysSnoc(chunks, n);
    }
  }

  /** The parts are one per chunk, in input order, each what its iteration rendered. */
  lemma {:induction false} PartsValue(chunks: seq<Chunk>, n: nat)
    requires n <= |chunks| && Parts(chunks, n).Success?
    ensures |Parts(chunks, n).value| == n
    ensures forall k :: 0 <= k < n ==> PartOf(chunks[k], k) == Success(Parts(chunks, n).value[k])
    decreases n
  {
    if n > 0 {
      PartsValue(chunks, n - 1);
      var ps := Parts(chunks, n - 1).value;
      var qs := Parts(chunks, n).value;
      assert qs == ps + [PartOf(chunks[n - 1], n - 1).value];
      forall k | 0 <= k < n
        ensures PartOf(chunks[k], k) == Success(qs[k])
      {
        if k < n - 1 {
          assert qs[k] == ps[k];
        }
      }
    }
  }

  lemma AllKeysSnoc(chunks: seq<Chunk>, n: nat)
    requires 0 < n <= |chunks|
    ensures AllKeys(chunks[..n]) <==> AllKeys(chunks[..n - 1]) && HasKeys(chunks[n - 1])
  {
    var m := n - 1;
    assert chunks[..n][m] == chunks[m];
    forall j | 0 <= j < m
      ensures chunks[..m][j] == chunks[..n][j]
    {
    }
  }

  /** The context is the parts joined by `\n---\n`: one per chunk, in input order. */
  lemma FormatContextMeans(chunks: seq<Chunk>)
    ensures FormatContext(chunks).Success? <==> AllKeys(chunks)
    ensures AllKeys(chunks) ==> FormatContext(chunks) == Success(Join(PartSeparator, AllParts(chunks)))
  {
    PartsSucceed(chunks, |chunks|);
    assert chunks[..|chunks|] == chunks;
    if AllKeys(chunks) {
      PartsAll(chunks);
    }
  }

  lemma PartsAll(chunks: seq<Chunk>)
    requires AllKeys(chunks)
    ensures Parts(chunks, |chunks|) == Success(AllParts(chunks))
  {
    PartsSucceed(chunks, |chunks|);
    assert chunks[..|chunks|] == chunks;
    PartsValue(chunks, |chunks|);
    var ps := Parts(chunks, |chunks|).value;
    var qs := AllParts(chunks);
    forall k | 0 <= k < |chunks|
      ensures ps[k] == qs[k]
    {
      assert PartOf(chunks[k], k) == Success(ps[k]);
    }
    assert ps == qs;
  }

  /** No chunks give the empty context. */
  lemma EmptyContext()
    ensures FormatContext([]) == Success("")
  {
  }

  /** A chunk missing a key makes the call raise the `KeyError` of the first such chunk. */
  lemma {:induction false} FirstMissingKey(chunks: seq<Chunk>, k: nat)
    requires k < |chunks| && !HasKeys(chunks[k]) && AllKeys(chunks[..k])
    ensures FormatContext(chunks) == Failure(PartOf(chunks[k], k).error)
  {
    PartsSucceed(chunks, k);
    FailureStays(chunks, k + 1, |chunks|);
  }

  /** The `k`-th part starts with `[Source `, the decimal digits of `k + 1` and `: `. */
  lemma SourceNumber(c: Chunk, k: nat)
    requires HasKeys(c)
    ensures exists d :: IsDigits(d) && DigitsValue(d) == k + 1 && StartsWith(Part(c, k), "[Source " + d + ": ")
  {
    NatToStringRoundTrip(k + 1);
    var x := SourceLabel(k);
    var y := Location(c) + c.content + "\n";
    assert Part(c, k) == x + y;
    assert (x + y)[..|x|] == x;
  }

  /** Where the `k`-th content starts in the context. */
  function ContentStart(chunks: seq<Chunk>, k: nat): nat
    requires AllKeys(chunks) && k < |chunks|
  {
    Offset(PartSeparator, AllParts(chunks), k) + |Header(chunks[k], k)|
  }

  /** Every chunk's content appears verbatim in the context. */
  lemma ContentAppears(chunks: seq<Chunk>, k: nat)
    requires AllKeys(chunks) && k < |chunks|
    ensures FormatContext(chunks).Success?
    ensures OccursAt(FormatContext(chunks).value, chunks[k].content, ContentStart(chunks, k))
  {
    FormatContextMeans(chunks);
    ContentInJoin(chunks, k);
  }

  lemma ContentInJoin(chunks: seq<Chunk>, k: nat)
    requires AllKeys(chunks) && k < |chunks|
    ensures OccursAt(Join(PartSeparator, AllParts(chunks)), chunks[k].content, ContentStart(chunks, k))
  {
    var ps := AllParts(chunks);
    JoinOffset(PartSeparator, ps, k);
    PartContent(chunks[k], k);
    var i := Offset(PartSeparator, ps, k);
    var j := |Header(chunks[k], k)|;
    OccursAtWithin(Join(PartSeparator, ps), ps[k], i, chunks[k].content, j);
    assert ContentStart(chunks, k) == i + j;
  }

  lemma PartContent(c: Chunk, k: nat)
    requires HasKeys(c)
    ensures OccursAt(Part(c, k), c.content, |Header(c, k)|)
  {
    var h := Header(c, k);
    assert Part(c, k)[|h|..|h| + |c.content|] == c.content;
  }

  /** The contents come in input order: each ends before the next one starts. */
  lemma ContentInOrder(chunks: seq<Chunk>, k: nat)
    requires AllKeys(chunks) && k + 1 < |chunks|
    ensures ContentStart(chunks, k) + |chunks[k].content| < ContentStart(chunks, k + 1)
  {
    var ps := AllParts(chunks);
    assert |ps[k]| == |Header(chunks[k], k)| + |chunks[k].content| + 1;
  }
}
