/**
 * `ChunkValidator.validate_chunks` of `utils/chunk_validator.py`: before embedding,
 * chunks whose content is blank are dropped with a warning, oversized chunks are
 * kept with a warning naming their file, and everything else passes unchanged.
 */
module ChunkValidator {
  import opened Wrappers
  import opened Text
  import opened ChunkRecord
  import opened Sequences

  /** A `ChunkValidator`: the tokenizer of `cl100k_base` and the soft ceiling. */
  datatype Validator = Validator(count: TokenCount, maxChunkTokens: int)

  /** The ceiling a validator gets when none is given. */
  const DefaultMaxChunkTokens: int := 500

  function DefaultValidator(count: TokenCount): (v: Validator)
    ensures v.maxChunkTokens == 500
  {
    Validator(count, DefaultMaxChunkTokens)
  }

  /** What `validate_chunks` returns: the kept chunks and the warnings. */
  datatype Report = Report(valid: seq<Chunk>, warnings: seq<string>)

  const FilePathKey: string := "file_path"

  /** The warning for the blank chunk at index `i`. */
  function EmptyWarning(i: nat): string {
    "Chunk " + NatToString(i) + ": Empty content, skipped"
  }

  /** The warning for the oversized chunk at index `i`. */
  function OversizeWarning(i: nat, tokens: nat, max: int, path: string): string {
    "Chunk " + NatToString(i) + ": " + NatToString(tokens) + " tokens (max: " + IntToString(max) + "), from " + path
  }

  /** A chunk whose content is whitespace only: `not content.strip()`. */
  predicate IsEmpty(c: Chunk) {
    Blank(c.content)
  }

  /** A chunk that `validate_chunks` keeps. */
  predicate IsKept(c: Chunk) {
    !Blank(c.content)
  }

  /** A kept chunk over the ceiling. */
  predicate Oversize(v: Validator, c: Chunk) {
    !Blank(c.content) && v.count(c.content) > v.maxChunkTokens
  }

  /** An oversized chunk whose metadata has a `file_path`, and so gets its warning. */
  function OversizeIn(v: Validator): Chunk -> bool {
    c => Oversize(v, c) && FilePathKey in c.metadata
  }

  /** An oversized chunk with no `file_path`: building its warning raises `KeyError`. */
  function UnnamedIn(v: Validator): Chunk -> bool {
    c => Oversize(v, c) && FilePathKey !in c.metadata
  }

  /** The warnings the chunk `c` at index `i` contributes: at most one. */
  function NoteOf(v: Validator, c: Chunk, i: nat): (r: seq<string>)
    ensures |r| == (if IsEmpty(c) then 1 else 0) + (if OversizeIn(v)(c) then 1 else 0)
  {
    if Blank(c.content) then [EmptyWarning(i)]
    else if Oversize(v, c) && FilePathKey in c.metadata then
      [OversizeWarning(i, v.count(c.content), v.maxChunkTokens, Render(c.metadata[FilePathKey]))]
    else []
  }

  function NotesOf(v: Validator): (Chunk, nat) -> seq<string> {
    (c: Chunk, i: nat) => NoteOf(v, c, i)
  }

  /** What `validate_chunks` does with `chunks`: it raises `KeyError('file_path')` if some
      oversized chunk has no file path, and otherwise returns the chunks that are not blank
      and the warnings of all chunks, in index order. */
  function Validation(v: Validator, chunks: seq<Chunk>): Result<Report> {
    if exists j :: 0 <= j < |chunks| && UnnamedIn(v)(chunks[j]) then Failure(KeyError(FilePathKey))
    else Success(Report(Filter(chunks, IsKept), Gather(chunks, NotesOf(v))))
  }

  /** `validate_chunks(chunks)`. */
  method ValidateChunks(v: Validator, chunks: seq<Chunk>) returns (r: Result<Report>)
    ensures r == Validation(v, chunks)
  {
    var validChunks := [];
    var warnings := [];
    for i := 0 to |chunks|
      invariant validChunks == Filter(chunks[..i], IsKept) && warnings == Gather(chunks[..i], NotesOf(v))
      invariant forall j :: 0 <= j < i ==> !UnnamedIn(v)(chunks[j])
    {
      ValidationPrefix(v, chunks, i);
      var content := chunks[i].content;
      if Strip(content) == "" {
        warnings := warnings + [EmptyWarning(i)];
        NamedSoFar(v, chunks, i);
        continue;
      }
      var tokens := v.count(content);
      if tokens > v.maxChunkTokens {
        if FilePathKey !in chunks[i].metadata {
          return Failure(KeyError(FilePathKey));
        }
        warnings := warnings + [OversizeWarning(i, tokens, v.maxChunkTokens, Render(chunks[i].metadata[FilePathKey]))];
      }
      validChunks := validChunks + [chunks[i]];
      NamedSoFar(v, chunks, i);
    }
    assert chunks[..|chunks|] == chunks;
    r := Success(Report(validChunks, warnings));
  }

  /** One more chunk met: it is kept if it is not blank, and its note is added. */
  lemma ValidationPrefix(v: Validator, chunks: seq<Chunk>, i: nat)
    requires i < |chunks|
    ensures Filter(chunks[..i + 1], IsKept) == Filter(chunks[..i], IsKept) + if IsKept(chunks[i]) then [chunks[i]] else []
    ensures Gather(chunks[..i + 1], NotesOf(v)) == Gather(chunks[..i], NotesOf(v)) + NoteOf(v, chunks[i], i)
  {
    assert chunks[..i + 1][..i] == chunks[..i];
  }

  lemma NamedSoFar(v: Validator, chunks: seq<Chunk>, i: nat)
    requires i < |chunks|
    requires forall j :: 0 <= j < i ==> !UnnamedIn(v)(chunks[j])
    requires !UnnamedIn(v)(chunks[i])
    ensures forall j :: 0 <= j < i + 1 ==> !UnnamedIn(v)(chunks[j])
  {
  }

  // ------------------------------------------------------------- properties

  /** A chunk is kept exactly when it is not blank, and the kept chunks are returned unchanged
      and in their original order: kept chunk `k` is input chunk `idx[k]`, the indices
      increase, and they are exactly the indices of the chunks that are not blank. */
  lemma ValidKeepsNonBlank(v: Validator, chunks: seq<Chunk>) returns (idx: seq<nat>)
    requires Validation(v, chunks).Success?
    ensures var valid := Validation(v, chunks).value.valid;
      && |idx| == |valid|
      && (forall k :: 0 <= k < |idx| ==> idx[k] < |chunks| && valid[k] == chunks[idx[k]])
      && (forall k, l :: 0 <= k < l < |idx| ==> idx[k] < idx[l])
      && (forall j :: 0 <= j < |chunks| ==> (j in idx <==> !Blank(chunks[j].content)))
  {
    idx := FilterIsOrdered(chunks, IsKept);
  }

  /** At most one warning per input chunk, in index order: warning `k` belongs to chunk
      `idx[k]`, the indices increase, every blank chunk `j` gets `EmptyWarning(j)`, every
      oversized chunk with a file path gets the warning naming its index, count, the ceiling
      and its path, and no other chunk gets one. */
  lemma WarningsInIndexOrder(v: Validator, chunks: seq<Chunk>) returns (idx: seq<nat>)
    requires Validation(v, chunks).Success?
    ensures var ws := Validation(v, chunks).value.warnings;
      && |idx| == |ws|
      && (forall k :: 0 <= k < |idx| ==> idx[k] < |chunks| && NoteOf(v, chunks[idx[k]], idx[k]) == [ws[k]])
      && (forall k, l :: 0 <= k < l < |idx| ==> idx[k] < idx[l])
      && (forall j :: 0 <= j < |chunks| ==> (j in idx <==> Blank(chunks[j].content) || OversizeIn(v)(chunks[j])))
    ensures forall j :: 0 <= j < |chunks| && Blank(chunks[j].content) ==>
      NoteOf(v, chunks[j], j) == [EmptyWarning(j)]
    ensures forall j :: 0 <= j < |chunks| && OversizeIn(v)(chunks[j]) ==>
      NoteOf(v, chunks[j], j) == [OversizeWarning(j, v.count(chunks[j].content), v.maxChunkTokens,
                                                  Render(chunks[j].metadata[FilePathKey]))]
  {
    idx := GatherInIndexOrder(chunks, NotesOf(v));
  }

  /** Kept chunks and empty-content warnings make up the input, and the warnings are one per
      blank chunk plus one per oversized chunk, so never more than the chunks. */
  lemma ValidationCounts(v: Validator, chunks: seq<Chunk>)
    requires Validation(v, chunks).Success?
    ensures var rep := Validation(v, chunks).value;
      && |rep.valid| + CountOf(chunks, IsEmpty) == |chunks|
      && |rep.warnings| == CountOf(chunks, IsEmpty) + CountOf(chunks, OversizeIn(v))
      && |rep.warnings| <= |chunks|
  {
    FilterAndCount(chunks, IsKept, IsEmpty);
    GatherLength(chunks, NotesOf(v), IsEmpty, OversizeIn(v));
    FilterAndCount(chunks, IsEmpty, IsKept);
    CountOfFiltered(chunks, IsKept, OversizeIn(v));
    assert CountOf(chunks, OversizeIn(v)) <= |Filter(chunks, IsKept)| by {
      CountBound(Filter(chunks, IsKept), OversizeIn(v));
    }
  }

  lemma {:induction false} CountBound(s: seq<Chunk>, p: Chunk -> bool)
    ensures CountOf(s, p) <= |s|
  {
    if s != [] {
      CountBound(s[..|s| - 1], p);
    }
  }

  /** An oversize warning is never an empty-content warning. */
  lemma OversizeIsNotEmpty(i: nat, tokens: nat, max: int, path: string, j: nat)
    ensures OversizeWarning(i, tokens, max, path) != EmptyWarning(j)
  {
    var rest := " tokens (max: " + IntToString(max) + "), from " + path;
    assert OversizeWarning(i, tokens, max, path) == "Chunk " + NatToString(i) + ": " + NatToString(tokens) + rest;
    WarningsDiffer(NatToString(j), NatToString(i), NatToString(tokens), rest);
  }

  /** After `Chunk ` and a number, `: ` and a digit cannot read as `: Empty content`. */
  lemma WarningsDiffer(a: string, b: string, t: string, rest: string)
    requires IsDigits(a) && IsDigits(b) && IsDigits(t)
    ensures "Chunk " + a + ": Empty content, skipped" != "Chunk " + b + ": " + t + rest
  {
    var e := "Chunk " + a + ": Empty content, skipped";
    var o := "Chunk " + b + ": " + t + rest;
    if |a| == |b| {
      assert e[6 + |a| + 2] == 'E';
      assert o[6 + |b| + 2] == t[0];
    } else if |a| < |b| {
      assert e[6 + |a|] == ':';
      assert o[6 + |a|] == b[|a|];
    } else {
      assert e[6 + |b|] == a[|b|];
      assert o[6 + |b|] == ':';
    }
  }

  /** The warnings for chunks none of which is blank are all oversize warnings. */
  lemma NoEmptyWarnings(v: Validator, s: seq<Chunk>)
    requires forall c :: c in s ==> !Blank(c.content)
    ensures forall w, i: nat :: w in Gather(s, NotesOf(v)) ==> w != EmptyWarning(i)
  {
    GatherFrom(s, NotesOf(v));
    forall w, i: nat | w in Gather(s, NotesOf(v))
      ensures w != EmptyWarning(i)
    {
      var j :| 0 <= j < |s| && w in NoteOf(v, s[j], j);
      assert s[j] in s;
      var c := s[j];
      OversizeIsNotEmpty(j, v.count(c.content), v.maxChunkTokens, Render(c.metadata[FilePathKey]), i);
    }
  }

  /** Validating the kept chunks again keeps all of them and raises nothing. */
  lemma RevalidationKeepsAll(v: Validator, chunks: seq<Chunk>)
    requires Validation(v, chunks).Success?
    ensures var valid := Validation(v, chunks).value.valid;
      Validation(v, valid) == Success(Report(valid, Gather(valid, NotesOf(v))))
  {
    var k := Filter(chunks, IsKept);
    FilterMembers(chunks, IsKept);
    FilterIdempotent(chunks, IsKept);
    forall j | 0 <= j < |k|
      ensures !UnnamedIn(v)(k[j])
    {
      assert k[j] in chunks;
    }
  }

  /** Validating the kept chunks again gives no empty-content warning, and the oversize
      warnings recur, one per oversized chunk. */
  lemma RevalidationWarnings(v: Validator, chunks: seq<Chunk>)
    requires Validation(v, chunks).Success?
    ensures var valid := Validation(v, chunks).value.valid;
      var ws := Gather(valid, NotesOf(v));
      && (forall w, i: nat :: w in ws ==> w != EmptyWarning(i))
      && |ws| == CountOf(chunks, OversizeIn(v))
  {
    var k := Filter(chunks, IsKept);
    FilterMembers(chunks, IsKept);
    NoEmptyWarnings(v, k);
    GatherLength(k, NotesOf(v), IsEmpty, OversizeIn(v));
    CountOfFiltered(chunks, IsKept, OversizeIn(v));
    NoneCounted(k, IsEmpty);
  }

  lemma {:induction false} NoneCounted(s: seq<Chunk>, p: Chunk -> bool)
    requires forall c :: c in s ==> !p(c)
    ensures CountOf(s, p) == 0
  {
    if s != [] {
      var r := s[..|s| - 1];
      assert forall c :: c in r ==> c in s;
      NoneCounted(r, p);
    }
  }
}
