# github-rag-assistant: the text pipeline between ingestion and the LLM call

This project models, in Dafny, the deterministic text processing of the
`github_rag` package. That package ingests a GitHub repository into a vector store
and answers questions about it. The modelled steps are:

- choosing which repository files to ingest (`FileFilter`);
- normalizing a file's text and building its metadata record (`ContentNormalizer`);
- keeping the first code cells of a notebook (`parse_notebook_cells`);
- cutting a document into line and word chunks under a token budget, with overlap (`Chunker`);
- screening chunks before embedding (`ChunkValidator`);
- fitting retrieved chunks into the model's context budget (`TokenCounter.truncate_chunks`);
- rendering them as one context text (`format_context_for_llm`);
- choosing the prompt template (`get_prompt_template`);
- reading owner and repository name off a URL (`parse_repo_url`);
- grouping a repository's files by folder (`scan_folder_structure`).

Each source file is one module:

- The code that changes state step by step is modelled by methods with loops:
  - `Chunker.ScanLines`, `Chunker.SplitLongLine` and `Chunker.GetOverlapLines`;
  - `TokenUtils.TruncateChunks` and `TokenUtils.FitWords`;
  - `ChunkValidator.ValidateChunks`;
  - `ContentNormalizer.NormalizeContent`;
  - `NotebookParser.ParseNotebookCells`;
  - `FolderUtils.ScanFolderStructure`;
  - `QueryProcessor.FormatContextForLlm`.
- Each of those methods is proved against a specification function or predicate. The
  properties the code promises are then proved as lemmas about that function or predicate.
- The pure code (`FileFilter`, `GitHubClient`, `PromptTemplates`) is modelled by functions
  and lemmas.

Shared modules:

- `Text` models the Python string operations the code relies on:
  - `str.split(sep)`, `str.split()`, `sep.join`;
  - `strip`/`lstrip`/`rstrip`;
  - `endswith`, substring `in`, `replace(p, '')`, `str(int)`;
  - the string order used by `sorted`.
- `Sequences` holds order-preserving filters and gathers.
- `ChunkRecord` holds the chunk dictionary.
- `RepoContent` holds GitHub's `ContentFile` entry.
- `Wrappers` holds `Option` and `Result`. Python exceptions become `Failure(KeyError(..))`,
  `Failure(ValueError(..))` or `None`.

Tokenizers are parameters of type `string -> nat`. They need not be additive
or monotone. The chunker and the validator use one tokenizer
(`cl100k_base`). The truncation uses another (the `gpt-4o-mini` encoding).

The model follows the code where it differs from what its documentation suggests:

- The chunker is not fixed in the model:
  - Empty content gives one chunk with empty content, provided `count("")` is within
    the budget.
  - A buffer seeded with overlap can exceed `chunk_size`, because the recomputed count is
    never checked. Only chunks built from an empty buffer, or seeded with an empty
    overlap, are proved to fit.
- Re-validating kept chunks repeats the oversize warnings, re-indexed.

## Model

| member | source | states |
|---|---|---|
| Chunker.CreateChunk | src/github_rag/ingestion/chunker.py:140-157 | The chunk holds exactly the given text. Its metadata keys are the file's keys plus `chunk_index`, `start_line`, `end_line` and `token_count`. Every other file key keeps its value. The three positions are the arguments. `token_count` is the count of the chunk's own content. |
| Chunker.ConfigFallsBack | src/github_rag/ingestion/chunker.py:11-13 | `chunk_size` and `chunk_overlap` are read from the configuration, falling back to 1000 and 200. An empty configuration gives the default configuration. |
| Chunker.GetOverlapLines | src/github_rag/ingestion/chunker.py:122-138 | The overlap is a suffix of the lines. A non-empty overlap's line counts sum to at most `chunk_overlap`. Unless it is all the lines, adding the line before it would exceed the budget, so the backward walk stopped at the first line that overflowed. Empty input gives empty output. |
| Chunker.OverlapIsLongestFit | src/github_rag/ingestion/chunker.py:130-136 | Every suffix longer than the overlap sums to more than the budget. |
| Chunker.OverlapUnique | src/github_rag/ingestion/chunker.py:122-138 | Any two lists meeting the overlap rule for the same lines and budget are equal. |
| Chunker.SumCountsSuffixes | src/github_rag/ingestion/chunker.py:131-136 | A longer suffix of lines sums to at least as many tokens as a shorter one. |
| Chunker.WordStep | src/github_rag/ingestion/chunker.py:60-76 | One pass of the word loop keeps the word-loop invariant. A word that would overflow closes the open group (emitting its chunk) and opens a new one. The first word opens a group even when it does not fit. Any other word joins the open group. |
| Chunker.SplitLongLine | src/github_rag/ingestion/chunker.py:55-86 | The word chunks are a greedy packing of the line's words. The groups concatenate to the words, in order, each word once. Every group is non-empty. A group sums to at most `chunk_size` unless it is one word. Each group was closed because the next word would not fit. There is one call per group: content is the group joined by spaces, chunk indices are consecutive from the first free one, and `start_line == end_line ==` the line. |
| Chunker.PackingStart | src/github_rag/ingestion/chunker.py:62-73 | A word that does not fit the last group starts a new one-word group, and the packing stays greedy. |
| Chunker.PackingExtend | src/github_rag/ingestion/chunker.py:74-76 | A word that fits joins the open group, and the packing stays greedy. |
| Chunker.GroupCallsIndex | src/github_rag/ingestion/chunker.py:64-70 | Word call `k` is the `k`-th group joined by spaces, with index `first + k` and the line as both start and end. |
| Chunker.EmitMeans | src/github_rag/ingestion/chunker.py:140-157 | The chunk built for call `k` has that call's content, index, start and end line, and the file's metadata. |
| Chunker.AppendStep | src/github_rag/ingestion/chunker.py:106-108 | A line within the budget that fits is appended to the buffer. The buffer stays the contiguous lines ending just before the next index, and the loop invariant holds. |
| Chunker.OverflowStep | src/github_rag/ingestion/chunker.py:90-105 | When a line overflows the buffer, the buffer is closed into a line chunk of exactly its lines, ending at `i - 1`. The new buffer is the overlap (the last lines of the closed chunk) followed by line `i`. It is contiguous again. |
| Chunker.OverflowCloses | src/github_rag/ingestion/chunker.py:90-92 | A line within the budget can only overflow a non-empty buffer. |
| Chunker.BufferOverflow | src/github_rag/ingestion/chunker.py:103-104 | The overlap is the lines just before `i`, so overlap plus line `i` is contiguous. |
| Chunker.TokensSeeded | src/github_rag/ingestion/chunker.py:103-105 | After seeding, the buffer's shared lines with the last chunk are exactly the overlap the rule takes from that chunk. No bound on the recomputed count is claimed. |
| Chunker.LongStep | src/github_rag/ingestion/chunker.py:41-87 | For a line over the budget, a non-empty buffer is closed first. Then only word chunks at that line are added: they are its greedy packing. The buffer restarts empty with count 0 and no overlap. |
| Chunker.LongFlush | src/github_rag/ingestion/chunker.py:43-53 | Closing the buffer before a long line gives a line chunk at the next free index, and the calls stay a chunking. The last call starts at or before the long line and ends before it. The lines before it stay covered and the long lines stay packed. |
| Chunker.LongWords | src/github_rag/ingestion/chunker.py:55-87 | Appending the long line's word chunks keeps the loop invariant with an empty buffer starting after the line. |
| Chunker.LongLine | src/github_rag/ingestion/chunker.py:41-87 | One pass over a line above `chunk_size` keeps the loop invariant and the greedy invariant, with an empty buffer at count 0 starting after the line. |
| Chunker.OverflowLine | src/github_rag/ingestion/chunker.py:89-105 | One pass over a line within the budget that does not fit the running count keeps the loop invariant and the greedy invariant with the buffer reseeded. |
| Chunker.ChunkingAppendWords | src/github_rag/ingestion/chunker.py:60-86 | Word chunks appended after chunks ending no later than the line keep dense indices, ordered starts and the shape of every chunk. |
| Chunker.CoveringWordsLine | src/github_rag/ingestion/chunker.py:55-86 | The chunks covering a long line are exactly its word chunks. |
| Chunker.Finish | src/github_rag/ingestion/chunker.py:110-118 | The final flush turns a non-empty buffer into a line chunk from `len(lines) - len(current_chunk)` to `len(lines) - 1`. Every chunk property, coverage of all lines and the packing of long lines hold for the result. |
| Chunker.SingleLine | src/github_rag/ingestion/chunker.py:31-118 | A one-line document within the budget is the single call `(line, 0, 0, 0)`. |
| Chunker.ScanLines | src/github_rag/ingestion/chunker.py:31-119 | The calls of the loop and the final flush form a chunking: each call follows the calls before it. Every line is covered. Long lines are packed greedily. Every line chunk closes greedily: it ends after the chunk before it, each line it took fitted the running count, and it stops only after the last line, before a long line, or before a line the running count cannot take. A single line within budget is one chunk. |
| Chunker.ChunkingMeans | src/github_rag/ingestion/chunker.py:35-118 | A chunking has dense indices `0..N-1`. Each chunk is either a line chunk or a word chunk. A line chunk's range lies in bounds, its content is `'\n'.join(lines[s..e])` and its lines are within the budget. A word chunk has `s == e ==` a long line. Start lines never decrease. A line chunk that starts inside the one before it shares exactly that one's overlap. The first chunk, and every chunk not seeded by its predecessor, sums to at most `chunk_size`. |
| Chunker.ChunkingDense | src/github_rag/ingestion/chunker.py:35-115 | `chunk_index` values are `0, 1, ..., N-1` in list order. |
| Chunker.ChunkingOrdered | src/github_rag/ingestion/chunker.py:44-117 | Start lines never decrease along the output. |
| Chunker.ChunkingShaped | src/github_rag/ingestion/chunker.py:44-117 | Every chunk is a contiguous line chunk or a word chunk of a long line. |
| Chunker.ChunkingOverlaps | src/github_rag/ingestion/chunker.py:103-105 | Consecutive line chunks that share lines share exactly the overlap of the earlier one. |
| Chunker.ChunkingFits | src/github_rag/ingestion/chunker.py:90-108 | Chunks built from an empty buffer fit the budget. |
| Chunker.NoneCoverLater | src/github_rag/ingestion/chunker.py:37-119 | No chunk covers a line after the last chunk's end. |
| Chunker.GreedyMeans | src/github_rag/ingestion/chunker.py:37-118 | The step-by-step greedy invariant means every line chunk stops greedily after the calls before it. |
| Chunker.EmptyOverlapFits | src/github_rag/ingestion/chunker.py:90-108 | A line chunk that starts just after the line chunk before it was built from an empty overlap. It fits the budget. |
| Chunker.GreedyUnseeded | src/github_rag/ingestion/chunker.py:90-108 | In calls that close greedily, every line chunk starting right after the preceding line chunk fits the budget. |
| Chunker.GreedyAdvances | src/github_rag/ingestion/chunker.py:90-118 | In calls that close greedily, a line chunk ends after the chunk before it. |
| Chunker.EarlyCloseRejected | src/github_rag/ingestion/chunker.py:89-108 | Two one-token lines under `chunk_size` 100 are not cut into one chunk each: a chunk closed before a line that still fits is not greedy. |
| Chunker.TensSum | src/github_rag/ingestion/chunker.py:38 | Lines that count 10 tokens each sum to 10 per line. |
| Chunker.ThreeTensScenario | src/github_rag/ingestion/chunker.py:31-119 | Three 10-token lines under `chunk_size` 25 and overlap 10 give exactly two chunks: lines 0-1 at index 0 and lines 1-2 at index 1. Line 1 is the carried overlap. |
| Chunker.SplitByLines | src/github_rag/ingestion/chunker.py:20-120 | The output is one chunk per call of the scan of `content.split('\n')`, in order. Indices are dense. Every chunk is a line chunk or a word chunk. Starts are ordered. Overlap is carried and fresh chunks fit. Every line lies in some chunk's range, except a long line without words. Each long line's chunks are its greedy word packing. Every line chunk closes greedily, and a line chunk seeded with an empty overlap fits the budget. Newline-free content within the budget, the empty text included, gives exactly one chunk of the whole content at position 0. |
| TokenUtils.TruncateChunks | src/github_rag/utils/token_utils.py:16-58 | The loop returns `Truncation(count, chunks, available)`, where `available = max_tokens - (count(system) + count(query) + 50)`. |
| TokenUtils.DefaultBudget | src/github_rag/utils/token_utils.py:8-26 | With the default `max_tokens` of 100, `50 - count(system) - count(query)` tokens are available. When the prompt and query count more than 30 tokens together, no chunk is returned. |
| TokenUtils.FitPartial | src/github_rag/utils/token_utils.py:40-55 | The partial fit is attempted only when more than 10 tokens remain. It is emitted only if at least one word fits. It is a copy of the chunk whose content is the fitted text plus `"..."`. |
| TokenUtils.FitWords | src/github_rag/utils/token_utils.py:43-50 | The word loop adds words, each after a space, while the count stays under `remaining`. It stops at the first word that does not fit. |
| TokenUtils.TruncationStops | src/github_rag/utils/token_utils.py:38-56 | When the loop breaks at the first chunk that does not fit, it returns the accepted prefix followed by that chunk's tail. |
| TokenUtils.TruncationTakesAll | src/github_rag/utils/token_utils.py:32-58 | When every chunk fits, all of them are returned. |
| TokenUtils.AcceptedIsLongestFit | src/github_rag/utils/token_utils.py:35-37 | The chunks taken whole are the longest prefix whose summed counts stay within `available`. |
| TokenUtils.AcceptedMonotone | src/github_rag/utils/token_utils.py:35-37 | A larger budget takes at least as many whole chunks. |
| TokenUtils.GrowKeeps | src/github_rag/utils/token_utils.py:46-50 | The word loop only extends the text it started with. |
| TokenUtils.GrowEmpty | src/github_rag/utils/token_utils.py:43-52 | The truncated text is empty exactly when there are no words or `" " + first word` does not count under `remaining`. |
| TokenUtils.GrowIsSpacedPrefix | src/github_rag/utils/token_utils.py:43-50 | The built text is `" " + ' '.join(words[:n])`. Every text on the way counts under `remaining`. The next word, if any, would not. |
| TokenUtils.TruncationMeans | src/github_rag/utils/token_utils.py:20-58 | Below 20 available tokens the result is empty. Otherwise it is the longest fitting prefix of the chunks, unchanged, followed by at most one more chunk. That chunk is a copy of the next input chunk differing only in `content`. Its content is `" " + ' '.join(first n >= 1 words) + "..."`. The spaced words count under what was left, and more than 10 tokens were left. Nothing follows it. |
| TokenUtils.TailWords | src/github_rag/utils/token_utils.py:43-54 | The truncated copy's content is its first `n >= 1` words, spaced, then `"..."`, counting under what was left. `n` is where the word loop stopped: either every word was taken, or the text plus `" "` and word `n + 1` does not count under what was left. |
| TokenUtils.TruncationLength | src/github_rag/utils/token_utils.py:38-56 | The result has one chunk more than the accepted prefix exactly when: a chunk is left, more than 10 tokens remain, and its first word fits. |
| TokenUtils.TruncationMonotone | src/github_rag/utils/token_utils.py:25-56 | More available tokens never return fewer chunks. |
| TokenUtils.MaxTokensMonotone | src/github_rag/utils/token_utils.py:8-56 | Raising `max_tokens` with the same prompt and query never returns fewer chunks. |
| TokenUtils.TruncationOfNone | src/github_rag/utils/token_utils.py:29-58 | An empty chunk list gives an empty result. |
| ChunkValidator.DefaultValidator | src/github_rag/utils/chunk_validator.py:8-10 | The default soft ceiling is 500 tokens. |
| ChunkValidator.NoteOf | src/github_rag/utils/chunk_validator.py:26-37 | A chunk contributes one warning if it is blank, or if it is oversized with a file path, and none otherwise. |
| ChunkValidator.ValidateChunks | src/github_rag/utils/chunk_validator.py:12-42 | The loop returns `Validation`. It raises `KeyError('file_path')` when an oversized non-blank chunk has no file path. Otherwise it returns the non-blank chunks and the warnings of all chunks, in index order. |
| ChunkValidator.ValidKeepsNonBlank | src/github_rag/utils/chunk_validator.py:22-40 | Kept chunk `k` is input chunk `idx[k]`, unchanged. The indices increase. A chunk is kept if and only if its content is not blank after strip. |
| ChunkValidator.WarningsInIndexOrder | src/github_rag/utils/chunk_validator.py:22-40 | There is at most one warning per input chunk, in index order. A blank chunk `j` gets `"Chunk {j}: Empty content, skipped"`. An oversized chunk gets the warning with its index, count, the maximum and its `file_path`. No other chunk gets a warning. |
| ChunkValidator.ValidationCounts | src/github_rag/utils/chunk_validator.py:22-40 | `len(valid)` plus the number of blank chunks is `len(chunks)`. The warnings number the blank chunks plus the oversized ones, never more than the chunks. |
| ChunkValidator.OversizeIsNotEmpty | src/github_rag/utils/chunk_validator.py:27-37 | An oversize warning never equals an empty-content warning. |
| ChunkValidator.RevalidationKeepsAll | src/github_rag/utils/chunk_validator.py:26-40 | Validating the kept list again drops nothing and raises nothing. |
| ChunkValidator.RevalidationWarnings | src/github_rag/utils/chunk_validator.py:26-40 | Validating the kept list again gives no empty-content warning. The oversize warnings recur, one per oversized chunk. |
| ContentNormalizer.NormalizeContent | src/github_rag/ingestion/content_normalizer.py:35-68 | The loop with its `blank_count` counter, the `rstrip` pass and the final strip return `Normalized(content)`. |
| ContentNormalizer.KeepLineByCount | src/github_rag/ingestion/content_normalizer.py:54-61 | The counter test `blank_count <= 2` keeps a line exactly when it is not blank or fewer than two blank lines precede it. |
| ContentNormalizer.CollapseIsOrderedFilter | src/github_rag/ingestion/content_normalizer.py:54-61 | The collapsed lines are input lines, unchanged and in order. A line is kept if it is non-blank, or among the first two of its run of blank lines. |
| ContentNormalizer.CollapseAllBlank | src/github_rag/ingestion/content_normalizer.py:54-61 | The kept lines are all blank exactly when all input lines are. |
| ContentNormalizer.NormalizedShape | src/github_rag/ingestion/content_normalizer.py:46-68 | Every result is the join of normal lines. Normal lines have no newline, no trailing whitespace and never three blank lines in a row. They are either the single empty line, or start and end with non-whitespace. |
| ContentNormalizer.NormalizedFixed | src/github_rag/ingestion/content_normalizer.py:46-68 | Normalizing the join of normal lines gives it back. |
| ContentNormalizer.NormalizeIdempotent | src/github_rag/ingestion/content_normalizer.py:46-68 | `normalize(normalize(x)) == normalize(x)`. |
| ContentNormalizer.NormalizedIsTidy | src/github_rag/ingestion/content_normalizer.py:54-66 | No line of the result ends in whitespace, and no three lines in a row are blank. |
| ContentNormalizer.NormalizedIsStripped | src/github_rag/ingestion/content_normalizer.py:68 | The result is empty, or starts and ends with non-whitespace. |
| ContentNormalizer.NoFourNewlines | src/github_rag/ingestion/content_normalizer.py:49-68 | The result never contains `"\n\n\n\n"`. |
| ContentNormalizer.NormalizedEmptyIffBlank | src/github_rag/ingestion/content_normalizer.py:46-68 | The result is `""` exactly when the content is empty or whitespace only. |
| ContentNormalizer.FileMetadata | src/github_rag/ingestion/content_normalizer.py:70-88 | The metadata has exactly the five keys `file_path`, `file_name`, `file_extension`, `file_size` and `file_url`. Each holds the entry's value. The size is rendered as a decimal string. |
| ContentNormalizer.FileExtensionMeans | src/github_rag/ingestion/content_normalizer.py:80 | The extension is `"none"` when the name has no `.`. Otherwise it is the text after a `.` of the name and holds no `.`, so it is the text after the last `.`. |
| ContentNormalizer.FileExtension | src/github_rag/ingestion/content_normalizer.py:80 | Computes the extension; its properties are stated by `FileExtensionMeans`: `"none"` without a `.`, otherwise the text after the last `.`. |
| ContentNormalizer.ProcessFile | src/github_rag/ingestion/content_normalizer.py:90-116 | The result is `None` exactly when extraction failed or the content is whitespace only, so its normalization is empty. Otherwise it is the normalized text with the file's metadata. |
| FileFilter.NewFilter | src/github_rag/ingestion/file_filter.py:9-16 | Each rule comes from the configuration when present. The defaults are: no extensions, no names, no patterns, 1 MB. |
| FileFilter.ShouldIncludeIffAll | src/github_rag/ingestion/file_filter.py:18-52 | A file is included exactly when all of these hold: its type is `"file"`; its name ends with an included extension or equals an included name; no excluded pattern occurs in its path; its size is at most `max_file_size_mb * 1024 * 1024`. |
| FileFilter.ShouldInclude | src/github_rag/ingestion/file_filter.py:34-52 | Runs the four checks in the source's order; `ShouldIncludeIffAll` states that a file is included exactly when all four pass. |
| FileFilter.IsValidExtension | src/github_rag/ingestion/file_filter.py:18-20 | Holds when the name ends with one of the included extensions; `EmptyExtensionAdmitsAll` and `ShouldIncludeIffAll` state its role. |
| FileFilter.IsExactNameMatch | src/github_rag/ingestion/file_filter.py:22-24 | Holds when the name is one of the included names; `ShouldIncludeIffAll` and `EmptyIncludesNothing` state its role. |
| FileFilter.IsExcludedPath | src/github_rag/ingestion/file_filter.py:26-28 | Holds when an excluded pattern occurs in the path; `EmptyPatternExcludesAll` and `ShouldIncludeMonotone` state its role. |
| FileFilter.IsWithinSizeLimit | src/github_rag/ingestion/file_filter.py:30-32 | Holds when the size is at most the limit in bytes; `SizeLimitInclusive` states the boundary. |
| FileFilter.OnlyFiles | src/github_rag/ingestion/file_filter.py:44-45 | An entry whose type is not `"file"` is never included. |
| FileFilter.EmptyIncludesNothing | src/github_rag/ingestion/file_filter.py:18-47 | With both include lists empty, nothing is included. |
| FileFilter.SizeLimitInclusive | src/github_rag/ingestion/file_filter.py:16-32 | A size of exactly the limit passes. One byte more fails. |
| FileFilter.DefaultLimit | src/github_rag/ingestion/file_filter.py:15-16 | The default limit is 1048576 bytes. |
| FileFilter.EmptyPatternExcludesAll | src/github_rag/ingestion/file_filter.py:26-49 | An empty exclude pattern occurs in every path, so it excludes every file. |
| FileFilter.EmptyExtensionAdmitsAll | src/github_rag/ingestion/file_filter.py:18-20 | An empty included extension ends every name. |
| FileFilter.ShouldIncludeMonotone | src/github_rag/ingestion/file_filter.py:34-52 | More include rules, fewer exclude patterns and a larger limit never include fewer files. |
| NotebookParser.CellList | src/github_rag/ingestion/notebook_parser.py:19-23 | Cells are found exactly when the notebook is an object whose `"cells"` is a list. |
| NotebookParser.JoinedSource | src/github_rag/ingestion/notebook_parser.py:27-28 | `''.join(source)` succeeds exactly when every item is a string. |
| NotebookParser.ListSource | src/github_rag/ingestion/notebook_parser.py:26-28 | A code cell whose source is a list of strings has those strings concatenated as its source. |
| NotebookParser.ParseNotebookCells | src/github_rag/ingestion/notebook_parser.py:5-45 | The loop with its early exits returns `NotebookCode(parsed, max_cells)`. |
| NotebookParser.QualifyingNonBlank | src/github_rag/ingestion/notebook_parser.py:31-32 | Every selected source has non-whitespace content. |
| NotebookParser.ScanSelects | src/github_rag/ingestion/notebook_parser.py:23-36 | With a positive limit the kept sources are a prefix of the non-blank code sources in notebook order. There are at most `max_cells` of them, and all of them when there are fewer. |
| NotebookParser.ScanTotal | src/github_rag/ingestion/notebook_parser.py:23-36 | When no cell raises, the loop completes. |
| NotebookParser.ScanTotalBeforeLimit | src/github_rag/ingestion/notebook_parser.py:23-36 | When every cell that would raise comes after `max_cells` sources are kept, the loop completes: it breaks before it reaches such a cell. |
| NotebookParser.ScanRaises | src/github_rag/ingestion/notebook_parser.py:24-45 | A cell that raises and is reached before the limit makes the call return `None`. |
| NotebookParser.ScanNonPositive | src/github_rag/ingestion/notebook_parser.py:31-36 | With `max_cells <= 0`, at most one source is returned, because the check runs after the append. It is the first qualifying one. |
| NotebookParser.Rejected | src/github_rag/ingestion/notebook_parser.py:17-45 | Text that is not JSON, a notebook without a `cells` list and a notebook without a non-blank code cell all give `None`. |
| NotebookParser.FirstQualifying | src/github_rag/ingestion/notebook_parser.py:23-42 | For any parsed notebook with a cell list and a positive limit, where no cell reached before the limit raises, the result is the first `min(len, max_cells)` non-blank code sources joined by `"\n\n# --- Next Cell ---\n\n"`. |
| NotebookParser.DefaultFirstFive | src/github_rag/ingestion/notebook_parser.py:5-42 | With the default `max_cells` of 5, and no cell reached before that limit raising, the result is the first five non-blank code sources, or all of them when there are fewer, joined by the separator. |
| NotebookParser.JunkPastLimit | src/github_rag/ingestion/notebook_parser.py:23-36 | With `max_cells` 1, the notebook `{"cells": [{"cell_type": "code", "source": "x"}, 7]}` gives `"x"`: the cell `7`, which would raise, is never reached. |
| NotebookParser.OutputEnds | src/github_rag/ingestion/notebook_parser.py:38-42 | The output starts with the first kept source and ends with the last one. |
| GitHubClient.RStripChar | src/github_rag/ingestion/github_client.py:29 | `rstrip('/')` removes exactly the trailing run of `/`. The result is a prefix that does not end in `/`. |
| GitHubClient.ParseRepoUrlMeans | src/github_rag/ingestion/github_client.py:18-40 | The URL is rejected with `ValueError("Invalid GitHub URL: " + cleaned)` exactly when its path holds no `/`. Otherwise owner and repository hold no `/`, and the path is `owner/repo` or starts with `owner/repo/`, so further segments are ignored. |
| GitHubClient.ParseRepoUrl | src/github_rag/ingestion/github_client.py:18-40 | Computes the owner and repository; `ParseRepoUrlMeans` states when it fails and what it returns, `StandardUrl`, `CloneUrl` and `DottedName` give it on standard URLs. |
| GitHubClient.FirstTwoSegments | src/github_rag/ingestion/github_client.py:37-40 | Two or more segments joined by `/` are the first two, possibly followed by `/` and more. |
| GitHubClient.PathIsAfterHost | src/github_rag/ingestion/github_client.py:32 | Only the text after the last `github.com/` is used. Without one, the whole cleaned URL is used. |
| GitHubClient.TrailingSlash | src/github_rag/ingestion/github_client.py:29 | A trailing `/` does not change the result. |
| GitHubClient.StandardUrl | src/github_rag/ingestion/github_client.py:23-40 | `https://github.com/o/r`, with or without a trailing `/`, gives `(o, r)`. This holds when `o` and `r` contain no `/` and no `.git`, `r` is not empty, and `o` does not end in `github.com`. Names with dots, such as `next.js`, are covered. |
| GitHubClient.CloneUrl | src/github_rag/ingestion/github_client.py:29-40 | The clone URL `https://github.com/o/r.git` gives `(o, r)` under the same conditions on the names. |
| GitHubClient.DottedName | src/github_rag/ingestion/github_client.py:29-40 | `https://github.com/vercel/next.js` gives `("vercel", "next.js")`: the `.` in the name survives the `.git` removal. |
| GitHubClient.GitSuffixRemoved | src/github_rag/ingestion/github_client.py:29 | Removing `.git` from a text without `.git` followed by `.git` gives the text back. |
| GitHubClient.NotAcrossSlash | src/github_rag/ingestion/github_client.py:29 | A pattern without `/` that occurs in neither name does not occur in `owner/repo`. |
| GitHubClient.HostNotInTail | src/github_rag/ingestion/github_client.py:32 | `github.com/` does not occur in `owner/repo` when the names hold no `/` and the owner does not end in `github.com`, so the split keeps the whole path. |
| GitHubClient.StandardCleaned | src/github_rag/ingestion/github_client.py:29 | `https://github.com/` followed by a non-empty text without `.git` and without a trailing `/` is unchanged by the cleaning. |
| GitHubClient.StandardPath | src/github_rag/ingestion/github_client.py:32 | The path of a standard URL is `owner/repo`. |
| FolderUtils.ScanFolderStructure | src/github_rag/utils/folder_utils.py:5-35 | The result describes the tally of the files met. Folder names are strictly sorted, and they are exactly the tallied folders. Each entry has the tallied count and its extensions, strictly sorted and without duplicates. |
| FolderUtils.TallyFolders | src/github_rag/utils/folder_utils.py:13-28 | The loop over the files met builds exactly the tally of those files, whose keys, counts and extensions `TallyKeys`, `TallyCount` and `TallyExtensions` state. |
| FolderUtils.AddFile | src/github_rag/utils/folder_utils.py:17-28 | Meeting one file creates its folder's entry when absent, adds 1 to its count and adds its extension label. |
| FolderUtils.SummarizeFolders | src/github_rag/utils/folder_utils.py:32-35 | The final loop returns a summary that describes the tally: sorted folder names, the tallied counts and the sorted extension lists. |
| FolderUtils.SortedList | src/github_rag/utils/folder_utils.py:32-35 | `sorted(set)` is strictly ascending and holds exactly the set's members. |
| FolderUtils.TallyKeys | src/github_rag/utils/folder_utils.py:17-25 | A folder is listed exactly when some file lies in it. |
| FolderUtils.TallyCount | src/github_rag/utils/folder_utils.py:24-27 | A folder's count is the number of files in it. |
| FolderUtils.TallyPositive | src/github_rag/utils/folder_utils.py:24-27 | Every listed folder holds at least one file. |
| FolderUtils.TallyExtensions | src/github_rag/utils/folder_utils.py:22-28 | A folder's extensions are exactly the extension labels of its files. |
| FolderUtils.CountsMatch | src/github_rag/utils/folder_utils.py:24-35 | Every entry's count is the number of the files in its folder. |
| FolderUtils.CountsAddUp | src/github_rag/utils/folder_utils.py:24-35 | The counts add up to the number of files met. |
| FolderUtils.FolderAndName | src/github_rag/utils/folder_utils.py:17-18 | The folder is the path without its last `/` component: folder, `/` and that component rebuild the path. |
| FolderUtils.ExtensionIsSuffix | src/github_rag/utils/folder_utils.py:22-28 | The extension label is `.` plus the text after the last `.` of the name. It ends the name. |
| QueryProcessor.PartOf | src/github_rag/rag/query_processor.py:66-72 | A part is rendered exactly when the chunk's metadata has `file_path`, `start_line` and `end_line`. The `KeyError` names the first missing one, in that order. |
| QueryProcessor.AllParts | src/github_rag/rag/query_processor.py:65-72 | There is one part per chunk, the `k`-th being `"[Source {k+1}: {file_path} (lines {start}-{end})]\n{content}\n"`. |
| QueryProcessor.FormatContextForLlm | src/github_rag/rag/query_processor.py:53-74 | The loop returns `FormatContext(chunks)`. |
| QueryProcessor.FailureStays | src/github_rag/rag/query_processor.py:65-72 | Once an iteration raises, no later one runs. |
| QueryProcessor.PartsSucceed | src/github_rag/rag/query_processor.py:65-72 | The loop succeeds exactly when every chunk has the three keys. |
| QueryProcessor.PartsValue | src/github_rag/rag/query_processor.py:65-72 | The parts are one per chunk, in input order, each what its iteration rendered. |
| QueryProcessor.FormatContextMeans | src/github_rag/rag/query_processor.py:63-74 | The call succeeds exactly when all chunks have the keys. It then returns the parts joined by `"\n---\n"`. |
| QueryProcessor.EmptyContext | src/github_rag/rag/query_processor.py:63-74 | An empty list gives `""`. |
| QueryProcessor.FirstMissingKey | src/github_rag/rag/query_processor.py:65-67 | The call raises the `KeyError` of the first chunk that lacks a key. |
| QueryProcessor.SourceNumber | src/github_rag/rag/query_processor.py:71 | The `k`-th part starts with `[Source `, the decimal digits of `k + 1`, and `: `. |
| QueryProcessor.ContentAppears | src/github_rag/rag/query_processor.py:68-74 | Each chunk's content appears verbatim in the output at a known position. |
| QueryProcessor.ContentInOrder | src/github_rag/rag/query_processor.py:65-74 | Each content ends before the next one starts, so the contents appear in input order. |
| PromptTemplates.KnownExtensions | src/github_rag/utils/prompt_templates.py:4-18 | `.ipynb`, `.py` and `.md` each get their own template. |
| PromptTemplates.KnownDistinct | src/github_rag/utils/prompt_templates.py:4-24 | The three known templates differ from each other and from the default. |
| PromptTemplates.OtherKeys | src/github_rag/utils/prompt_templates.py:20-26 | Any other key, a dot-less one such as `py` included, gets the default template. |
| PromptTemplates.GetPromptTemplate | src/github_rag/utils/prompt_templates.py:1-26 | Computes the lookup; `KnownExtensions`, `OtherKeys`, `KnownDistinct` and `LookupTotal` state its results. |
| PromptTemplates.ContextBeforeQuery | src/github_rag/utils/prompt_templates.py:7-22 | Every user prompt contains `{context}` and, after it, `{query}`. |
| PromptTemplates.LookupTotal | src/github_rag/utils/prompt_templates.py:26 | The lookup is total. It yields one of the dictionary's templates, with non-empty system and user prompts. |

## Left out

- I/O and foreign calls are parameters or are left out:
  - The tokenizers (`tiktoken`) are uninterpreted `string -> nat` functions.
  - `json.loads` is replaced by an already-parsed `Option<Json>`. `None` stands for text it rejects.
  - `extract_content`, which calls GitHub, is replaced by an `Option<string>` argument of
    `ProcessFile`. The warning it prints is not modelled.
- The configuration file (`get_chunking_config`, `get_filtering_config`) is modelled as
  explicit arguments: `Chunker.Config`, and `FileFilter.NewFilter`'s optional values.
  Loading TOML is out of scope.
- The repository traversal is replaced by the list of files it meets:
  - `scan_directory`'s recursion over `repo.get_contents`;
  - `get_files_from_folders` and `get_files_recursively` in `utils/folder_utils.py`;
  - the rest of `ingestion/github_client.py` (client set-up, `get_repository`, file download).
- `process_query` in `rag/query_processor.py` calls the embedding service and uses floating point.
- `ParseNotebookCells`: JSON numbers are integers here, since floats play no part in cell selection.
- `ParseNotebookCells`: a non-object notebook and a non-list `cells` end in `None`. A
  non-object cell, or a code cell whose source is neither a string nor a list of strings,
  ends in `None` only when the loop reaches it, before `max_cells` sources are kept: cells
  after the `break` are never looked at. Classifying these cases needs these rules:
  - Python's `in` on a list or string gives no cells.
  - A `TypeError` or `AttributeError` is caught.
  - An empty string or dict yields no code cell.
- A chunk without `content` or without a metadata dictionary cannot occur, because the
  `Chunk` datatype always has both. This applies to `ValidateChunks`, `TruncateChunks` and
  `FormatContextForLlm`, which all index those keys. The `KeyError`s for missing metadata
  keys are modelled: `file_path` for oversized chunks in `ValidateChunks`, and `file_path`,
  `start_line` and `end_line` in `FormatContextForLlm`.
- `TruncateChunks`: `chunk.copy()` is shallow, so the copy shares its metadata dictionary
  with the original. The model works on values, so it does not capture that sharing. It
  states that the copy differs from its original only in `content`.
- `NormalizeContent`: its `file_path` parameter is unused in the code and ignored here.
- `FileFilter.NewFilter`: `max_file_size_mb` is any integer. A float from the configuration
  is not modelled.
- `FolderUtils.ScanFolderStructure`: the code first replaces each folder's extension set
  by `sorted(...)` and then sorts the folders. The model sorts inside one final loop over
  the sorted folder names, which yields the same dictionary. `sorted` is modelled as
  repeated choice of the least element.
- The other modules of the package do external calls, float arithmetic or UI work, and are
  not part of this model:
  - UI: `ui/app.py`;
  - external services: the embedding and answer services, the vector stores and their factory;
  - orchestration and configuration: the RAG engine, the configuration loader;
  - float arithmetic: the usage tracker.
