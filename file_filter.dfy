/**
 * `FileFilter` of `ingestion/file_filter.py`: which repository entries are ingested. The
 * rules are read once from the configuration; a file is taken when it is a file, has an
 * included extension or exact name, lies under no excluded pattern and is within the size
 * limit.
 */
module FileFilter {
  import opened Wrappers
  import opened Text
  import opened RepoContent

  /** The filtering rules. */
  datatype Filter = Filter(
    includeExtensions: seq<string>,
    includeExactNames: seq<string>,
    excludePatterns: seq<string>,
    maxFileSizeMb: int)

  const DefaultMaxFileSizeMb := 1

  /** `FileFilter()`: each rule taken from the configuration when present, otherwise the
      default (no extensions, no names, no patterns, 1 MB). */
  function NewFilter(extensions: Option<seq<string>>, exactNames: Option<seq<string>>,
                     patterns: Option<seq<string>>, maxMb: Option<int>): (f: Filter)
    ensures f.includeExtensions == (if extensions.Some? then extensions.value else [])
    ensures f.includeExactNames == (if exactNames.Some? then exactNames.value else [])
    ensures f.excludePatterns == (if patterns.Some? then patterns.value else [])
    ensures f.maxFileSizeMb == (if maxMb.Some? then maxMb.value else DefaultMaxFileSizeMb)
  {
    Filter(
      match extensions case Some(e) => e case None => [],
      match exactNames case Some(n) => n case None => [],
      match patterns case Some(p) => p case None => [],
      match maxMb case Some(m) => m case None => DefaultMaxFileSizeMb)
  }

  /** `max_file_size_bytes`. */
  function MaxFileSizeBytes(f: Filter): int {
    f.maxFileSizeMb * 1024 * 1024
  }

  /** `is_valid_extension(filename)`: the name ends with one of the included extensions. */
  predicate IsValidExtension(f: Filter, filename: string) {
    exists k :: 0 <= k < |f.includeExtensions| && EndsWith(filename, f.includeExtensions[k])
  }

  /** `is_exact_name_match(filename)`. */
  predicate IsExactNameMatch(f: Filter, filename: string) {
    filename in f.includeExactNames
  }

  /** `is_excluded_path(file_path)`: one of the patterns occurs in the path. */
  predicate IsExcludedPath(f: Filter, path: string) {
    exists k :: 0 <= k < |f.excludePatterns| && Contains(path, f.excludePatterns[k])
  }

  /** `is_within_size_limit(content_file)`. */
  predicate IsWithinSizeLimit(f: Filter, file: ContentFile) {
    file.size <= MaxFileSizeBytes(f)
  }

  /** `should_include(content_file)`: the checks in the order the source runs them. */
  predicate ShouldInclude(f: Filter, file: ContentFile) {
    if file.fileType != "file" then false
    else if !IsValidExtension(f, file.name) && !IsExactNameMatch(f, file.name) then false
    else if IsExcludedPath(f, file.path) then false
    else if !IsWithinSizeLimit(f, file) then false
    else true
  }

  /** A file is included exactly when all four checks pass. */
  lemma ShouldIncludeIffAll(f: Filter, file: ContentFile)
    ensures ShouldInclude(f, file) <==>
      && file.fileType == "file"
      && (IsValidExtension(f, file.name) || IsExactNameMatch(f, file.name))
      && !IsExcludedPath(f, file.path)
      && file.size <= f.maxFileSizeMb * 1024 * 1024
  {
  }

  /** Directories, symlinks and submodules are never included. */
  lemma OnlyFiles(f: Filter, file: ContentFile)
    requires file.fileType != "file"
    ensures !ShouldInclude(f, file)
  {
  }

  /** With both include lists empty nothing is included. */
  lemma EmptyIncludesNothing(f: Filter, file: ContentFile)
    requires f.includeExtensions == [] && f.includeExactNames == []
    ensures !ShouldInclude(f, file)
  {
  }

  /** The size limit is inclusive: a file of exactly the limit passes, one byte more fails. */
  lemma SizeLimitInclusive(f: Filter, file: ContentFile)
    ensures file.size == f.maxFileSizeMb * 1048576 ==> IsWithinSizeLimit(f, file)
    ensures file.size == f.maxFileSizeMb * 1048576 + 1 ==> !IsWithinSizeLimit(f, file)
  {
  }

  /** The default limit is 1 MB = 1048576 bytes. */
  lemma DefaultLimit(f: Filter)
    requires f == NewFilter(None, None, None, None)
    ensures MaxFileSizeBytes(f) == 1048576
  {
  }

  /** An empty exclude pattern occurs in every path, so it excludes everything. */
  lemma EmptyPatternExcludesAll(f: Filter, file: ContentFile)
    requires "" in f.excludePatterns
    ensures !ShouldInclude(f, file)
  {
    var k :| 0 <= k < |f.excludePatterns| && f.excludePatterns[k] == "";
    assert OccursAt(file.path, "", 0);
  }

  /** An empty extension ends every name, so it admits every name. */
  lemma EmptyExtensionAdmitsAll(f: Filter, name: string)
    requires "" in f.includeExtensions
    ensures IsValidExtension(f, name)
  {
    var k :| 0 <= k < |f.includeExtensions| && f.includeExtensions[k] == "";
    assert EndsWith(name, f.includeExtensions[k]);
  }

  /** More include rules, fewer exclude patterns and a larger limit never include fewer files. */
  lemma ShouldIncludeMonotone(f: Filter, g: Filter, file: ContentFile)
    requires forall e :: e in f.includeExtensions ==> e in g.includeExtensions
    requires forall n :: n in f.includeExactNames ==> n in g.includeExactNames
    requires forall p :: p in g.excludePatterns ==> p in f.excludePatterns
    requires f.maxFileSizeMb <= g.maxFileSizeMb
    ensures ShouldInclude(f, file) ==> ShouldInclude(g, file)
  {
    if ShouldInclude(f, file) {
      if IsValidExtension(f, file.name) {
        var k :| 0 <= k < |f.includeExtensions| && EndsWith(file.name, f.includeExtensions[k]);
        var e := f.includeExtensions[k];
        assert e in g.includeExtensions;
        var j :| 0 <= j < |g.includeExtensions| && g.includeExtensions[j] == e;
      }
      forall k | 0 <= k < |g.excludePatterns|
        ensures !Contains(file.path, g.excludePatterns[k])
      {
        assert g.excludePatterns[k] in f.excludePatterns;
      }
      assert f.maxFileSizeMb * 1048576 <= g.maxFileSizeMb * 1048576;
    }
  }
}
