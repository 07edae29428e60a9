/**
 * The grouping inside `scan_folder_structure` of `utils/folder_utils.py`: the files met
 * while walking the repository, counted per folder with the extensions seen there, then
 * listed in folder order with sorted extensions.
 */
module FolderUtils {
  import opened Text
  import opened Sequences

  /** A file met by the walk: its repository path and its name. */
  datatype Item = Item(path: string, name: string)

  /** The `folders` entry while the walk runs: `{'count': ..., 'extensions': set()}`. */
  datatype Info = Info(count: nat, extensions: set<string>)

  /** The entry once its extensions are sorted. */
  datatype Summary = Summary(count: nat, extensions: seq<string>)

  /** The path without its last `/` component, or `.` for a path without `/`. */
  function FolderOf(path: string): string {
    if '/' in path then Join("/", LeadingPieces(path, '/')) else "."
  }

  /** The text after the last `sep`: `s.split(sep)[-1]`. */
  function FinalPiece(s: string, sep: char): string {
    var parts := Split(s, sep);
    parts[|parts| - 1]
  }

  /** The pieces before the last `sep`: `s.split(sep)[:-1]`. */
  function LeadingPieces(s: string, sep: char): seq<string> {
    var parts := Split(s, sep);
    parts[..|parts| - 1]
  }

  /** `.` and the text after the last `.` of the name, or `.no-ext`. */
  function ExtensionOf(name: string): string {
    if '.' in name then "." + FinalPiece(name, '.') else ".no-ext"
  }

  /** `folders` after the walk has met `files`, in that order. */
  function Tally(files: seq<Item>): map<string, Info>
    decreases |files|
  {
    if files == [] then map[] else Met(Tally(files[..|files| - 1]), files[|files| - 1])
  }

  /** One more file met: its folder's count goes up by one and gains its extension. */
  function Met(t: map<string, Info>, f: Item): map<string, Info> {
    var folder := FolderOf(f.path);
    var before := if folder in t then t[folder] else Info(0, {});
    t[folder := Info(before.count + 1, before.extensions + {ExtensionOf(f.name)})]
  }

  /** The files of one folder. */
  function InFolder(k: string): Item -> bool {
    (f: Item) => FolderOf(f.path) == k
  }

  /** Strictly ascending in Python's string order, hence without duplicates. */
  predicate StrictlySorted(s: seq<string>) {
    forall i, j :: 0 <= i < j < |s| ==> Less(s[i], s[j])
  }

  /** The folder names of the result, in order. */
  function KeysOf(r: seq<(string, Summary)>): (ks: seq<string>)
    ensures |ks| == |r| && forall j :: 0 <= j < |r| ==> ks[j] == r[j].0
  {
    seq(|r|, j requires 0 <= j < |r| => r[j].0)
  }

  /** `r` is `dict(sorted(folders.items()))` for the tally `t`, each entry's extensions
      sorted. */
  predicate Describes(r: seq<(string, Summary)>, t: map<string, Info>) {
    && StrictlySorted(KeysOf(r))
    && (forall k :: k in t ==> k in KeysOf(r))
    && (forall k :: k in KeysOf(r) ==> k in t)
    && forall j :: 0 <= j < |r| ==> r[j].0 in t && Sums(r[j].1, t[r[j].0])
  }

  /** The sorted entry has the count and, in ascending order, the extensions of the set. */
  predicate Sums(s: Summary, info: Info) {
    && s.count == info.count
    && StrictlySorted(s.extensions)
    && (forall e :: e in s.extensions ==> e in info.extensions)
    && (forall e :: e in info.extensions ==> e in s.extensions)
  }

  /** A non-empty set of strings has a least element. */
  lemma {:induction false} MinExists(s: set<string>) returns (m: string)
    requires s != {}
    ensures m in s && forall y :: y in s && y != m ==> Less(m, y)
    decreases |s|
  {
    var x :| x in s;
    if s == {x} {
      m := x;
    } else {
      var m' := MinExists(s - {x});
      LessTotal(x, m');
      if Less(x, m') {
        m := x;
        forall y | y in s && y != m
          ensures Less(m, y)
        {
          if y != m' {
            LessTransitive(x, m', y);
          }
        }
      } else {
        m := m';
      }
    }
  }

  /** `sorted(s)` for a set of strings. */
  method SortedList(s: set<string>) returns (r: seq<string>)
    ensures StrictlySorted(r)
    ensures forall x :: x in r <==> x in s
  {
    var rest := s;
    r := [];
    while rest != {}
      invariant rest <= s
      invariant forall x :: x in r <==> x in s && x !in rest
      invariant StrictlySorted(r)
      invariant forall i, y :: 0 <= i < |r| && y in rest ==> Less(r[i], y)
      decreases |rest|
    {
      ghost var least := MinExists(rest);
      var m :| m in rest && forall y :: y in rest && y != m ==> Less(m, y);
      r := r + [m];
      rest := rest - {m};
    }
  }

  /** The grouping of `scan_folder_structure` over the files the walk met. */
  method ScanFolderStructure(files: seq<Item>) returns (r: seq<(string, Summary)>)
    ensures Describes(r, Tally(files))
  {
    var folders := TallyFolders(files);
    r := SummarizeFolders(folders);
  }

  /** The walk's loop: `folders[folder]` counts each file and collects its extension. */
  method TallyFolders(files: seq<Item>) returns (folders: map<string, Info>)
    ensures folders == Tally(files)
  {
    folders := map[];
    for i := 0 to |files|
      invariant folders == Tally(files[..i])
    {
      TallyPrefix(files, i);
      folders := AddFile(folders, files[i]);
    }
    assert files[..|files|] == files;
  }

  /** One iteration of the walk's loop. */
  method AddFile(folders: map<string, Info>, item: Item) returns (r: map<string, Info>)
    ensures r == Met(folders, item)
  {
    var folder := FolderOf(item.path);
    var extension := ExtensionOf(item.name);
    r := folders;
    if folder !in r {
      r := r[folder := Info(0, {})];
    }
    r := r[folder := Info(r[folder].count + 1, r[folder].extensions + {extension})];
  }

  lemma TallyPrefix(files: seq<Item>, i: nat)
    requires i < |files|
    ensures Tally(files[..i + 1]) == Met(Tally(files[..i]), files[i])
  {
    assert files[..i + 1][..i] == files[..i];
  }

  /** The final loop: the folders in sorted order, each with its sorted extensions. */
  method SummarizeFolders(folders: map<string, Info>) returns (r: seq<(string, Summary)>)
    ensures Describes(r, folders)
  {
    var keys := SortedList(folders.Keys);
    r := [];
    for j := 0 to |keys|
      invariant |r| == j && forall i :: 0 <= i < j ==> r[i].0 == keys[i]
      invariant forall i :: 0 <= i < j ==> Sums(r[i].1, folders[keys[i]])
    {
      var extensions := SortedList(folders[keys[j]].extensions);
      r := r + [(keys[j], Summary(folders[keys[j]].count, extensions))];
    }
    assert KeysOf(r) == keys;
  }

  /** A folder is listed exactly when some file lies in it. */
  lemma {:induction false} TallyKeys(files: seq<Item>, k: string)
    ensures k in Tally(files) <==> SomeIn(files, k)
    decreases |files|
  {
    if files != [] {
      var n := |files| - 1;
      TallyKeys(files[..n], k);
      TallyKeysStep(files, k);
      SomeInSnoc(files, k);
    }
  }

  /** The last file adds its folder to the tally and changes no other key. */
  lemma TallyKeysStep(files: seq<Item>, k: string)
    requires files != []
    ensures k in Tally(files) <==> k in Tally(files[..|files| - 1]) || FolderOf(files[|files| - 1].path) == k
  {
  }

  /** Some file lies in folder `k`. */
  predicate SomeIn(files: seq<Item>, k: string) {
    exists i :: 0 <= i < |files| && FolderOf(files[i].path) == k
  }

  lemma SomeInSnoc(files: seq<Item>, k: string)
    requires files != []
    ensures SomeIn(files, k) <==>
      SomeIn(files[..|files| - 1], k) || FolderOf(files[|files| - 1].path) == k
  {
    var n := |files| - 1;
    if SomeIn(files, k) {
      var i :| 0 <= i < |files| && FolderOf(files[i].path) == k;
      if i < n {
        assert files[..n][i] == files[i];
      }
    }
    if SomeIn(files[..n], k) {
      var i :| 0 <= i < n && FolderOf(files[..n][i].path) == k;
      assert files[..n][i] == files[i];
    }
  }

  /** A folder's count is the number of files in it. */
  lemma {:induction false} TallyCount(files: seq<Item>, k: string)
    requires k in Tally(files)
    ensures Tally(files)[k].count == CountOf(files, InFolder(k))
    decreases |files|
  {
    var n := |files| - 1;
    var f := files[n];
    if k in Tally(files[..n]) {
      TallyCount(files[..n], k);
    } else {
      AbsentCount(files[..n], k);
    }
  }

  /** A folder absent from the tally holds no file. */
  lemma {:induction false} AbsentCount(files: seq<Item>, k: string)
    requires k !in Tally(files)
    ensures CountOf(files, InFolder(k)) == 0
    decreases |files|
  {
    if files != [] {
      AbsentCount(files[..|files| - 1], k);
    }
  }

  /** Every listed folder holds at least one file. */
  lemma {:induction false} TallyPositive(files: seq<Item>, k: string)
    requires k in Tally(files)
    ensures Tally(files)[k].count >= 1
    decreases |files|
  {
    var n := |files| - 1;
    if k in Tally(files[..n]) {
      TallyPositive(files[..n], k);
    }
  }

  /** A folder's extensions are those of the files in it. */
  lemma {:induction false} TallyExtensions(files: seq<Item>, k: string, e: string)
    requires k in Tally(files)
    ensures e in Tally(files)[k].extensions <==>
      exists i :: 0 <= i < |files| && FolderOf(files[i].path) == k && ExtensionOf(files[i].name) == e
    decreases |files|
  {
    var n := |files| - 1;
    forall i | 0 <= i < n
      ensures files[..n][i] == files[i]
    {
    }
    if k in Tally(files[..n]) {
      TallyExtensions(files[..n], k, e);
    } else {
      TallyKeys(files[..n], k);
    }
  }

  /** Sum of the counts in the result. */
  function TotalCount(r: seq<(string, Summary)>): nat {
    if r == [] then 0 else r[0].1.count + TotalCount(r[1..])
  }

  /** The number of files in the folders `ks`. */
  function CountIn(files: seq<Item>, ks: seq<string>): nat {
    if ks == [] then 0 else CountOf(files, InFolder(ks[0])) + CountIn(files, ks[1..])
  }

  /** How often `k` occurs in `ks`. */
  function Occurrences(ks: seq<string>, k: string): nat {
    if ks == [] then 0 else (if ks[0] == k then 1 else 0) + Occurrences(ks[1..], k)
  }

  lemma {:induction false} CountInSnoc(files: seq<Item>, f: Item, ks: seq<string>)
    ensures CountIn(files + [f], ks) == CountIn(files, ks) + Occurrences(ks, FolderOf(f.path))
  {
    if ks != [] {
      CountInSnoc(files, f, ks[1..]);
      assert (files + [f])[..|files|] == files;
    }
  }

  /** Distinct folder names hold each name at most once. */
  predicate Distinct(ks: seq<string>) {
    forall i, j :: 0 <= i < j < |ks| ==> ks[i] != ks[j]
  }

  lemma {:induction false} OccursOnce(ks: seq<string>, k: string)
    requires Distinct(ks) && k in ks
    ensures Occurrences(ks, k) == 1
  {
    if ks[0] == k {
      OccursNot(ks[1..], k);
    } else {
      OccursOnce(ks[1..], k);
    }
  }

  lemma {:induction false} OccursNot(ks: seq<string>, k: string)
    requires k !in ks
    ensures Occurrences(ks, k) == 0
  {
    if ks != [] {
      OccursNot(ks[1..], k);
    }
  }

  /** Counting per folder over distinct folders that cover every file counts every file once. */
  lemma {:induction false} CountInAll(files: seq<Item>, ks: seq<string>)
    requires Distinct(ks)
    requires forall i :: 0 <= i < |files| ==> FolderOf(files[i].path) in ks
    ensures CountIn(files, ks) == |files|
    decreases |files|
  {
    if files == [] {
      CountInEmpty(ks);
    } else {
      var n := |files| - 1;
      assert files == files[..n] + [files[n]];
      assert forall i :: 0 <= i < n ==> files[..n][i] == files[i];
      CountInAll(files[..n], ks);
      CountInSnoc(files[..n], files[n], ks);
      OccursOnce(ks, FolderOf(files[n].path));
    }
  }

  lemma {:induction false} CountInEmpty(ks: seq<string>)
    ensures CountIn([], ks) == 0
  {
    if ks != [] {
      CountInEmpty(ks[1..]);
    }
  }

  lemma {:induction false} TotalIsCountIn(files: seq<Item>, r: seq<(string, Summary)>)
    requires forall j :: 0 <= j < |r| ==> r[j].1.count == CountOf(files, InFolder(r[j].0))
    ensures TotalCount(r) == CountIn(files, KeysOf(r))
  {
    if r != [] {
      assert KeysOf(r)[1..] == KeysOf(r[1..]);
      TotalIsCountIn(files, r[1..]);
    }
  }

  lemma CountsMatch(files: seq<Item>, r: seq<(string, Summary)>)
    requires Describes(r, Tally(files))
    ensures forall j :: 0 <= j < |r| ==> r[j].1.count == CountOf(files, InFolder(r[j].0))
  {
    forall j | 0 <= j < |r|
      ensures r[j].1.count == CountOf(files, InFolder(r[j].0))
    {
      var k := r[j].0;
      TallyCount(files, k);
    }
  }

  /** The counts of the result add up to the number of files met. */
  lemma CountsAddUp(files: seq<Item>, r: seq<(string, Summary)>)
    requires Describes(r, Tally(files))
    ensures TotalCount(r) == |files|
  {
    CountsMatch(files, r);
    TotalIsCountIn(files, r);
    var ks := KeysOf(r);
    forall i, j | 0 <= i < j < |ks|
      ensures ks[i] != ks[j]
    {
      LessIrreflexive(ks[i]);
    }
    forall i | 0 <= i < |files|
      ensures FolderOf(files[i].path) in ks
    {
      TallyKeys(files, FolderOf(files[i].path));
    }
    CountInAll(files, ks);
  }

  /** A string holding the separator is the join of the pieces before its last
      separator, that separator and the final piece, which holds no separator. */
  lemma SplitLast(s: string, sep: char)
    requires sep in s
    ensures Join([sep], LeadingPieces(s, sep)) + [sep] + FinalPiece(s, sep) == s
    ensures sep !in FinalPiece(s, sep)
  {
    var parts := Split(s, sep);
    var n := |parts|;
    JoinSplit(s, sep);
    SplitSeveral(s, sep);
    assert parts[..n - 1] + [parts[n - 1]] == parts;
    JoinAppend([sep], parts[..n - 1], parts[n - 1]);
  }

  /** The folder is the path without its last component: it and `/` and that component
      rebuild the path, and the component holds no `/`. */
  lemma FolderAndName(path: string)
    requires '/' in path
    ensures FolderOf(path) + "/" + FinalPiece(path, '/') == path && '/' !in FinalPiece(path, '/')
  {
    SplitLast(path, '/');
  }

  /** The extension label ends the name (after its `.`) and holds no other `.`. */
  lemma ExtensionIsSuffix(name: string)
    requires '.' in name
    ensures EndsWith(name, ExtensionOf(name)) && '.' !in ExtensionOf(name)[1..]
  {
    SplitLast(name, '.');
    DotSuffix(Join(".", LeadingPieces(name, '.')), FinalPiece(name, '.'));
  }

  lemma DotSuffix(a: string, last: string)
    requires '.' !in last
    ensures EndsWith(a + "." + last, "." + last) && '.' !in ("." + last)[1..]
  {
    assert (a + "." + last)[|a|..] == "." + last;
    assert ("." + last)[1..] == last;
  }
}
