/**
 * `GitHubClient.parse_repo_url` of `ingestion/github_client.py`: the owner and the
 * repository name read off a repository URL.
 */
module GitHubClient {
  import opened Wrappers
  import opened Text

  /** Python's `s.rstrip(c)` for one character. */
  function RStripChar(s: string, c: char): (r: string)
    ensures |r| <= |s| && r == s[..|r|]
    ensures r == [] || r[|r| - 1] != c
    ensures forall i :: |r| <= i < |s| ==> s[i] == c
  {
    if |s| > 0 && s[|s| - 1] == c then RStripChar(s[..|s| - 1], c) else s
  }

  const Host := "github.com/"

  /** The URL with trailing slashes and every `.git` removed. */
  function Cleaned(url: string): string {
    RemoveAll(RStripChar(url, '/'), ".git")
  }

  /** The text after the last `github.com/`, or the whole cleaned URL when it is absent. */
  function Path(url: string): string {
    LastPiece(Cleaned(url), Host)
  }

  /** `parse_repo_url(repo_url)`: `(owner, repo_name)`, or the `ValueError` raised when the
      path has fewer than two `/`-separated segments. */
  function ParseRepoUrl(url: string): Result<(string, string)> {
    var parts := Split(Path(url), '/');
    if |parts| < 2 then Failure(ValueError("Invalid GitHub URL: " + Cleaned(url)))
    else Success((parts[0], parts[1]))
  }

  /** The URL is rejected exactly when its path holds no `/`; otherwise the owner and the
      repository are the first two segments of the path: neither holds a `/`, and the path
      is `owner/repo` or starts with `owner/repo/`. */
  lemma ParseRepoUrlMeans(url: string)
    ensures var r := ParseRepoUrl(url);
      && (r.Failure? <==> '/' !in Path(url))
      && (r.Failure? ==> r.error == ValueError("Invalid GitHub URL: " + Cleaned(url)))
      && (r.Success? ==>
            var (owner, repo) := r.value;
            && '/' !in owner && '/' !in repo
            && (Path(url) == owner + "/" + repo || StartsWith(Path(url), owner + "/" + repo + "/")))
  {
    var p := Path(url);
    SplitSeveral(p, '/');
    var parts := Split(p, '/');
    if |parts| >= 2 {
      JoinSplit(p, '/');
      FirstTwoSegments(parts);
    }
  }

  /** Joined by `/`, two or more segments are the first two, then possibly more after a `/`. */
  lemma FirstTwoSegments(parts: seq<string>)
    requires |parts| >= 2
    ensures var j := Join("/", parts);
      j == parts[0] + "/" + parts[1] || StartsWith(j, parts[0] + "/" + parts[1] + "/")
  {
    if |parts| == 2 {
      JoinPair("/", parts);
    } else {
      JoinMore("/", parts);
    }
  }

  /** Trailing slashes do not matter. */
  lemma TrailingSlash(url: string)
    ensures ParseRepoUrl(url + "/") == ParseRepoUrl(url)
  {
    assert (url + "/")[..|url|] == url;
  }

  /** Only the text after the last `github.com/` is used; without it, the whole cleaned URL. */
  lemma PathIsAfterHost(url: string)
    ensures !Contains(Cleaned(url), Host) ==> Path(url) == Cleaned(url)
    ensures Contains(Cleaned(url), Host) ==>
      exists j: nat :: OccursAt(Cleaned(url), Host, j) && Path(url) == Cleaned(url)[j + |Host|..]
    ensures !Contains(Path(url), Host)
  {
    if Contains(Cleaned(url), Host) {
      LastPieceAfter(Cleaned(url), Host);
    } else {
      LastPieceWhole(Cleaned(url), Host);
    }
    LastPieceFree(Cleaned(url), Host);
  }

  /** What a repository URL `https://github.com/{owner}/{repo}` needs to parse back to its
      names: neither name holds a `/` or a `.git`, the owner does not end in `github.com`,
      and the repository name is not empty. */
  predicate PlainNames(owner: string, repo: string) {
    && '/' !in owner && '/' !in repo && repo != []
    && !Contains(owner, ".git") && !Contains(repo, ".git")
    && !EndsWith(owner, "github.com")
  }

  /** A URL of the usual form `https://github.com/{owner}/{repo}`, with or without a trailing
      `/`, gives back the two names. */
  lemma StandardUrl(owner: string, repo: string)
    requires PlainNames(owner, repo)
    ensures ParseRepoUrl("https://" + Host + owner + "/" + repo) == Success((owner, repo))
    ensures ParseRepoUrl("https://" + Host + owner + "/" + repo + "/") == Success((owner, repo))
  {
    StandardParse(owner, repo);
    TrailingSlash("https://" + Host + owner + "/" + repo);
  }

  /** Names with other dots are kept whole. */
  lemma DottedName()
    ensures ParseRepoUrl("https://github.com/vercel/next.js") == Success(("vercel", "next.js"))
  {
    CharFree("next.js", ".git", 1);
    CharFree("vercel", ".git", 0);
    assert !EndsWith("vercel", "github.com");
    StandardUrl("vercel", "next.js");
    DottedUrl();
  }

  lemma DottedUrl()
    ensures "https://" + Host + "vercel" + "/" + "next.js" == "https://github.com/vercel/next.js"
  {
  }

  /** A pattern does not occur in a string that lacks one of its characters. */
  lemma CharFree(s: string, p: string, k: nat)
    requires k < |p| && p[k] !in s
    ensures !Contains(s, p)
  {
    forall i: nat | i <= |s|
      ensures !OccursAt(s, p, i)
    {
      if i + |p| <= |s| {
        assert s[i..i + |p|][k] == s[i + k];
      }
    }
  }

  /** The `.git` suffix of a clone URL is dropped: `https://github.com/{owner}/{repo}.git`
      gives the same names. */
  lemma CloneUrl(owner: string, repo: string)
    requires PlainNames(owner, repo)
    ensures ParseRepoUrl("https://" + Host + owner + "/" + repo + ".git") == Success((owner, repo))
  {
    var tail := owner + "/" + repo;
    var url := "https://" + Host + owner + "/" + repo;
    assert url == "https://" + Host + tail;
    NotAcrossSlash(owner, repo, ".git");
    StandardCleaned(tail);
    CloneCleaned(tail);
    StandardParse(owner, repo);
  }

  lemma StandardParse(owner: string, repo: string)
    requires PlainNames(owner, repo)
    ensures ParseRepoUrl("https://" + Host + owner + "/" + repo) == Success((owner, repo))
  {
    var tail := owner + "/" + repo;
    assert "https://" + Host + tail == "https://" + Host + owner + "/" + repo;
    NotAcrossSlash(owner, repo, ".git");
    StandardCleaned(tail);
    HostNotInTail(owner, repo);
    StandardPath(tail);
    SplitJoin([owner, repo], '/');
    assert Join("/", [owner, repo]) == tail;
  }

  /** A pattern without `/` occurs in `a/b` only inside `a` or inside `b`. */
  lemma NotAcrossSlash(a: string, b: string, p: string)
    requires '/' !in p && !Contains(a, p) && !Contains(b, p)
    ensures !Contains(a + "/" + b, p)
  {
    var s := a + "/" + b;
    forall i: nat | i <= |s|
      ensures !OccursAt(s, p, i)
    {
      if i + |p| <= |a| {
        assert s[i..i + |p|] == a[i..i + |p|];
        assert !OccursAt(a, p, i);
      } else if i > |a| {
        var j: nat := i - |a| - 1;
        if i + |p| <= |s| {
          assert s[i..i + |p|] == b[j..j + |p|];
        }
        assert !OccursAt(b, p, j);
      } else if i + |p| <= |s| {
        assert s[i..i + |p|][|a| - i] == s[|a|] == '/';
      }
    }
  }

  lemma StandardCleaned(tail: string)
    requires !Contains(tail, ".git") && tail != [] && tail[|tail| - 1] != '/'
    ensures Cleaned("https://" + Host + tail) == "https://" + Host + tail
  {
    var url := "https://" + Host + tail;
    assert RStripChar(url, '/') == url;
    HostKept(tail);
    RemoveAllAbsent(tail, ".git");
  }

  /** Cleaning `https://github.com/{tail}.git` removes the `.git` suffix and nothing else. */
  lemma CloneCleaned(tail: string)
    requires !Contains(tail, ".git")
    ensures Cleaned("https://" + Host + tail + ".git") == "https://" + Host + tail
  {
    var url := "https://" + Host + (tail + ".git");
    assert url == "https://" + Host + tail + ".git";
    assert RStripChar(url, '/') == url;
    HostKept(tail + ".git");
    GitSuffixRemoved(tail);
  }

  /** Removing `.git` leaves `https://github.com/` alone: its one `.` starts `.com/`. */
  lemma HostKept(tail: string)
    ensures RemoveAll("https://" + Host + tail, ".git") == "https://" + Host + RemoveAll(tail, ".git")
  {
    var b := ".com/" + tail;
    assert "https://" + Host == "https://github" + ".com/";
    assert "https://" + Host + tail == "https://github" + b;
    RemoveAllFreePrefix("https://github", b, ".git");
    DotComKept(tail);
    assert "https://github" + (".com/" + RemoveAll(tail, ".git")) == "https://" + Host + RemoveAll(tail, ".git");
  }

  /** The `.` of `.com/` does not start a `.git`. */
  lemma DotComKept(tail: string)
    ensures RemoveAll(".com/" + tail, ".git") == ".com/" + RemoveAll(tail, ".git")
  {
    var b := ".com/" + tail;
    assert b[1..] == "com/" + tail;
    assert !StartsWith(b, ".git") by {
      assert b[1] == 'c';
    }
    RemoveAllFreePrefix("com/", tail, ".git");
  }

  /** A clone URL's `.git` suffix is the only one removed. */
  lemma {:induction false} GitSuffixRemoved(url: string)
    requires !Contains(url, ".git")
    ensures RemoveAll(url + ".git", ".git") == url
    decreases |url|
  {
    var s := url + ".git";
    if url == [] {
      assert s == ".git" && s[4..] == [];
    } else {
      assert !StartsWith(s, ".git") by {
        if |url| >= 4 {
          assert s[..4] == url[0..4];
          assert !OccursAt(url, ".git", 0);
        } else {
          assert s[..4][|url|] == '.' != ".git"[|url|];
        }
      }
      assert s[1..] == url[1..] + ".git";
      forall i: nat
        ensures OccursAt(url[1..], ".git", i) == OccursAt(url, ".git", 1 + i)
      {
        OccursAtShift(url, ".git", 1, i);
      }
      GitSuffixRemoved(url[1..]);
      assert [url[0]] + url[1..] == url;
    }
  }

  lemma StandardPath(tail: string)
    requires !Contains(tail, Host)
    ensures LastPiece("https://" + Host + tail, Host) == tail
  {
    var url := "https://" + Host + tail;
    HostAtEight(tail);
    LastPieceStep(url, Host, 8);
    assert url[19..] == tail;
    LastPieceWhole(tail, Host);
  }

  /** The first `github.com/` of the URL starts right after `https://`. */
  lemma HostAtEight(tail: string)
    ensures Find("https://" + Host + tail, Host) == Some(8)
  {
    var url := "https://" + Host + tail;
    OccursAtEnd("https://", Host);
    OccursAtExtend("https://" + Host, Host, 8, tail);
    forall i: nat | i < 8
      ensures !OccursAt(url, Host, i)
    {
      assert url[i] == "https://"[i];
    }
  }

  /** A path `owner/repo` holds no `github.com/`: its only `/` follows an owner that does not
      end in `github.com`. */
  lemma HostNotInTail(owner: string, repo: string)
    requires '/' !in owner && '/' !in repo && !EndsWith(owner, "github.com")
    ensures !Contains(owner + "/" + repo, Host)
  {
    var tail := owner + "/" + repo;
    forall j: nat | j <= |tail|
      ensures !OccursAt(tail, Host, j)
    {
      if j + |Host| <= |tail| {
        var w := tail[j..j + |Host|];
        assert w[10] == tail[j + 10];
        if tail[j + 10] == '/' {
          OnlySlash(owner, repo, j + 10);
          assert w[..10] == owner[|owner| - 10..];
        }
      }
    }
  }

  /** The only `/` of `owner/repo` is the one between the names. */
  lemma OnlySlash(owner: string, repo: string, k: nat)
    requires '/' !in owner && '/' !in repo && k < |owner| + 1 + |repo| && (owner + "/" + repo)[k] == '/'
    ensures k == |owner|
  {
  }
}
