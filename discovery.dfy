/**
 * Finding the archives to test under the directory given on the command line.
 * The recursive directory walk itself is not modelled: its result is the
 * `listing`, every entry below the root with whether it is a regular file.
 */
module Discovery {

  import opened Text
  import opened Ordering

  /** What the root argument names. */
  datatype RootKind = Missing | RegularFile | Directory

  /** One entry met by the recursive walk: its full path and whether it is a regular file. */
  datatype Entry = Entry(path: string, isFile: bool)

  /** The PHP checkers' filter: `isFile() && strtolower(getExtension()) === 'phar'`. */
  predicate IsPharFile(e: Entry) {
    e.isFile && LowerStr(Extension(Basename(e.path))) == "phar"
  }

  /** The paths of the entries `keep` accepts, in walk order. */
  function Collect(listing: seq<Entry>, keep: Entry -> bool): (paths: seq<string>)
    ensures |paths| <= |listing|
  {
    if listing == [] then []
    else
      var last := listing[|listing| - 1];
      Collect(listing[..|listing| - 1], keep) + (if keep(last) then [last.path] else [])
  }

  /** A path is collected exactly when some entry with that path is accepted. */
  lemma {:induction false} CollectMembers(listing: seq<Entry>, keep: Entry -> bool, p: string)
    ensures p in Collect(listing, keep) <==>
      exists i :: 0 <= i < |listing| && keep(listing[i]) && listing[i].path == p
    decreases |listing|
  {
    if listing != [] {
      var front := listing[..|listing| - 1];
      CollectMembers(front, keep, p);
      assert forall i :: 0 <= i < |front| ==> front[i] == listing[i];
    }
  }

  lemma {:induction false} CollectAppend(a: seq<Entry>, b: seq<Entry>, keep: Entry -> bool)
    ensures Collect(a + b, keep) == Collect(a, keep) + Collect(b, keep)
    decreases |b|
  {
    if b == [] {
      assert a + b == a;
    } else {
      var front := b[..|b| - 1];
      assert (a + b)[..|a + b| - 1] == a + front;
      CollectAppend(a, front, keep);
    }
  }

  /** Removing the same element from both sides keeps two sequences permutations of each other. */
  lemma RemoveFromBoth(front: seq<Entry>, e: Entry, b1: seq<Entry>, b2: seq<Entry>)
    requires multiset(front + [e]) == multiset(b1 + [e] + b2)
    ensures multiset(front) == multiset(b1 + b2)
  {
    calc {
      multiset(front);
      multiset(front + [e]) - multiset{e};
      multiset(b1 + [e] + b2) - multiset{e};
      multiset(b1) + multiset(b2);
    }
  }

  /** The walk order does not matter: the same entries give the same paths, counted alike. */
  lemma {:induction false} CollectPermutation(a: seq<Entry>, b: seq<Entry>, keep: Entry -> bool)
    requires multiset(a) == multiset(b)
    ensures multiset(Collect(a, keep)) == multiset(Collect(b, keep))
    decreases |a|
  {
    if a != [] {
      var e := a[|a| - 1];
      var front := a[..|a| - 1];
      assert a == front + [e];
      var b1, b2 := SplitAround(b, e);
      RemoveFromBoth(front, e, b1, b2);
      CollectPermutation(front, b1 + b2, keep);
      CollectAppend(b1, b2, keep);
      CollectAround(b1, e, b2, keep);
      var mid := if keep(e) then [e.path] else [];
      assert Collect(a, keep) == Collect(front, keep) + mid;
      MultisetInsertMiddle(Collect(front, keep), mid, Collect(b1, keep), Collect(b2, keep));
    }
  }

  /** An element of `b` splits it into what comes before and after one of its occurrences. */
  lemma SplitAround(b: seq<Entry>, e: Entry) returns (b1: seq<Entry>, b2: seq<Entry>)
    requires e in multiset(b)
    ensures b == b1 + [e] + b2
  {
    var j :| 0 <= j < |b| && b[j] == e;
    b1, b2 := b[..j], b[j + 1..];
  }

  lemma MultisetInsertMiddle(x: seq<string>, m: seq<string>, y1: seq<string>, y2: seq<string>)
    requires multiset(x) == multiset(y1 + y2)
    ensures multiset(x + m) == multiset(y1 + m + y2)
  {
  }

  lemma CollectAround(b1: seq<Entry>, e: Entry, b2: seq<Entry>, keep: Entry -> bool)
    ensures Collect(b1 + [e] + b2, keep)
         == Collect(b1, keep) + (if keep(e) then [e.path] else []) + Collect(b2, keep)
  {
    CollectAppend(b1 + [e], b2, keep);
    CollectAppend(b1, [e], keep);
    assert Collect([e], keep) == (if keep(e) then [e.path] else []) by {
      assert [e][..0] == [];
    }
  }

  /** The paths the PHP walk appends to `$pharFiles`, in walk order. */
  function PharPaths(listing: seq<Entry>): seq<string> {
    Collect(listing, IsPharFile)
  }

  /** `findPharFiles`' result: the collected paths in ascending order. */
  function Discovered(listing: seq<Entry>): (files: seq<string>)
    ensures Sorted(files)
    ensures multiset(files) == multiset(PharPaths(listing))
  {
    Sort(PharPaths(listing))
  }

  /** An archive is discovered exactly when the walk met it as a `.phar` regular file. */
  lemma DiscoveredMembers(listing: seq<Entry>, p: string)
    ensures p in Discovered(listing) <==>
      exists i :: 0 <= i < |listing| && IsPharFile(listing[i]) && listing[i].path == p
  {
    var files := Discovered(listing);
    assert p in files <==> p in multiset(files);
    assert p in PharPaths(listing) <==> p in multiset(PharPaths(listing));
    CollectMembers(listing, IsPharFile, p);
  }

  /** The walk, the filter and the in-place sort of phar_checker_auto.php. */
  method FindPharFiles(listing: seq<Entry>) returns (pharFiles: seq<string>)
    ensures pharFiles == Discovered(listing)
  {
    pharFiles := [];
    for i := 0 to |listing|
      invariant pharFiles == Collect(listing[..i], IsPharFile)
    {
      var file := listing[i];
      assert listing[..i + 1][..i] == listing[..i];
      if file.isFile && LowerStr(Extension(Basename(file.path))) == "phar" {
        pharFiles := pharFiles + [file.path];
      }
    }
    assert listing[..|listing|] == listing;
    pharFiles := Sort(pharFiles);
  }

  /** Discovery is a function of which entries exist, not of the order the walk meets them. */
  lemma DiscoveryIgnoresWalkOrder(a: seq<Entry>, b: seq<Entry>)
    requires multiset(a) == multiset(b)
    ensures Discovered(a) == Discovered(b)
  {
    CollectPermutation(a, b, IsPharFile);
    SortIgnoresOrder(PharPaths(a), PharPaths(b));
  }

  /** The extension test is a case-insensitive ".phar" suffix test on the name. */
  lemma PharExtensionIsSuffix(name: string)
    ensures LowerStr(Extension(name)) == "phar" <==>
            |name| >= 5 && LowerStr(name[|name| - 5..]) == ".phar"
  {
    if LowerStr(Extension(name)) == "phar" {
      SuffixFromExtension(name);
    }
    if |name| >= 5 && LowerStr(name[|name| - 5..]) == ".phar" {
      ExtensionFromSuffix(name);
    }
  }

  lemma SuffixFromExtension(name: string)
    requires LowerStr(Extension(name)) == "phar"
    ensures |name| >= 5 && LowerStr(name[|name| - 5..]) == ".phar"
  {
    var ext := Extension(name);
    AfterLastDotIsSuffix(name);
    assert |ext| == 4;
    var t := name[|name| - 5..];
    assert t == ['.'] + ext;
    forall i | 0 <= i < 5
      ensures LowerStr(t)[i] == ".phar"[i]
    {
      if i > 0 { assert t[i] == ext[i - 1]; }
    }
  }

  lemma ExtensionFromSuffix(name: string)
    requires |name| >= 5 && LowerStr(name[|name| - 5..]) == ".phar"
    ensures LowerStr(Extension(name)) == "phar"
  {
    var t := name[|name| - 5..];
    assert Lower(t[0]) == '.';
    forall j | |name| - 5 < j < |name|
      ensures name[j] != '.'
    {
      assert Lower(t[j - (|name| - 5)]) == ".phar"[j - (|name| - 5)];
    }
    AfterLastDotAt(name, |name| - 5);
    var ext := Extension(name);
    assert ext == t[1..];
    forall i | 0 <= i < 4
      ensures LowerStr(ext)[i] == "phar"[i]
    {
      assert ext[i] == t[i + 1];
    }
  }

  // Python's glob("**/*.phar"): the name ends in ".phar", case-sensitively, file or not.
  predicate MatchesGlob(e: Entry) {
    var name := Basename(e.path);
    |name| >= 5 && name[|name| - 5..] == ".phar"
  }

  /** The paths the glob yields, in walk order. */
  function GlobPaths(listing: seq<Entry>): seq<string> {
    Collect(listing, MatchesGlob)
  }

  /** Every regular file the glob yields is one the PHP walk collects as well. */
  lemma GlobFilesArePharPaths(listing: seq<Entry>, p: string)
    requires forall i :: 0 <= i < |listing| ==> listing[i].isFile
    requires p in GlobPaths(listing)
    ensures p in PharPaths(listing)
  {
    CollectMembers(listing, MatchesGlob, p);
    var i :| 0 <= i < |listing| && MatchesGlob(listing[i]) && listing[i].path == p;
    GlobFileIsPharFile(listing[i]);
    CollectMembers(listing, IsPharFile, p);
  }

  /** A regular file the Python glob matches is one the PHP filter keeps. */
  lemma GlobFileIsPharFile(e: Entry)
    requires MatchesGlob(e) && e.isFile
    ensures IsPharFile(e)
  {
    var name := Basename(e.path);
    assert LowerStr(name[|name| - 5..]) == ".phar";
    PharExtensionIsSuffix(name);
  }

  /** The converse fails: the glob is case-sensitive where the PHP filter lower-cases... */
  lemma UpperCaseExtensionOnlyInPhp()
    ensures IsPharFile(Entry("X.PHAR", true)) && !MatchesGlob(Entry("X.PHAR", true))
  {
    BasenameWithoutSlash("X.PHAR");
    UpperCaseIsPharFile();
    assert "X.PHAR"[1..] != ".phar" by {
      assert "X.PHAR"[1..][1] == 'P';
    }
  }

  lemma UpperCaseIsPharFile()
    ensures IsPharFile(Entry("X.PHAR", true))
  {
    BasenameWithoutSlash("X.PHAR");
    UpperCaseSuffixLowers();
    PharExtensionIsSuffix("X.PHAR");
  }

  lemma UpperCaseSuffixLowers()
    ensures LowerStr("X.PHAR"[1..]) == ".phar"
  {
    var low := LowerStr("X.PHAR"[1..]);
    assert low[0] == '.' && low[1] == 'p' && low[2] == 'h' && low[3] == 'a' && low[4] == 'r';
  }

  /** ...and it yields directories, where PHP asks `isFile()`. */
  lemma DirectoryOnlyInGlob()
    ensures MatchesGlob(Entry("d.phar", false)) && !IsPharFile(Entry("d.phar", false))
  {
    BasenameWithoutSlash("d.phar");
    assert "d.phar"[1..] == ".phar";
  }
}
