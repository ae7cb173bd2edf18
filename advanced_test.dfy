/**
 * phar_test_advanced.php: one archive, a selector, and a fixed sequence of
 * guarded tests. Each test calls one phar:// operation on the archive and
 * contains whatever it throws; the script never looks at /tmp/poc itself.
 */
module AdvancedTest {

  import opened Registry
  import opened Environment

  /** What test_method reports for one test: which one ran and whether it threw. */
  datatype TestReport = TestReport(test: Trigger, threw: bool)

  /** The selector: the second argument after the archive, `all` when there is none. */
  function Selector(args: seq<string>): (selector: string)
    ensures |args| >= 3 ==> selector == args[2]
    ensures |args| < 3 ==> selector == "all"
  {
    if |args| >= 3 then args[2] else "all"
  }

  /** The reports of running `ts` on `path` in order. */
  function Reports(path: string, ts: seq<Trigger>, oracle: Oracle): seq<TestReport>
    decreases |ts|
  {
    if ts == [] then []
    else Reports(path, ts[..|ts| - 1], oracle) + [TestReport(ts[|ts| - 1], oracle(path, ts[|ts| - 1]).throws)]
  }

  /** The calls made by running `ts` on `path` in order. */
  function Invocations(path: string, ts: seq<Trigger>): seq<Event>
    decreases |ts|
  {
    if ts == [] then [] else Invocations(path, ts[..|ts| - 1]) + [Invoked(path, ts[|ts| - 1])]
  }

  /** Whether one of the tests `ts` creates the marker. */
  predicate AnySets(path: string, ts: seq<Trigger>, oracle: Oracle)
    decreases |ts|
  {
    ts != [] && (AnySets(path, ts[..|ts| - 1], oracle) || oracle(path, ts[|ts| - 1]).setsMarker)
  }

  lemma Extend(path: string, done: seq<Trigger>, t: Trigger, oracle: Oracle)
    ensures Reports(path, done + [t], oracle) == Reports(path, done, oracle) + [TestReport(t, oracle(path, t).throws)]
    ensures Invocations(path, done + [t]) == Invocations(path, done) + [Invoked(path, t)]
    ensures AnySets(path, done + [t], oracle) == (AnySets(path, done, oracle) || oracle(path, t).setsMarker)
  {
    assert (done + [t])[..|done|] == done;
  }

  /**
   * Containment: every test is reported, in order, whatever the ones before it
   * threw; a test that throws is reported as having thrown.
   */
  lemma {:induction false} ReportsAt(path: string, ts: seq<Trigger>, oracle: Oracle)
    ensures |Reports(path, ts, oracle)| == |ts|
    ensures forall i :: 0 <= i < |ts| ==>
      Reports(path, ts, oracle)[i] == TestReport(ts[i], oracle(path, ts[i]).throws)
    decreases |ts|
  {
    if ts != [] {
      var front := ts[..|ts| - 1];
      ReportsAt(path, front, oracle);
      assert forall i :: 0 <= i < |front| ==> front[i] == ts[i];
    }
  }

  /** The marker ends up set exactly when one of the tests that ran sets it. */
  lemma {:induction false} AnySetsIff(path: string, ts: seq<Trigger>, oracle: Oracle)
    ensures AnySets(path, ts, oracle) <==> exists i :: 0 <= i < |ts| && oracle(path, ts[i]).setsMarker
    decreases |ts|
  {
    if ts != [] {
      var front := ts[..|ts| - 1];
      AnySetsIff(path, front, oracle);
      assert forall i :: 0 <= i < |front| ==> front[i] == ts[i];
    }
  }

  /** The tests one guarded block runs: its own when its digit or `all` was selected. */
  function Block(selector: string, digit: string, tests: seq<Trigger>): seq<Trigger> {
    if selector == digit || selector == "all" then tests else []
  }

  /** The tests the script runs, block by block in script order. */
  function Script(selector: string): seq<Trigger> {
    Block(selector, "1", [FileGetContents]) + Block(selector, "2", [FileExists])
    + Block(selector, "3", [Fopen]) + Block(selector, "4", [IsFile, Stat])
    + Block(selector, "5", [Include])
  }

  lemma EnabledCons(t: Trigger, ts: seq<Trigger>, selector: string)
    ensures Enabled([t] + ts, selector) == Block(selector, AdvancedGroup(t), [t]) + Enabled(ts, selector)
  {
    assert ([t] + ts)[1..] == ts;
  }

  /** The table's selection, one test of the table at a time. */
  lemma EnabledUnfolded(selector: string)
    ensures Enabled(AdvancedOrder, selector)
         == Block(selector, "1", [FileGetContents]) + (Block(selector, "2", [FileExists])
            + (Block(selector, "3", [Fopen]) + (Block(selector, "4", [IsFile]) + (Block(selector, "4", [Stat])
            + (Block(selector, "5", [Include]) + [])))))
  {
    EnabledCons(Include, [], selector);
    EnabledCons(Stat, [Include], selector);
    EnabledCons(IsFile, [Stat, Include], selector);
    EnabledCons(Fopen, [IsFile, Stat, Include], selector);
    EnabledCons(FileExists, [Fopen, IsFile, Stat, Include], selector);
    EnabledCons(FileGetContents, [FileExists, Fopen, IsFile, Stat, Include], selector);
    assert [Include] + [] == [Include];
    assert [Stat] + [Include] == [Stat, Include];
    assert [IsFile] + [Stat, Include] == [IsFile, Stat, Include];
    assert [Fopen] + [IsFile, Stat, Include] == [Fopen, IsFile, Stat, Include];
    assert [FileExists] + [Fopen, IsFile, Stat, Include] == [FileExists, Fopen, IsFile, Stat, Include];
    assert AdvancedOrder == [FileGetContents] + [FileExists, Fopen, IsFile, Stat, Include];
  }

  /** `all` runs the six tests in script order. */
  lemma AllRunsSix()
    ensures Enabled(AdvancedOrder, "all") == [FileGetContents, FileExists, Fopen, IsFile, Stat, Include]
    ensures Script("all") == Enabled(AdvancedOrder, "all")
  {
    EnabledUnfolded("all");
  }

  /**
   * Without a selector argument the script runs all six tests; with one it
   * runs exactly the tests that selector enables.
   */
  lemma DefaultRunsAll(args: seq<string>)
    ensures |args| < 3 ==> Enabled(AdvancedOrder, Selector(args)) == AdvancedOrder
    ensures |args| >= 3 ==> Enabled(AdvancedOrder, Selector(args)) == Enabled(AdvancedOrder, args[2])
  {
    AllRunsSix();
  }

  /** `4` runs is_file then stat. */
  lemma FourRunsTwo()
    ensures Enabled(AdvancedOrder, "4") == [IsFile, Stat]
    ensures Script("4") == Enabled(AdvancedOrder, "4")
  {
    EnabledUnfolded("4");
  }

  /** Each other digit runs exactly its own test. */
  lemma DigitRunsOne(selector: string, t: Trigger)
    requires (selector, t) in {("1", FileGetContents), ("2", FileExists), ("3", Fopen), ("5", Include)}
    ensures Enabled(AdvancedOrder, selector) == [t]
    ensures Script(selector) == [t]
  {
    EnabledUnfolded(selector);
  }

  /** A selector runs no test at all exactly when it is neither `all` nor one of the five digits. */
  lemma UnknownRunsNothing(selector: string)
    ensures Enabled(AdvancedOrder, selector) == [] <==> selector !in {"all", "1", "2", "3", "4", "5"}
  {
    EnabledUnfolded(selector);
    var r := Enabled(AdvancedOrder, selector);
    assert |r| == |Block(selector, "1", [FileGetContents])| + |Block(selector, "2", [FileExists])|
      + |Block(selector, "3", [Fopen])| + |Block(selector, "4", [IsFile])| + |Block(selector, "4", [Stat])|
      + |Block(selector, "5", [Include])|;
  }

  /** The guards of the script select exactly what the table says for every selector. */
  lemma EnabledByBlocks(selector: string)
    ensures Enabled(AdvancedOrder, selector) == Script(selector)
  {
    if selector == "all" {
      AllRunsSix();
    } else if selector == "4" {
      FourRunsTwo();
    } else if selector == "1" {
      DigitRunsOne(selector, FileGetContents);
    } else if selector == "2" {
      DigitRunsOne(selector, FileExists);
    } else if selector == "3" {
      DigitRunsOne(selector, Fopen);
    } else if selector == "5" {
      DigitRunsOne(selector, Include);
    } else {
      UnknownRunsNothing(selector);
      assert Script(selector) == [];
    }
  }

  /** How the script ends. */
  datatype Outcome =
    | Usage                                                  // no archive argument
    | FileNotFound                                           // file_exists failed
    | Completed(selector: string, reports: seq<TestReport>)  // "All tests completed"

  /** test_method: run the test, report whether it threw, and let nothing escape. */
  method TestMethod(host: Host, path: string, t: Trigger, oracle: Oracle) returns (report: TestReport)
    modifies host
    ensures report == TestReport(t, oracle(path, t).throws)
    ensures host.events == old(host.events) + [Invoked(path, t)]
    ensures host.poc == (old(host.poc) || oracle(path, t).setsMarker)
  {
    var threw := host.Invoke(path, t, oracle);
    report := TestReport(t, threw);
  }

  /** After running `done` from the state (`start`, `p0`): their reports, their calls, and the marker. */
  ghost predicate Progress(events: seq<Event>, poc: bool, start: seq<Event>, p0: bool, path: string,
                           done: seq<Trigger>, reports: seq<TestReport>, oracle: Oracle)
  {
    && reports == Reports(path, done, oracle)
    && events == start + Invocations(path, done)
    && poc == (p0 || AnySets(path, done, oracle))
  }

  /** test_method for the next test, and its report appended to those so far. */
  method TestNext(host: Host, path: string, t: Trigger, oracle: Oracle, ghost start: seq<Event>, ghost p0: bool,
                  ghost done: seq<Trigger>, reports: seq<TestReport>)
    returns (extended: seq<TestReport>)
    modifies host
    requires Progress(host.events, host.poc, start, p0, path, done, reports, oracle)
    ensures Progress(host.events, host.poc, start, p0, path, done + [t], extended, oracle)
  {
    var r := TestMethod(host, path, t, oracle);
    Extend(path, done, t, oracle);
    extended := reports + [r];
  }

  /** One guarded block of a single test: `if ($method == digit || $method == 'all') test_method(...)`. */
  method RunBlock(host: Host, path: string, selector: string, digit: string, t: Trigger, oracle: Oracle,
                  ghost start: seq<Event>, ghost p0: bool, ghost done: seq<Trigger>, reports: seq<TestReport>)
    returns (extended: seq<TestReport>)
    modifies host
    requires Progress(host.events, host.poc, start, p0, path, done, reports, oracle)
    ensures Progress(host.events, host.poc, start, p0, path, done + Block(selector, digit, [t]), extended, oracle)
  {
    if selector == digit || selector == "all" {
      extended := TestNext(host, path, t, oracle, start, p0, done, reports);
    } else {
      assert done + [] == done;
      extended := reports;
    }
  }

  /** The `4` block, the one that holds two tests: is_file, then stat. */
  method RunStatBlock(host: Host, path: string, selector: string, oracle: Oracle,
                      ghost start: seq<Event>, ghost p0: bool, ghost done: seq<Trigger>, reports: seq<TestReport>)
    returns (extended: seq<TestReport>)
    modifies host
    requires Progress(host.events, host.poc, start, p0, path, done, reports, oracle)
    ensures Progress(host.events, host.poc, start, p0, path, done + Block(selector, "4", [IsFile, Stat]), extended, oracle)
  {
    if selector == "4" || selector == "all" {
      extended := TestNext(host, path, IsFile, oracle, start, p0, done, reports);
      extended := TestNext(host, path, Stat, oracle, start, p0, done + [IsFile], extended);
      assert done + [IsFile] + [Stat] == done + [IsFile, Stat];
    } else {
      assert done + [] == done;
      extended := reports;
    }
  }

  /** The guarded blocks of the script, in order. */
  method RunTests(host: Host, path: string, selector: string, oracle: Oracle) returns (reports: seq<TestReport>)
    modifies host
    ensures var ts := Enabled(AdvancedOrder, selector);
      && reports == Reports(path, ts, oracle)
      && host.events == old(host.events) + Invocations(path, ts)
      && host.poc == (old(host.poc) || AnySets(path, ts, oracle))
  {
    ghost var start, p0 := host.events, host.poc;
    reports := RunBlock(host, path, selector, "1", FileGetContents, oracle, start, p0, [], []);
    ghost var done := Block(selector, "1", [FileGetContents]);
    assert [] + done == done;
    reports := RunBlock(host, path, selector, "2", FileExists, oracle, start, p0, done, reports);
    done := done + Block(selector, "2", [FileExists]);
    reports := RunBlock(host, path, selector, "3", Fopen, oracle, start, p0, done, reports);
    done := done + Block(selector, "3", [Fopen]);
    reports := RunStatBlock(host, path, selector, oracle, start, p0, done, reports);
    done := done + Block(selector, "4", [IsFile, Stat]);
    reports := RunBlock(host, path, selector, "5", Include, oracle, start, p0, done, reports);
    done := done + Block(selector, "5", [Include]);
    EnabledByBlocks(selector);
  }

  /**
   * The script: the argument check, the existence check, then the tests on the
   * resolved path. `found` stands for file_exists and `resolved` for realpath.
   */
  method Execute(args: seq<string>, found: bool, resolved: string, oracle: Oracle, host: Host)
    returns (outcome: Outcome, exitCode: int)
    modifies host
    ensures |args| < 2 ==> outcome == Usage
    ensures |args| >= 2 && !found ==> outcome == FileNotFound
    ensures !outcome.Completed? ==> host.events == old(host.events) && host.poc == old(host.poc)
    ensures |args| >= 2 && found ==>
      var ts := Enabled(AdvancedOrder, Selector(args));
      && outcome == Completed(Selector(args), Reports(resolved, ts, oracle))
      && host.events == old(host.events) + Invocations(resolved, ts)
      && host.poc == (old(host.poc) || AnySets(resolved, ts, oracle))
    ensures exitCode == 0 || exitCode == 1
    ensures exitCode == 0 <==> |args| >= 2 && found
  {
    if |args| < 2 {
      outcome := Usage;
    } else {
      var selector := Selector(args);
      if !found {
        outcome := FileNotFound;
      } else {
        var reports := RunTests(host, resolved, selector, oracle);
        outcome := Completed(selector, reports);
      }
    }
    exitCode := if outcome.Completed? then 0 else 1;
  }
}
