/**
 * phar_checker_simple.php: a top-level script. For each discovered archive it
 * clears /tmp/poc once, then calls file_get_contents, file_exists, fopen and
 * is_file in that order, looking for the marker after each call that returns
 * normally; the first archive whose check finds it ends the script with status 0.
 *
 * Two things set it apart from phar_checker_auto.php: the marker is not cleared
 * between the calls on one archive, and a call that throws skips its check. So
 * a marker left by a throwing call is seen, and reported, by the next call whose
 * check runs, and by no call when it was the last.
 */
module SimpleChecker {

  import opened Wrappers
  import opened Text
  import opened Registry
  import opened Environment
  import opened Discovery
  import AutoChecker

  /* ---------- The closures on one archive ---------- */

  /**
   * The position in `ts` of the call whose check first finds the marker, or |ts|
   * when no check does. `marked` is whether the marker is present before ts[0].
   */
  function Credited(path: string, ts: seq<Trigger>, oracle: Oracle, marked: bool): (k: nat)
    ensures k <= |ts|
  {
    if ts == [] then 0
    else
      var e := oracle(path, ts[0]);
      var m := marked || e.setsMarker;
      if !e.throws && m then 0 else 1 + Credited(path, ts[1..], oracle, m)
  }

  /** What one call does to the environment: the call, then its check unless it threw. */
  function CallEvents(path: string, t: Trigger, oracle: Oracle, marked: bool): seq<Event> {
    var e := oracle(path, t);
    [Invoked(path, t)] + (if e.throws then [] else [Checked(marked || e.setsMarker)])
  }

  /** What the calls on one archive do to the environment, up to the check that finds the marker. */
  function TriggerTrace(path: string, ts: seq<Trigger>, oracle: Oracle, marked: bool): seq<Event> {
    if ts == [] then []
    else
      var e := oracle(path, ts[0]);
      var m := marked || e.setsMarker;
      CallEvents(path, ts[0], oracle, marked)
      + (if !e.throws && m then [] else TriggerTrace(path, ts[1..], oracle, m))
  }

  /** Some call among ts[0..j] leaves the marker. */
  predicate MarkedBy(path: string, ts: seq<Trigger>, oracle: Oracle, j: nat) {
    exists i :: 0 <= i <= j && i < |ts| && oracle(path, ts[i]).setsMarker
  }

  lemma MarkedByHead(path: string, ts: seq<Trigger>, oracle: Oracle)
    requires ts != []
    ensures MarkedBy(path, ts, oracle, 0) == oracle(path, ts[0]).setsMarker
  {
    if oracle(path, ts[0]).setsMarker {
      assert 0 <= 0 < |ts| && oracle(path, ts[0]).setsMarker;
    }
  }

  lemma MarkedByTail(path: string, ts: seq<Trigger>, oracle: Oracle, j: nat)
    requires 0 < j < |ts|
    ensures MarkedBy(path, ts, oracle, j) <==>
            oracle(path, ts[0]).setsMarker || MarkedBy(path, ts[1..], oracle, j - 1)
  {
    if MarkedBy(path, ts, oracle, j) && !oracle(path, ts[0]).setsMarker {
      var i :| 0 <= i <= j && i < |ts| && oracle(path, ts[i]).setsMarker;
      assert ts[1..][i - 1] == ts[i];
    }
    if MarkedBy(path, ts[1..], oracle, j - 1) {
      var i :| 0 <= i <= j - 1 && i < |ts[1..]| && oracle(path, ts[1..][i]).setsMarker;
      assert ts[i + 1] == ts[1..][i];
    }
    if oracle(path, ts[0]).setsMarker {
      assert 0 <= 0 <= j && oracle(path, ts[0]).setsMarker;
    }
  }

  /**
   * The credited call is the first one that returns normally while some call up to
   * and including it has left the marker; every call before it either threw or
   * was checked while the marker was still absent.
   */
  lemma {:induction false} CreditedIsFirstCheckSeeingMarker(path: string, ts: seq<Trigger>, oracle: Oracle, marked: bool)
    ensures var k := Credited(path, ts, oracle, marked);
      && (k < |ts| ==> !oracle(path, ts[k]).throws && (marked || MarkedBy(path, ts, oracle, k)))
      && (forall j :: 0 <= j < k ==> oracle(path, ts[j]).throws || !(marked || MarkedBy(path, ts, oracle, j)))
  {
    if ts != [] {
      var e := oracle(path, ts[0]);
      var m := marked || e.setsMarker;
      MarkedByHead(path, ts, oracle);
      if !(!e.throws && m) {
        var k := Credited(path, ts, oracle, marked);
        CreditedIsFirstCheckSeeingMarker(path, ts[1..], oracle, m);
        if k < |ts| {
          MarkedByTail(path, ts, oracle, k);
          assert ts[k] == ts[1..][k - 1];
        }
        forall j | 0 <= j < k
          ensures oracle(path, ts[j]).throws || !(marked || MarkedBy(path, ts, oracle, j))
        {
          if j > 0 {
            MarkedByTail(path, ts, oracle, j);
            assert ts[j] == ts[1..][j - 1];
          }
        }
      }
    }
  }

  /**
   * A marker left by call i, when every call from i up to j throws and call j
   * does not, is reported as call j's.
   */
  lemma ThrowingMarkerCreditedToNextCheck(path: string, ts: seq<Trigger>, oracle: Oracle, i: nat, j: nat)
    requires i <= j < |ts|
    requires forall k :: 0 <= k < i ==> !oracle(path, ts[k]).setsMarker
    requires oracle(path, ts[i]).setsMarker
    requires forall k :: i <= k < j ==> oracle(path, ts[k]).throws
    requires !oracle(path, ts[j]).throws
    ensures Credited(path, ts, oracle, false) == j
  {
    var k := Credited(path, ts, oracle, false);
    CreditedIsFirstCheckSeeingMarker(path, ts, oracle, false);
    assert MarkedBy(path, ts, oracle, j) by {
      assert 0 <= i <= j && oracle(path, ts[i]).setsMarker;
    }
  }

  /** A marker left by a call after which every call throws is never seen: no call is reported. */
  lemma MarkerAfterLastCheckIsLost(path: string, ts: seq<Trigger>, oracle: Oracle, i: nat)
    requires i < |ts|
    requires forall k :: 0 <= k < i ==> !oracle(path, ts[k]).setsMarker
    requires oracle(path, ts[i]).setsMarker
    requires forall k :: i <= k < |ts| ==> oracle(path, ts[k]).throws
    ensures Credited(path, ts, oracle, false) == |ts|
  {
    var k := Credited(path, ts, oracle, false);
    CreditedIsFirstCheckSeeingMarker(path, ts, oracle, false);
  }

  /**
   * When no call throws, the single clear per archive makes no difference: the
   * reported call is the first one that leaves the marker, as in the auto checker.
   */
  lemma {:induction false} CreditedWithoutThrowsIsFirstMarked(path: string, ts: seq<Trigger>, oracle: Oracle)
    requires forall i :: 0 <= i < |ts| ==> !oracle(path, ts[i]).throws
    ensures Credited(path, ts, oracle, false) == AutoChecker.FirstMarked(path, ts, oracle)
  {
    if ts != [] && !oracle(path, ts[0]).setsMarker {
      assert forall i :: 0 <= i < |ts[1..]| ==> ts[1..][i] == ts[i + 1];
      CreditedWithoutThrowsIsFirstMarked(path, ts[1..], oracle);
    }
  }

  /** After the credited check the foreach breaks: calls listed later neither run nor matter. */
  lemma {:induction false} CreditedStops(path: string, ts: seq<Trigger>, more: seq<Trigger>, oracle: Oracle, marked: bool)
    requires Credited(path, ts, oracle, marked) < |ts|
    ensures Credited(path, ts + more, oracle, marked) == Credited(path, ts, oracle, marked)
    ensures TriggerTrace(path, ts + more, oracle, marked) == TriggerTrace(path, ts, oracle, marked)
  {
    assert (ts + more)[0] == ts[0];
    var e := oracle(path, ts[0]);
    var m := marked || e.setsMarker;
    if !(!e.throws && m) {
      assert (ts + more)[1..] == ts[1..] + more;
      CreditedStops(path, ts[1..], more, oracle, m);
    }
  }

  /** The calls on one archive never clear the marker. */
  lemma {:induction false} TriggerTraceNeverClears(path: string, ts: seq<Trigger>, oracle: Oracle, marked: bool)
    ensures Cleared !in TriggerTrace(path, ts, oracle, marked)
  {
    if ts != [] {
      var e := oracle(path, ts[0]);
      var m := marked || e.setsMarker;
      TriggerTraceNeverClears(path, ts[1..], oracle, m);
    }
  }

  /** Every call made on one archive is one of the listed triggers, on that archive. */
  lemma {:induction false} TriggerTraceInvokes(path: string, ts: seq<Trigger>, oracle: Oracle, marked: bool,
                                               p: string, t: Trigger)
    requires Invoked(p, t) in TriggerTrace(path, ts, oracle, marked)
    ensures p == path && t in ts
  {
    if ts == [] {
      assert false;
    }
    var e := oracle(path, ts[0]);
    var m := marked || e.setsMarker;
    var later := if !e.throws && m then [] else TriggerTrace(path, ts[1..], oracle, m);
    assert TriggerTrace(path, ts, oracle, marked) == CallEvents(path, ts[0], oracle, marked) + later;
    if Invoked(p, t) != Invoked(path, ts[0]) {
      assert Invoked(p, t) in later;
      TriggerTraceInvokes(path, ts[1..], oracle, m, p, t);
    }
  }

  /** The first call of a non-empty list, unfolded: the call, its check unless it threw, then the rest. */
  lemma FirstCall(path: string, ts: seq<Trigger>, oracle: Oracle, marked: bool)
    requires ts != []
    ensures var e := oracle(path, ts[0]);
      var m := marked || e.setsMarker;
      var seen := !e.throws && m;
      && Credited(path, ts, oracle, marked) == (if seen then 0 else 1 + Credited(path, ts[1..], oracle, m))
      && TriggerTrace(path, ts, oracle, marked)
         == CallEvents(path, ts[0], oracle, marked) + (if seen then [] else TriggerTrace(path, ts[1..], oracle, m))
  {
  }

  lemma Shift<T>(before: seq<T>, step: seq<T>, after: seq<T>, tail: seq<T>)
    requires after == before + step
    ensures before + (step + tail) == after + tail
  {
  }

  /**
   * One call of the foreach, from call i on, with the marker `marked` before it:
   * the check, when the call returns, either sees the marker and ends the
   * foreach, or the foreach moves on with the marker as the call left it.
   */
  lemma CallStep(path: string, ts: seq<Trigger>, oracle: Oracle, i: nat, marked: bool,
                 before: seq<Event>, after: seq<Event>)
    requires i < |ts|
    requires after == before + CallEvents(path, ts[i], oracle, marked)
    ensures var m := marked || oracle(path, ts[i]).setsMarker;
      var seen := !oracle(path, ts[i]).throws && m;
      && Credited(path, ts[i..], oracle, marked) == (if seen then 0 else 1 + Credited(path, ts[i + 1..], oracle, m))
      && before + TriggerTrace(path, ts[i..], oracle, marked)
         == after + (if seen then [] else TriggerTrace(path, ts[i + 1..], oracle, m))
  {
    var rest := ts[i..];
    assert rest[0] == ts[i] && rest[1..] == ts[i + 1..];
    FirstCall(path, rest, oracle, marked);
    var e := oracle(path, ts[i]);
    var m := marked || e.setsMarker;
    var tail := if !e.throws && m then [] else TriggerTrace(path, ts[i + 1..], oracle, m);
    assert TriggerTrace(path, rest, oracle, marked) == CallEvents(path, ts[i], oracle, marked) + tail;
    Shift(before, CallEvents(path, ts[i], oracle, marked), after, tail);
  }

  /** The call whose check first finds the marker, if any. */
  function CreditedTrigger(path: string, ts: seq<Trigger>, oracle: Oracle, marked: bool): Option<Trigger> {
    var k := Credited(path, ts, oracle, marked);
    if k < |ts| then Some(ts[k]) else None
  }

  /** The method the script reports for `path`, if any. */
  function SimpleWinner(path: string, oracle: Oracle): Option<Trigger> {
    CreditedTrigger(path, SimpleTriggers, oracle, false)
  }

  /** What testing one archive does to the environment: one clear, then the calls. */
  function ArtifactTrace(path: string, oracle: Oracle): seq<Event> {
    [Cleared] + TriggerTrace(path, SimpleTriggers, oracle, false)
  }

  /** The marker is cleared once per archive, before its first call, and never between calls. */
  lemma ClearedOncePerArtifact(path: string, oracle: Oracle)
    ensures ArtifactTrace(path, oracle)[0] == Cleared
    ensures Cleared !in ArtifactTrace(path, oracle)[1..]
  {
    TriggerTraceNeverClears(path, SimpleTriggers, oracle, false);
    assert ArtifactTrace(path, oracle)[1..] == TriggerTrace(path, SimpleTriggers, oracle, false);
  }

  /* ---------- The foreach over archives ---------- */

  /** The position of the first archive on which some check finds the marker, or |files|. */
  function FirstHit(files: seq<string>, oracle: Oracle): (n: nat)
    ensures n <= |files|
  {
    if files == [] then 0
    else if SimpleWinner(files[0], oracle).Some? then 0
    else 1 + FirstHit(files[1..], oracle)
  }

  /** No archive before the first hit has a reported method, and that one has. */
  lemma {:induction false} FirstHitIsFirst(files: seq<string>, oracle: Oracle)
    ensures var n := FirstHit(files, oracle);
      && (forall i :: 0 <= i < n ==> SimpleWinner(files[i], oracle) == None)
      && (n < |files| ==> SimpleWinner(files[n], oracle).Some?)
  {
    if files != [] && SimpleWinner(files[0], oracle).None? {
      FirstHitIsFirst(files[1..], oracle);
      forall i | 1 <= i < FirstHit(files, oracle)
        ensures SimpleWinner(files[i], oracle) == None
      {
        assert files[i] == files[1..][i - 1];
      }
    }
  }

  lemma FirstHitStep(files: seq<string>, oracle: Oracle, index: nat)
    requires index < |files| && FirstHit(files, oracle) >= index
    ensures SimpleWinner(files[index], oracle).Some? ==> FirstHit(files, oracle) == index
    ensures SimpleWinner(files[index], oracle).None? ==> FirstHit(files, oracle) > index
  {
    FirstHitIsFirst(files, oracle);
  }

  /** How many archives the script tests: up to and including the first hit. */
  function Tested(files: seq<string>, oracle: Oracle): nat {
    var n := FirstHit(files, oracle);
    if n < |files| then n + 1 else |files|
  }

  /** What testing the first `k` archives, one after another, does to the environment. */
  function ScanEvents(files: seq<string>, oracle: Oracle, k: nat): seq<Event>
    requires k <= |files|
  {
    if k == 0 then [] else ScanEvents(files, oracle, k - 1) + ArtifactTrace(files[k - 1], oracle)
  }

  /**
   * Every call the script makes is one of the four fixed triggers (never stat or
   * include), on an archive at or before the first hit.
   */
  lemma {:induction false} ScanEventsInvoke(files: seq<string>, oracle: Oracle, k: nat, p: string, t: Trigger)
    returns (j: nat)
    requires k <= |files|
    requires Invoked(p, t) in ScanEvents(files, oracle, k)
    ensures j < k && files[j] == p && t in SimpleTriggers
  {
    if k == 0 {
      assert false;
    }
    var front := ScanEvents(files, oracle, k - 1);
    if Invoked(p, t) in front {
      j := ScanEventsInvoke(files, oracle, k - 1, p, t);
    } else {
      ArtifactInvokes(files[k - 1], oracle, p, t);
      j := k - 1;
    }
  }

  lemma ArtifactInvokes(path: string, oracle: Oracle, p: string, t: Trigger)
    requires Invoked(p, t) in ArtifactTrace(path, oracle)
    ensures p == path && t in SimpleTriggers
  {
    TriggerTraceInvokes(path, SimpleTriggers, oracle, false, p, t);
  }

  /** The script never calls stat or include. */
  lemma NoStatNorInclude(t: Trigger)
    requires t in SimpleTriggers
    ensures t != Stat && t != StatIsFile && t != Include
  {
  }

  /** The archives after the first hit are never touched. */
  lemma ScanTouchesOnlyTested(files: seq<string>, oracle: Oracle, p: string, t: Trigger)
    requires Invoked(p, t) in ScanEvents(files, oracle, Tested(files, oracle))
    ensures p in files[..Tested(files, oracle)]
  {
    var k := Tested(files, oracle);
    var j := ScanEventsInvoke(files, oracle, k, p, t);
    assert files[..k][j] == p;
  }

  /** What the success box shows: the archive's name, its full path and the method (by its label). */
  datatype Report = Report(pharName: string, fullPath: string, successMethod: Trigger)

  /** The report of the first hit, if any. */
  function SimpleFound(files: seq<string>, oracle: Oracle): Option<Report> {
    var n := FirstHit(files, oracle);
    FirstHitIsFirst(files, oracle);
    if n < |files| then Some(Report(Basename(files[n]), files[n], SimpleWinner(files[n], oracle).value))
    else None
  }

  lemma SimpleFoundAt(files: seq<string>, oracle: Oracle, index: nat)
    requires index < |files| && FirstHit(files, oracle) == index
    requires SimpleWinner(files[index], oracle).Some?
    ensures SimpleFound(files, oracle)
         == Some(Report(Basename(files[index]), files[index], SimpleWinner(files[index], oracle).value))
  {
  }

  /**
   * The report is the first archive, in scan order, for which a check saw the
   * marker, named by its basename and full path, with the method that check
   * credits; there is none exactly when no archive has a credited method.
   */
  lemma SimpleFoundIsFirstHit(files: seq<string>, oracle: Oracle)
    ensures SimpleFound(files, oracle).None? <==> forall i :: 0 <= i < |files| ==> SimpleWinner(files[i], oracle).None?
    ensures SimpleFound(files, oracle).Some? ==>
      var r := SimpleFound(files, oracle).value;
      var k := FirstHit(files, oracle);
      && k < |files| && r.fullPath == files[k] && r.pharName == Basename(files[k])
      && SimpleWinner(files[k], oracle) == Some(r.successMethod)
      && forall i :: 0 <= i < k ==> SimpleWinner(files[i], oracle).None?
  {
    var k := FirstHit(files, oracle);
    FirstHitIsFirst(files, oracle);
    if k < |files| {
      SimpleFoundAt(files, oracle, k);
    }
  }

  /** How the script ends. */
  datatype Outcome =
    | Usage                   // no directory argument
    | DirectoryNotFound       // is_dir failed
    | NoPharFiles             // nothing matched
    | Vulnerable(report: Report)
    | NoneVulnerable(tested: nat)

  /* ---------- The script ---------- */

  /**
   * The try block for one closure: the call, and, when it returns, the pause and
   * the look for the marker. An exception skips the look and is swallowed.
   */
  method TryCall(host: Host, path: string, t: Trigger, oracle: Oracle) returns (present: bool)
    modifies host
    ensures host.poc == (old(host.poc) || oracle(path, t).setsMarker)
    ensures present == (!oracle(path, t).throws && host.poc)
    ensures host.events == old(host.events) + CallEvents(path, t, oracle, old(host.poc))
  {
    var threw := host.Invoke(path, t, oracle);
    present := false;
    if !threw {
      present := host.CheckPoc();
    }
  }

  /**
   * The foreach over the closures of one archive: try each in order and stop
   * with the first one after which the marker is found (`$success` and
   * `$successMethod`).
   */
  method CallInOrder(host: Host, path: string, ts: seq<Trigger>, oracle: Oracle)
    returns (successMethod: Option<Trigger>)
    modifies host
    ensures successMethod == CreditedTrigger(path, ts, oracle, old(host.poc))
    ensures host.events == old(host.events) + TriggerTrace(path, ts, oracle, old(host.poc))
  {
    ghost var goal := host.events + TriggerTrace(path, ts, oracle, host.poc);
    ghost var credited := Credited(path, ts, oracle, host.poc);
    var i := 0;
    while i < |ts|
      invariant i <= |ts|
      invariant credited == i + Credited(path, ts[i..], oracle, host.poc)
      invariant goal == host.events + TriggerTrace(path, ts[i..], oracle, host.poc)
    {
      ghost var marked := host.poc;
      ghost var before := host.events;
      var present := TryCall(host, path, ts[i], oracle);
      CallStep(path, ts, oracle, i, marked, before, host.events);
      if present {
        return Some(ts[i]);
      }
      i := i + 1;
    }
    assert ts[i..] == [];
    return None;
  }

  /** The body of the foreach for one archive: remove /tmp/poc, then try the four closures. */
  method TestPhar(host: Host, path: string, oracle: Oracle) returns (successMethod: Option<Trigger>)
    modifies host
    ensures successMethod == SimpleWinner(path, oracle)
    ensures host.events == old(host.events) + ArtifactTrace(path, oracle)
  {
    host.CleanupPoc();
    ghost var cleared := host.events;
    successMethod := CallInOrder(host, path, SimpleTriggers, oracle);
    Shift(old(host.events), [Cleared], cleared, TriggerTrace(path, SimpleTriggers, oracle, false));
  }

  /** The foreach over the sorted archives, and the two ways out of the script after it. */
  method Scan(host: Host, files: seq<string>, oracle: Oracle) returns (outcome: Outcome)
    modifies host
    ensures host.events == old(host.events) + ScanEvents(files, oracle, Tested(files, oracle))
    ensures SimpleFound(files, oracle).Some? ==> outcome == Vulnerable(SimpleFound(files, oracle).value)
    ensures SimpleFound(files, oracle).None? ==> outcome == NoneVulnerable(|files|)
  {
    ghost var start := host.events;
    var tested := 0;
    while tested < |files|
      invariant tested <= |files|
      invariant FirstHit(files, oracle) >= tested
      invariant host.events == start + ScanEvents(files, oracle, tested)
    {
      FirstHitStep(files, oracle, tested);
      var pharPath := files[tested];
      tested := tested + 1;
      var pharName := Basename(pharPath);
      var successMethod := TestPhar(host, pharPath, oracle);
      if successMethod.Some? {
        SimpleFoundAt(files, oracle, tested - 1);
        return Vulnerable(Report(pharName, pharPath, successMethod.value));
      }
    }
    return NoneVulnerable(tested);
  }

  /**
   * The script: the argument check, the directory check, discovery, the scan,
   * and the exit status, which is 0 exactly when some discovered archive under
   * an existing directory had a check find the marker.
   */
  method Execute(args: seq<string>, root: RootKind, listing: seq<Entry>, oracle: Oracle, host: Host)
    returns (outcome: Outcome, exitCode: int)
    modifies host
    ensures |args| < 2 ==> outcome == Usage
    ensures |args| >= 2 && root != Directory ==> outcome == DirectoryNotFound
    ensures |args| >= 2 && root == Directory && Discovered(listing) == [] ==> outcome == NoPharFiles
    ensures outcome.Usage? || outcome.DirectoryNotFound? || outcome.NoPharFiles? ==>
      host.events == old(host.events)
    ensures |args| >= 2 && root == Directory && Discovered(listing) != [] ==>
      var files := Discovered(listing);
      host.events == old(host.events) + ScanEvents(files, oracle, Tested(files, oracle))
    ensures exitCode == 0 || exitCode == 1
    ensures exitCode == 0 <==>
      |args| >= 2 && root == Directory && FirstHit(Discovered(listing), oracle) < |Discovered(listing)|
  {
    if |args| < 2 {
      outcome := Usage;
    } else if root != Directory {
      outcome := DirectoryNotFound;
    } else {
      var files := FindPharFiles(listing);
      if |files| == 0 {
        outcome := NoPharFiles;
      } else {
        outcome := Scan(host, files, oracle);
      }
    }
    exitCode := if outcome.Vulnerable? then 0 else 1;
  }
}
