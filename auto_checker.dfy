/**
 * phar_checker_auto.php: the `PharChecker` class. For each discovered archive it
 * runs the selected triggers in table order, clearing /tmp/poc before each one and
 * looking for it after each one; the first archive on which some trigger leaves
 * the marker ends the scan. Counters and a results file record the run.
 */
module AutoChecker {

  import opened Wrappers
  import opened Text
  import opened Registry
  import opened Environment
  import opened Discovery

  /* ---------- The trigger loop of testPhar ---------- */

  /**
   * The position in `ts` of the first trigger that leaves the marker on `path`,
   * or |ts| when none does. Because the marker is cleared before every attempt,
   * the check after attempt i sees exactly what attempt i did.
   */
  function FirstMarked(path: string, ts: seq<Trigger>, oracle: Oracle): (k: nat)
    ensures k <= |ts|
  {
    if ts == [] then 0
    else if oracle(path, ts[0]).setsMarker then 0
    else 1 + FirstMarked(path, ts[1..], oracle)
  }

  /** No trigger before the first marking one leaves the marker, and that one does. */
  lemma {:induction false} FirstMarkedIsFirst(path: string, ts: seq<Trigger>, oracle: Oracle)
    ensures var k := FirstMarked(path, ts, oracle);
      && (forall i :: 0 <= i < k ==> !oracle(path, ts[i]).setsMarker)
      && (k < |ts| ==> oracle(path, ts[k]).setsMarker)
  {
    if ts != [] && !oracle(path, ts[0]).setsMarker {
      FirstMarkedIsFirst(path, ts[1..], oracle);
      forall i | 1 <= i < FirstMarked(path, ts, oracle)
        ensures !oracle(path, ts[i]).setsMarker
      {
        assert ts[i] == ts[1..][i - 1];
      }
    }
  }

  /** The method testPhar reports for `path`: the first marking trigger, if any. */
  function Winner(path: string, ts: seq<Trigger>, oracle: Oracle): Option<Trigger> {
    var k := FirstMarked(path, ts, oracle);
    if k < |ts| then Some(ts[k]) else None
  }

  /** How many triggers testPhar attempts on `path`: up to and including the winner. */
  function Attempts(path: string, ts: seq<Trigger>, oracle: Oracle): nat {
    var k := FirstMarked(path, ts, oracle);
    if k < |ts| then k + 1 else |ts|
  }

  /** What testPhar does to the environment: clear, call, check, for each attempt in turn. */
  function AttemptTrace(path: string, ts: seq<Trigger>, oracle: Oracle): seq<Event> {
    if ts == [] then []
    else
      var hit := oracle(path, ts[0]).setsMarker;
      [Cleared, Invoked(path, ts[0]), Checked(hit)]
      + (if hit then [] else AttemptTrace(path, ts[1..], oracle))
  }

  /** testPhar attempts exactly the triggers up to the winner: three events each. */
  lemma {:induction false} AttemptTraceLength(path: string, ts: seq<Trigger>, oracle: Oracle)
    ensures |AttemptTrace(path, ts, oracle)| == 3 * Attempts(path, ts, oracle)
  {
    if ts != [] && !oracle(path, ts[0]).setsMarker {
      AttemptTraceLength(path, ts[1..], oracle);
    }
  }

  /**
   * Attempt i is the marker being cleared, trigger i being called, and a check
   * that finds the marker exactly when i is the winner: the check always runs,
   * whatever the trigger did, and a success belongs to the call right after the
   * latest clear.
   */
  lemma {:induction false} AttemptTraceAt(path: string, ts: seq<Trigger>, oracle: Oracle, i: nat)
    requires i < Attempts(path, ts, oracle)
    ensures 3 * i + 2 < |AttemptTrace(path, ts, oracle)|
    ensures AttemptTrace(path, ts, oracle)[3 * i] == Cleared
    ensures AttemptTrace(path, ts, oracle)[3 * i + 1] == Invoked(path, ts[i])
    ensures AttemptTrace(path, ts, oracle)[3 * i + 2] == Checked(i == FirstMarked(path, ts, oracle))
  {
    AttemptTraceLength(path, ts, oracle);
    if i > 0 {
      AttemptTraceAt(path, ts[1..], oracle, i - 1);
    }
  }

  /** One attempt of testPhar's loop decides whether trigger i is the winner. */
  lemma AttemptStepWinner(path: string, ts: seq<Trigger>, oracle: Oracle, i: nat)
    requires i < |ts|
    requires FirstMarked(path, ts, oracle) == i + FirstMarked(path, ts[i..], oracle)
    ensures oracle(path, ts[i]).setsMarker ==> FirstMarked(path, ts, oracle) == i
    ensures !oracle(path, ts[i]).setsMarker ==>
      FirstMarked(path, ts, oracle) == i + 1 + FirstMarked(path, ts[i + 1..], oracle)
  {
    var rest := ts[i..];
    assert rest[0] == ts[i] && rest[1..] == ts[i + 1..];
  }

  /** The events of one attempt of testPhar's loop, from trigger i on. */
  lemma AttemptStepTrace(path: string, ts: seq<Trigger>, oracle: Oracle, i: nat,
                         start: seq<Event>, mid: seq<Event>, after: seq<Event>)
    requires i < |ts|
    requires start + AttemptTrace(path, ts, oracle) == mid + AttemptTrace(path, ts[i..], oracle)
    requires after == mid + [Cleared] + [Invoked(path, ts[i])] + [Checked(oracle(path, ts[i]).setsMarker)]
    ensures oracle(path, ts[i]).setsMarker ==> after == start + AttemptTrace(path, ts, oracle)
    ensures !oracle(path, ts[i]).setsMarker ==>
      start + AttemptTrace(path, ts, oracle) == after + AttemptTrace(path, ts[i + 1..], oracle)
  {
    var rest := ts[i..];
    assert rest[0] == ts[i] && rest[1..] == ts[i + 1..];
    var hit := oracle(path, ts[i]).setsMarker;
    var later := if hit then [] else AttemptTrace(path, ts[i + 1..], oracle);
    assert AttemptTrace(path, rest, oracle) == [Cleared, Invoked(path, ts[i]), Checked(hit)] + later;
    ThreeSteps(mid, Cleared, Invoked(path, ts[i]), Checked(hit), later);
  }

  lemma ThreeSteps<T>(mid: seq<T>, a: T, b: T, c: T, later: seq<T>)
    ensures mid + [a] + [b] + [c] + later == mid + ([a, b, c] + later)
  {
  }

  /* ---------- The scan over archives in run ---------- */

  /** The position of the first archive on which some trigger succeeds, or |files|. */
  function FirstVulnerable(files: seq<string>, ts: seq<Trigger>, oracle: Oracle): (n: nat)
    ensures n <= |files|
  {
    if files == [] then 0
    else if Winner(files[0], ts, oracle).Some? then 0
    else 1 + FirstVulnerable(files[1..], ts, oracle)
  }

  /** No archive before the first vulnerable one has a winning trigger, and that one has. */
  lemma {:induction false} FirstVulnerableIsFirst(files: seq<string>, ts: seq<Trigger>, oracle: Oracle)
    ensures var n := FirstVulnerable(files, ts, oracle);
      && (forall i :: 0 <= i < n ==> Winner(files[i], ts, oracle) == None)
      && (n < |files| ==> Winner(files[n], ts, oracle).Some?)
  {
    if files != [] && Winner(files[0], ts, oracle).None? {
      FirstVulnerableIsFirst(files[1..], ts, oracle);
      forall i | 1 <= i < FirstVulnerable(files, ts, oracle)
        ensures Winner(files[i], ts, oracle) == None
      {
        assert files[i] == files[1..][i - 1];
      }
    }
  }

  /** How many archives run tests: up to and including the first vulnerable one. */
  function Tested(files: seq<string>, ts: seq<Trigger>, oracle: Oracle): nat {
    var n := FirstVulnerable(files, ts, oracle);
    if n < |files| then n + 1 else |files|
  }

  /** What the loop of run does to the environment. */
  function ScanTrace(files: seq<string>, ts: seq<Trigger>, oracle: Oracle): seq<Event> {
    if files == [] then []
    else
      AttemptTrace(files[0], ts, oracle)
      + (if Winner(files[0], ts, oracle).Some? then [] else ScanTrace(files[1..], ts, oracle))
  }

  /** What the scan does to the environment for the first `k` archives, one after another. */
  function ScanPrefix(files: seq<string>, ts: seq<Trigger>, oracle: Oracle, k: nat): seq<Event>
    requires k <= |files|
  {
    if k == 0 then [] else ScanPrefix(files, ts, oracle, k - 1) + AttemptTrace(files[k - 1], ts, oracle)
  }

  lemma {:induction false} ScanPrefixTail(files: seq<string>, ts: seq<Trigger>, oracle: Oracle, k: nat)
    requires 0 < k <= |files|
    ensures ScanPrefix(files, ts, oracle, k)
         == AttemptTrace(files[0], ts, oracle) + ScanPrefix(files[1..], ts, oracle, k - 1)
  {
    if k > 1 {
      ScanPrefixTail(files, ts, oracle, k - 1);
    }
  }

  /** The scan's trace is the attempts on the tested archives and nothing more. */
  lemma {:induction false} ScanTraceIsPrefix(files: seq<string>, ts: seq<Trigger>, oracle: Oracle)
    ensures ScanTrace(files, ts, oracle) == ScanPrefix(files, ts, oracle, Tested(files, ts, oracle))
  {
    if files != [] {
      var first := AttemptTrace(files[0], ts, oracle);
      var k := Tested(files, ts, oracle);
      ScanPrefixTail(files, ts, oracle, k);
      if Winner(files[0], ts, oracle).None? {
        ScanTraceIsPrefix(files[1..], ts, oracle);
        assert k - 1 == Tested(files[1..], ts, oracle);
        assert ScanTrace(files, ts, oracle) == first + ScanTrace(files[1..], ts, oracle);
      } else {
        assert k == 1;
        assert ScanPrefix(files[1..], ts, oracle, 0) == [];
        assert ScanTrace(files, ts, oracle) == first + [];
      }
    }
  }

  lemma ScanAdvance(files: seq<string>, ts: seq<Trigger>, oracle: Oracle, index: nat,
                    start: seq<Event>, mid: seq<Event>, after: seq<Event>)
    requires index < |files|
    requires mid == start + ScanPrefix(files, ts, oracle, index)
    requires after == mid + AttemptTrace(files[index], ts, oracle)
    ensures after == start + ScanPrefix(files, ts, oracle, index + 1)
  {
  }

  /** Once the tested archives are done, the events are the whole scan's. */
  lemma ScanDone(files: seq<string>, ts: seq<Trigger>, oracle: Oracle, k: nat, start: seq<Event>, events: seq<Event>)
    requires k <= |files| && k == Tested(files, ts, oracle)
    requires events == start + ScanPrefix(files, ts, oracle, k)
    ensures events == start + ScanTrace(files, ts, oracle)
  {
    ScanTraceIsPrefix(files, ts, oracle);
  }

  /** Having passed `index` archives without a winner, the next one decides whether the scan stops there. */
  lemma FirstVulnerableStep(files: seq<string>, ts: seq<Trigger>, oracle: Oracle, index: nat)
    requires index < |files| && FirstVulnerable(files, ts, oracle) >= index
    ensures Winner(files[index], ts, oracle).Some? ==> FirstVulnerable(files, ts, oracle) == index
    ensures Winner(files[index], ts, oracle).None? ==> FirstVulnerable(files, ts, oracle) > index
  {
    FirstVulnerableIsFirst(files, ts, oracle);
  }

  /**
   * Once an archive succeeds nothing after it matters: appending archives to the
   * list changes neither the winner nor anything done to the environment.
   */
  lemma {:induction false} ScanStopsAtWinner(files: seq<string>, more: seq<string>, ts: seq<Trigger>, oracle: Oracle)
    requires FirstVulnerable(files, ts, oracle) < |files|
    ensures FirstVulnerable(files + more, ts, oracle) == FirstVulnerable(files, ts, oracle)
    ensures ScanTrace(files + more, ts, oracle) == ScanTrace(files, ts, oracle)
  {
    assert (files + more)[0] == files[0];
    if Winner(files[0], ts, oracle).None? {
      assert (files + more)[1..] == files[1..] + more;
      ScanStopsAtWinner(files[1..], more, ts, oracle);
    }
  }

  /** A trigger called while scanning the first k archives was called on one of them: archive j. */
  lemma {:induction false} ScanPrefixInvokes(files: seq<string>, ts: seq<Trigger>, oracle: Oracle, k: nat,
                                             p: string, t: Trigger) returns (j: nat)
    requires k <= |files|
    requires Invoked(p, t) in ScanPrefix(files, ts, oracle, k)
    ensures j < k && files[j] == p && t in ts
  {
    if k == 0 {
      assert false;
    }
    var front := ScanPrefix(files, ts, oracle, k - 1);
    var last := AttemptTrace(files[k - 1], ts, oracle);
    assert ScanPrefix(files, ts, oracle, k) == front + last;
    if Invoked(p, t) in front {
      j := ScanPrefixInvokes(files, ts, oracle, k - 1, p, t);
    } else {
      assert Invoked(p, t) in last;
      AttemptTraceInvokes(files[k - 1], ts, oracle, p, t);
      j := k - 1;
    }
  }

  /** Every trigger the scan calls is a selected one, called on an archive that was tested. */
  lemma ScanInvokesOnlyTested(files: seq<string>, ts: seq<Trigger>, oracle: Oracle, p: string, t: Trigger)
    requires Invoked(p, t) in ScanTrace(files, ts, oracle)
    ensures p in files[..Tested(files, ts, oracle)]
    ensures t in ts
  {
    var k := Tested(files, ts, oracle);
    ScanTraceIsPrefix(files, ts, oracle);
    var j := ScanPrefixInvokes(files, ts, oracle, k, p, t);
    assert files[..k][j] == p;
  }

  lemma {:induction false} AttemptTraceInvokes(path: string, ts: seq<Trigger>, oracle: Oracle, p: string, t: Trigger)
    requires Invoked(p, t) in AttemptTrace(path, ts, oracle)
    ensures p == path && t in ts
  {
    if ts == [] {
      assert false;
    }
    var hit := oracle(path, ts[0]).setsMarker;
    var later := if hit then [] else AttemptTrace(path, ts[1..], oracle);
    assert AttemptTrace(path, ts, oracle) == [Cleared, Invoked(path, ts[0]), Checked(hit)] + later;
    if Invoked(p, t) != Invoked(path, ts[0]) {
      assert Invoked(p, t) in later;
      AttemptTraceInvokes(path, ts[1..], oracle, p, t);
    }
  }

  /* ---------- What run writes to the results file ---------- */

  /** The vulnerable archive run returns. */
  datatype Verdict = Verdict(phar: string, path: string, trigger: Trigger)

  /** The result of run: the successful archive, if any. */
  function Found(files: seq<string>, ts: seq<Trigger>, oracle: Oracle): Option<Verdict> {
    var n := FirstVulnerable(files, ts, oracle);
    FirstVulnerableIsFirst(files, ts, oracle);
    if n < |files| then Some(Verdict(Basename(files[n]), files[n], Winner(files[n], ts, oracle).value))
    else None
  }

  /** The verdict names the first vulnerable archive and its winning trigger. */
  lemma FoundAt(files: seq<string>, ts: seq<Trigger>, oracle: Oracle, index: nat, winner: Option<Trigger>)
    requires index < |files| && FirstVulnerable(files, ts, oracle) == index
    requires winner == Winner(files[index], ts, oracle) && winner.Some?
    ensures Found(files, ts, oracle) == Some(Verdict(Basename(files[index]), files[index], winner.value))
  {
  }

  lemma FoundNone(files: seq<string>, ts: seq<Trigger>, oracle: Oracle)
    requires FirstVulnerable(files, ts, oracle) == |files|
    ensures Found(files, ts, oracle) == None
  {
  }

  /**
   * The verdict is the first archive, in scan order, on which some trigger left
   * the marker, named by its basename and full path, with the first trigger of
   * the table that left it; there is none exactly when no archive has a winner.
   */
  lemma FoundIsFirstWinner(files: seq<string>, ts: seq<Trigger>, oracle: Oracle)
    ensures Found(files, ts, oracle).None? <==> forall i :: 0 <= i < |files| ==> Winner(files[i], ts, oracle).None?
    ensures Found(files, ts, oracle).Some? ==>
      var v := Found(files, ts, oracle).value;
      var k := FirstVulnerable(files, ts, oracle);
      && k < |files| && v.path == files[k] && v.phar == Basename(files[k])
      && Winner(files[k], ts, oracle) == Some(v.trigger)
      && v.trigger in ts && oracle(files[k], v.trigger).setsMarker
      && forall i :: 0 <= i < k ==> Winner(files[i], ts, oracle).None?
  {
    var k := FirstVulnerable(files, ts, oracle);
    FirstVulnerableIsFirst(files, ts, oracle);
    if k < |files| {
      FoundAt(files, ts, oracle, k, Winner(files[k], ts, oracle));
      FirstMarkedIsFirst(files[k], ts, oracle);
    } else {
      FoundNone(files, ts, oracle);
    }
  }

  /** One write to the results file: the header, a log entry, or the summary. */
  datatype Write =
    | HeaderWrite(date: string, directory: string, selector: string)
    | EntryWrite(stamp: string, name: string, path: string, winner: Option<Trigger>)
    | SummaryWrite(total: nat, tested: nat, successful: nat, failed: nat, duration: string,
                   found: Option<Verdict>)

  /**
   * The lines a write puts in the file. A log entry is a status line, followed on
   * success by the method and the path and an empty line; the summary ends with
   * the winner's details when there is one.
   */
  function Lines(w: Write): seq<string> {
    match w
    case HeaderWrite(date, directory, selector) => HeaderLines(date, directory, selector)
    case EntryWrite(stamp, name, path, winner) => EntryLines(stamp, name, path, winner)
    case SummaryWrite(total, tested, successful, failed, duration, found) =>
      CountLines(total, tested, successful, failed, duration)
      + (match found
         case Some(v) => DetailLines(v)
         case None => [])
  }

  function HeaderLines(date: string, directory: string, selector: string): seq<string> {
    ["PHAR Gadget Chain Test Results", Repeat('=', 50), "Test Date: " + date,
     "Directory: " + directory, "Method: " + selector, ""]
  }

  function EntryLines(stamp: string, name: string, path: string, winner: Option<Trigger>): seq<string> {
    match winner
    case Some(t) => ["[" + stamp + "] SUCCESS - " + name, "  Method: " + Label(t), "  Path: " + path, ""]
    case None => ["[" + stamp + "] FAILED - " + name]
  }

  function CountLines(total: nat, tested: nat, successful: nat, failed: nat, duration: string): seq<string> {
    ["", Repeat('=', 50), "Summary", Repeat('=', 50),
     "Total PHARs: " + Decimal(total), "Tested: " + Decimal(tested),
     "Successful: " + Decimal(successful), "Failed: " + Decimal(failed),
     "Duration: " + duration + " seconds", ""]
  }

  function DetailLines(v: Verdict): seq<string> {
    ["Vulnerable Gadget:", "  File: " + v.phar, "  Path: " + v.path, "  Method: " + Label(v.trigger)]
  }

  /** The text of a write: each line followed by a newline. */
  function Render(w: Write): string {
    UnLines(Lines(w))
  }

  /** The text strings a write interpolates. */
  predicate PlainFields(w: Write) {
    match w
    case HeaderWrite(date, directory, selector) =>
      NoNewline(date) && NoNewline(directory) && NoNewline(selector)
    case EntryWrite(stamp, name, path, _) => NoNewline(stamp) && NoNewline(name) && NoNewline(path)
    case SummaryWrite(_, _, _, _, duration, found) =>
      NoNewline(duration) && (found.Some? ==> NoNewline(found.value.phar) && NoNewline(found.value.path))
  }

  lemma LabelHasNoNewline(t: Trigger)
    ensures NoNewline(Label(t))
  {
  }

  lemma DecimalHasNoNewline(n: nat)
    ensures NoNewline(Decimal(n))
  {
  }

  lemma NoNewlineConcat(a: string, b: string)
    requires NoNewline(a) && NoNewline(b)
    ensures NoNewline(a + b)
  {
    assert forall c :: c in a + b ==> c in a || c in b;
  }

  lemma HeaderLinesPlain(date: string, directory: string, selector: string)
    requires NoNewline(date) && NoNewline(directory) && NoNewline(selector)
    ensures var lines := HeaderLines(date, directory, selector);
      forall i :: 0 <= i < |lines| ==> NoNewline(lines[i])
  {
    assert NoNewline(Repeat('=', 50));
    NoNewlineConcat("Test Date: ", date);
    NoNewlineConcat("Directory: ", directory);
    NoNewlineConcat("Method: ", selector);
  }

  lemma EntryLinesPlain(stamp: string, name: string, path: string, winner: Option<Trigger>)
    requires NoNewline(stamp) && NoNewline(name) && NoNewline(path)
    ensures var lines := EntryLines(stamp, name, path, winner);
      forall i :: 0 <= i < |lines| ==> NoNewline(lines[i])
  {
    var status := if winner.Some? then "] SUCCESS - " else "] FAILED - ";
    NoNewlineConcat("[", stamp);
    NoNewlineConcat("[" + stamp, status);
    NoNewlineConcat("[" + stamp + status, name);
    NoNewlineConcat("  Path: ", path);
    if winner.Some? {
      LabelHasNoNewline(winner.value);
      NoNewlineConcat("  Method: ", Label(winner.value));
    }
  }

  lemma CountLinePlain(caption: string, n: nat)
    requires NoNewline(caption)
    ensures NoNewline(caption + Decimal(n))
  {
    DecimalHasNoNewline(n);
    NoNewlineConcat(caption, Decimal(n));
  }

  lemma CountLinesPlain(total: nat, tested: nat, successful: nat, failed: nat, duration: string)
    requires NoNewline(duration)
    ensures var lines := CountLines(total, tested, successful, failed, duration);
      forall i :: 0 <= i < |lines| ==> NoNewline(lines[i])
  {
    assert NoNewline(Repeat('=', 50));
    CountLinePlain("Total PHARs: ", total);
    CountLinePlain("Tested: ", tested);
    CountLinePlain("Successful: ", successful);
    CountLinePlain("Failed: ", failed);
    NoNewlineConcat("Duration: ", duration);
    NoNewlineConcat("Duration: " + duration, " seconds");
  }

  lemma DetailLinesPlain(v: Verdict)
    requires NoNewline(v.phar) && NoNewline(v.path)
    ensures forall i :: 0 <= i < |DetailLines(v)| ==> NoNewline(DetailLines(v)[i])
  {
    LabelHasNoNewline(v.trigger);
    NoNewlineConcat("  File: ", v.phar);
    NoNewlineConcat("  Path: ", v.path);
    NoNewlineConcat("  Method: ", Label(v.trigger));
  }

  lemma PlainAppend(a: seq<string>, b: seq<string>)
    requires forall i :: 0 <= i < |a| ==> NoNewline(a[i])
    requires forall i :: 0 <= i < |b| ==> NoNewline(b[i])
    ensures forall i :: 0 <= i < |a + b| ==> NoNewline((a + b)[i])
  {
  }

  lemma LinesHaveNoNewline(w: Write)
    requires PlainFields(w)
    ensures forall i :: 0 <= i < |Lines(w)| ==> NoNewline(Lines(w)[i])
  {
    match w
    case HeaderWrite(date, directory, selector) => HeaderLinesPlain(date, directory, selector);
    case EntryWrite(stamp, name, path, winner) => EntryLinesPlain(stamp, name, path, winner);
    case SummaryWrite(total, tested, successful, failed, duration, found) =>
      CountLinesPlain(total, tested, successful, failed, duration);
      var counts := CountLines(total, tested, successful, failed, duration);
      if found.Some? {
        DetailLinesPlain(found.value);
        PlainAppend(counts, DetailLines(found.value));
      } else {
        PlainAppend(counts, []);
      }
  }

  /** Every write reads back as the lines it was made of. */
  lemma RenderReadsBack(w: Write)
    requires PlainFields(w)
    ensures SplitLines(Render(w)) == Lines(w)
  {
    LinesHaveNoNewline(w);
    SplitUnLines(Lines(w));
  }

  /** A log entry's first line names the archive and says SUCCESS exactly when a trigger won. */
  lemma EntryStatusLine(stamp: string, name: string, path: string, winner: Option<Trigger>)
    requires NoNewline(stamp) && NoNewline(name) && NoNewline(path)
    ensures var lines := SplitLines(Render(EntryWrite(stamp, name, path, winner)));
      && (winner.Some? ==> |lines| == 4 && lines[0] == "[" + stamp + "] SUCCESS - " + name)
      && (winner.None? ==> |lines| == 1 && lines[0] == "[" + stamp + "] FAILED - " + name)
  {
    RenderReadsBack(EntryWrite(stamp, name, path, winner));
  }

  /** The log entry of archive i: stamped now(i + 1), its basename and path, and its winner. */
  function LogEntry(files: seq<string>, ts: seq<Trigger>, oracle: Oracle, now: nat -> string, i: nat): Write
    requires i < |files|
  {
    EntryWrite(now(i + 1), Basename(files[i]), files[i], Winner(files[i], ts, oracle))
  }

  /** The log entries run writes for the first `count` archives; entry i is stamped now(i + 1). */
  function LogEntries(files: seq<string>, ts: seq<Trigger>, oracle: Oracle, now: nat -> string, count: nat): (r: seq<Write>)
    requires count <= |files|
    ensures |r| == count
  {
    if count == 0 then []
    else LogEntries(files, ts, oracle, now, count - 1) + [LogEntry(files, ts, oracle, now, count - 1)]
  }

  lemma LogEntriesStep(files: seq<string>, ts: seq<Trigger>, oracle: Oracle, now: nat -> string, index: nat,
                       header: seq<Write>, r: seq<Write>)
    requires index < |files|
    requires r == header + LogEntries(files, ts, oracle, now, index)
    ensures r + [LogEntry(files, ts, oracle, now, index)] == header + LogEntries(files, ts, oracle, now, index + 1)
  {
  }

  /** Entry i of the log is archive i's. */
  lemma {:induction false} LogEntriesAt(files: seq<string>, ts: seq<Trigger>, oracle: Oracle, now: nat -> string,
                                        count: nat, i: nat)
    requires count <= |files| && i < count
    ensures LogEntries(files, ts, oracle, now, count)[i] == LogEntry(files, ts, oracle, now, i)
  {
    if i < count - 1 {
      LogEntriesAt(files, ts, oracle, now, count - 1, i);
    }
  }

  /** One entry per tested archive, and only the last one, if any, reports success. */
  lemma LogReportsOnlyWinner(files: seq<string>, ts: seq<Trigger>, oracle: Oracle, now: nat -> string, i: nat)
    requires i < Tested(files, ts, oracle)
    ensures var e := LogEntries(files, ts, oracle, now, Tested(files, ts, oracle))[i];
      e.EntryWrite? && (e.winner.Some? <==> i == FirstVulnerable(files, ts, oracle))
  {
    FirstVulnerableIsFirst(files, ts, oracle);
    LogEntriesAt(files, ts, oracle, now, Tested(files, ts, oracle), i);
  }

  /** How the script ends. */
  datatype Outcome =
    | Usage              // fewer than one argument
    | DirectoryNotFound  // findPharFiles' is_dir test failed
    | NoPharFiles        // nothing matched
    | Completed(found: Option<Verdict>)

  /**
   * Without a method argument every trigger is tried; a known method name
   * narrows the table to its trigger, and any other name tries them all.
   */
  lemma MethodDefaultsToAll(args: seq<string>)
    ensures |args| <= 2 ==> AutoTriggers(SelectorArg(args)) == AllAuto
    ensures |args| > 2 && args[2] in SingleSelectors ==> AutoTriggers(SelectorArg(args)) == [SingleSelectors[args[2]]]
    ensures |args| > 2 && args[2] !in SingleSelectors ==> AutoTriggers(SelectorArg(args)) == AllAuto
  {
    AutoTriggersTable(SelectorArg(args));
  }

  /** `$argv[2]` when given, otherwise `all`. */
  function SelectorArg(args: seq<string>): (selector: string)
    ensures |args| > 2 ==> selector == args[2]
    ensures |args| <= 2 ==> selector == "all"
  {
    if |args| > 2 then args[2] else "all"
  }

  /* ---------- The class ---------- */

  class PharChecker {
    const selector: string
    const host: Host
    /** The table testPhar's switch builds from the selector; the selector never changes, so neither does it. */
    const triggers: seq<Trigger>
    var testedCount: nat
    var successCount: nat
    var failedCount: nat
    /** The results file, as the successive texts written to it. */
    var results: seq<Write>

    constructor (selector: string, host: Host)
      ensures this.selector == selector && this.host == host && triggers == AutoTriggers(selector)
      ensures testedCount == 0 && successCount == 0 && failedCount == 0 && results == []
    {
      this.selector := selector;
      this.host := host;
      this.triggers := AutoTriggers(selector);
      testedCount, successCount, failedCount := 0, 0, 0;
      results := [];
    }

    /**
     * One of the test methods: calls the trigger inside try/catch, so an exception
     * only turns the result into false and never leaves the method.
     */
    method Attempt(path: string, t: Trigger, oracle: Oracle) returns (executed: bool)
      modifies host
      ensures executed == !oracle(path, t).throws
      ensures host.poc == (old(host.poc) || oracle(path, t).setsMarker)
      ensures host.events == old(host.events) + [Invoked(path, t)]
    {
      var threw := host.Invoke(path, t, oracle);
      executed := !threw;
    }

    /** testPhar: clear, attempt and check each selected trigger until the marker appears. */
    method TestPhar(path: string, oracle: Oracle) returns (winner: Option<Trigger>)
      modifies host
      ensures winner == Winner(path, triggers, oracle)
      ensures host.events == old(host.events) + AttemptTrace(path, triggers, oracle)
    {
      var ts := triggers;
      ghost var start := host.events;
      var i := 0;
      while i < |ts|
        invariant i <= |ts|
        invariant FirstMarked(path, ts, oracle) == i + FirstMarked(path, ts[i..], oracle)
        invariant start + AttemptTrace(path, ts, oracle) == host.events + AttemptTrace(path, ts[i..], oracle)
      {
        ghost var mid := host.events;
        host.CleanupPoc();
        var executed := Attempt(path, ts[i], oracle);
        var present := host.CheckPoc();
        AttemptStepWinner(path, ts, oracle, i);
        AttemptStepTrace(path, ts, oracle, i, start, mid, host.events);
        if present {
          return Some(ts[i]);
        }
        i := i + 1;
      }
      assert ts[i..] == [];
      return None;
    }

    /** logResult: append the entry for one archive to the results file. */
    method LogResult(stamp: string, name: string, path: string, winner: Option<Trigger>)
      modifies this
      ensures results == old(results) + [EntryWrite(stamp, name, path, winner)]
      ensures testedCount == old(testedCount) && successCount == old(successCount)
      ensures failedCount == old(failedCount)
    {
      results := results + [EntryWrite(stamp, name, path, winner)];
    }

    /** saveSummary: append the counters and the winner, if any. */
    method SaveSummary(total: nat, duration: string, found: Option<Verdict>)
      modifies this
      ensures results == old(results) + [SummaryWrite(total, testedCount, successCount, failedCount, duration, found)]
      ensures testedCount == old(testedCount) && successCount == old(successCount)
      ensures failedCount == old(failedCount)
    {
      results := results + [SummaryWrite(total, testedCount, successCount, failedCount, duration, found)];
    }

    /**
     * The foreach of run over the discovered archives: test each in order, log it,
     * and stop at the first success. Both ways out of the foreach write the same
     * summary next, so that write is left to Scan.
     */
    method TestEach(files: seq<string>, oracle: Oracle, now: nat -> string) returns (found: Option<Verdict>)
      requires testedCount == 0 && successCount == 0 && failedCount == 0
      modifies this, host
      ensures found == Found(files, triggers, oracle)
      ensures host.events == old(host.events) + ScanTrace(files, triggers, oracle)
      ensures testedCount == Tested(files, triggers, oracle)
      ensures successCount == (if found.Some? then 1 else 0)
      ensures failedCount == testedCount - successCount
      ensures results == old(results) + LogEntries(files, triggers, oracle, now, testedCount)
    {
      ghost var start := host.events;
      ghost var header := results;
      var index := 0;
      while index < |files|
        invariant index <= |files|
        invariant FirstVulnerable(files, triggers, oracle) >= index
        invariant host.events == start + ScanPrefix(files, triggers, oracle, index)
        invariant testedCount == index && failedCount == index && successCount == 0
        invariant results == header + LogEntries(files, triggers, oracle, now, index)
      {
        var pharPath := files[index];
        var winner := TestAndLog(files, oracle, now, index, start, header);
        if winner.Some? {
          successCount := successCount + 1;
          found := Some(Verdict(Basename(pharPath), pharPath, winner.value));
          FoundAt(files, triggers, oracle, index, winner);
          ScanDone(files, triggers, oracle, index + 1, start, host.events);
          return;
        }
        failedCount := failedCount + 1;
        index := index + 1;
      }
      found := None;
      FoundNone(files, triggers, oracle);
      ScanDone(files, triggers, oracle, index, start, host.events);
    }

    /**
     * The foreach body up to the success test: count the archive at `index`,
     * test it, and log the outcome, which tells whether the scan stops there.
     */
    method TestAndLog(files: seq<string>, oracle: Oracle, now: nat -> string, index: nat,
                      ghost start: seq<Event>, ghost header: seq<Write>)
      returns (winner: Option<Trigger>)
      requires index < |files| && FirstVulnerable(files, triggers, oracle) >= index
      requires host.events == start + ScanPrefix(files, triggers, oracle, index)
      requires results == header + LogEntries(files, triggers, oracle, now, index)
      modifies this, host
      ensures winner == Winner(files[index], triggers, oracle)
      ensures winner.Some? ==> FirstVulnerable(files, triggers, oracle) == index
      ensures winner.None? ==> FirstVulnerable(files, triggers, oracle) > index
      ensures host.events == start + ScanPrefix(files, triggers, oracle, index + 1)
      ensures results == header + LogEntries(files, triggers, oracle, now, index + 1)
      ensures testedCount == old(testedCount) + 1
      ensures successCount == old(successCount) && failedCount == old(failedCount)
    {
      FirstVulnerableStep(files, triggers, oracle, index);
      testedCount := testedCount + 1;
      var pharPath := files[index];
      var pharName := Basename(pharPath);
      ghost var before := host.events;
      winner := TestPhar(pharPath, oracle);
      ScanAdvance(files, triggers, oracle, index, start, before, host.events);
      LogEntriesStep(files, triggers, oracle, now, index, header, results);
      LogResult(now(index + 1), pharName, pharPath, winner);
    }

    /** The scan of run: the foreach, then the summary with the counters and the winner. */
    method Scan(files: seq<string>, oracle: Oracle, now: nat -> string, duration: string)
      returns (found: Option<Verdict>)
      requires testedCount == 0 && successCount == 0 && failedCount == 0
      modifies this, host
      ensures found == Found(files, triggers, oracle)
      ensures host.events == old(host.events) + ScanTrace(files, triggers, oracle)
      ensures testedCount == Tested(files, triggers, oracle)
      ensures successCount == (if found.Some? then 1 else 0)
      ensures failedCount == testedCount - successCount
      ensures results == old(results) + LogEntries(files, triggers, oracle, now, testedCount)
                         + [SummaryWrite(|files|, testedCount, successCount, failedCount, duration, found)]
    {
      found := TestEach(files, oracle, now);
      SaveSummary(|files|, duration, found);
    }

    /**
     * run: write the header, discover the archives, then scan them. `now(0)` is the
     * header's date and `now(i + 1)` the stamp of archive i's log entry; `duration`
     * is the rounded elapsed time.
     */
    method Run(directory: string, root: RootKind, listing: seq<Entry>, oracle: Oracle,
               now: nat -> string, duration: string) returns (outcome: Outcome)
      requires testedCount == 0 && successCount == 0 && failedCount == 0
      modifies this, host
      ensures |results| >= 1 && results[0] == HeaderWrite(now(0), directory, selector)
      ensures root != Directory ==>
        outcome == DirectoryNotFound && results == [results[0]] && host.events == old(host.events)
      ensures root == Directory && Discovered(listing) == [] ==>
        outcome == NoPharFiles && results == [results[0]] && host.events == old(host.events)
      ensures root == Directory && Discovered(listing) != [] ==>
        var files := Discovered(listing);
        var found := Found(files, triggers, oracle);
        && outcome == Completed(found)
        && host.events == old(host.events) + ScanTrace(files, triggers, oracle)
        && testedCount == Tested(files, triggers, oracle)
        && successCount == (if found.Some? then 1 else 0)
        && failedCount == testedCount - successCount
        && results == [results[0]] + LogEntries(files, triggers, oracle, now, testedCount)
                      + [SummaryWrite(|files|, testedCount, successCount, failedCount, duration, found)]
    {
      results := [HeaderWrite(now(0), directory, selector)];
      if root != Directory {
        return DirectoryNotFound;
      }
      var files := FindPharFiles(listing);
      if |files| == 0 {
        return NoPharFiles;
      }
      var found := Scan(files, oracle, now, duration);
      return Completed(found);
    }
  }

  /**
   * The script: usage check, `$method` defaulting to `all`, run, and the exit
   * status, which is 0 exactly when some archive under an existing directory
   * made a trigger leave the marker.
   */
  method Execute(args: seq<string>, root: RootKind, listing: seq<Entry>, oracle: Oracle,
                 now: nat -> string, duration: string, host: Host) returns (exitCode: int)
    modifies host
    ensures |args| < 2 ==> exitCode == 1 && host.events == old(host.events)
    ensures exitCode == 0 || exitCode == 1
    ensures exitCode == 0 <==>
      && |args| >= 2 && root == Directory
      && FirstVulnerable(Discovered(listing), AutoTriggers(SelectorArg(args)), oracle) < |Discovered(listing)|
  {
    if |args| < 2 {
      return 1;
    }
    var checker := new PharChecker(SelectorArg(args), host);
    var outcome := checker.Run(args[1], root, listing, oracle, now, duration);
    exitCode := if outcome.Completed? && outcome.found.Some? then 0 else 1;
  }
}
