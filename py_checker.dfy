/**
 * phar_checker.py: runs a shell command per archive instead of calling PHP
 * itself. For each archive the recursive glob for names ending in ".phar" finds, it clears /tmp/poc,
 * runs the command built from the template, and counts a success when the
 * marker is there afterwards, whatever the command's exit status. After a
 * success the user is asked whether to go on; at the end a results file is
 * written with the totals and the successful archives.
 */
module PyChecker {

  import opened Wrappers
  import opened Text
  import opened Ordering
  import opened Environment
  import opened Discovery

  /* ---------- The command ---------- */

  /** The placeholder a template may use for the archive path. */
  const Placeholder: string := "$PHAR"

  /** test_phar's command: every placeholder replaced by the path, or the path appended after a space. */
  function BuildCommand(template: string, path: string): string {
    if Contains(template, Placeholder) then ReplaceAll(template, Placeholder, path)
    else template + " " + path
  }

  /**
   * A template made of pieces that hold no placeholder, joined by placeholders,
   * gets the path in every slot; the pieces may hold other `$` words such as `$argv`.
   */
  lemma CommandFillsEverySlot(parts: seq<string>, path: string)
    requires |parts| >= 2
    requires forall i :: 0 <= i < |parts| ==> !Contains(parts[i], Placeholder)
    ensures BuildCommand(Join(parts, Placeholder), path) == Join(parts, path)
  {
    JoinContains(parts, Placeholder);
    assert Placeholder[1..] == "PHAR";
    ReplaceAllJoin(parts, Placeholder, path);
  }

  /**
   * A template without the placeholder would come out of the replacement
   * unchanged, so the path is appended to it after one space instead.
   */
  lemma CommandAppendsPath(template: string, path: string)
    requires !Contains(template, Placeholder)
    ensures ReplaceAll(template, Placeholder, path) == template
    ensures BuildCommand(template, path) == template + " " + path
  {
    ReplaceAllAbsent(template, Placeholder, path);
  }

  /** Whatever the template, the command mentions the archive path. */
  lemma CommandContainsPath(template: string, path: string)
    ensures Contains(BuildCommand(template, path), path)
  {
    var cmd := BuildCommand(template, path);
    if Contains(template, Placeholder) {
      ReplaceAllInserts(template, Placeholder, path);
    } else {
      assert cmd[|template| + 1..] == path;
      assert HasPrefix(cmd[|template| + 1..], path);
    }
  }

  /** The exec status test_phar reports for how the command ended. */
  function ExecStatus(r: ExecResult): string {
    match r
    case Exited(code) => if code == 0 then "success" else "error (code " + IntToString(code) + ")"
    case TimedOut => "timeout"
    case Raised(message) => "exception: " + message
  }

  /** The status reads "success" exactly when the command exited with code 0. */
  lemma ExecStatusSuccessIff(r: ExecResult)
    ensures ExecStatus(r) == "success" <==> r == Exited(0)
  {
    match r
    case Exited(code) =>
      if code != 0 {
        assert ExecStatus(r)[1] == 'r';
      }
    case TimedOut =>
      assert ExecStatus(r)[0] == 't';
    case Raised(message) =>
      assert ExecStatus(r)[1] == 'x';
  }

  /** The status tells apart the three ways a command can end. */
  lemma ExecStatusTellsKind(r1: ExecResult, r2: ExecResult)
    requires ExecStatus(r1) == ExecStatus(r2)
    ensures r1.Exited? == r2.Exited? && r1.TimedOut? == r2.TimedOut? && r1.Raised? == r2.Raised?
  {
    ExecStatusSuccessIff(r1);
    ExecStatusSuccessIff(r2);
    StatusLetters(r1);
    StatusLetters(r2);
  }

  /** The first two letters of a status: "su", "er", "ti" or "ex". */
  lemma StatusLetters(r: ExecResult)
    ensures |ExecStatus(r)| >= 2
    ensures r == Exited(0) ==> ExecStatus(r)[..2] == "su"
    ensures r.Exited? && r.code != 0 ==> ExecStatus(r)[..2] == "er"
    ensures r.TimedOut? ==> ExecStatus(r)[..2] == "ti"
    ensures r.Raised? ==> ExecStatus(r)[..2] == "ex"
  {
  }

  /* ---------- Discovery ---------- */

  /**
   * find_phar_files after its existence test: the glob's matches, sorted. A root
   * that exists but is a regular file has no matches.
   */
  function GlobFiles(root: RootKind, listing: seq<Entry>): (files: seq<string>)
    ensures Sorted(files)
    ensures root == Directory ==> multiset(files) == multiset(GlobPaths(listing))
    ensures root != Directory ==> files == []
  {
    if root == Directory then Sort(GlobPaths(listing)) else []
  }

  /* ---------- The loop of main ---------- */

  /** One line typed at the continue prompt, or Ctrl-C there. */
  datatype Answer = Typed(text: string) | Interrupt

  /** The prompt lets the scan go on only for `y`, in either case, and nothing else. */
  predicate IsYes(a: Answer) {
    a.Typed? && LowerStr(a.text) == "y"
  }

  /** Why the loop ended: all archives tested, the user declined, or input ran out (EOFError). */
  datatype Ending = AllTested | StoppedByUser | InputClosed

  /** main's counters and list, and what has been done to the environment. */
  datatype Tally = Tally(success: nat, failed: nat, names: seq<string>, events: seq<Event>)

  /** What one iteration leads to: the next archive, or out of the loop. */
  datatype Step = Next(next: Tally) | Halt(last: Tally, ending: Ending)

  datatype Run = Run(tally: Tally, ending: Ending)

  /** Whether the command for `path` leaves the marker. */
  predicate Created(path: string, template: string, coracle: CommandOracle) {
    coracle(BuildCommand(template, path)).setsMarker
  }

  /** What test_phar does to the environment: clear, run, look. */
  function TestEvents(path: string, template: string, coracle: CommandOracle): seq<Event> {
    [Cleared, Executed(BuildCommand(template, path)), Checked(Created(path, template, coracle))]
  }

  /**
   * One iteration for `path`. A success is counted and recorded before the
   * prompt; the k-th success (from 0) reads answers[k], since every earlier
   * success read one line and went on.
   */
  function StepFile(s: Tally, path: string, template: string, coracle: CommandOracle, answers: seq<Answer>): Step {
    var tested := s.events + TestEvents(path, template, coracle);
    if !Created(path, template, coracle) then Next(Tally(s.success, s.failed + 1, s.names, tested))
    else
      var t := Tally(s.success + 1, s.failed, s.names + [Basename(path)], tested);
      if s.success >= |answers| then Halt(t, InputClosed)
      else if !IsYes(answers[s.success]) then Halt(t, StoppedByUser)
      else Next(t.(events := t.events + [Cleared]))
  }

  /** The loop from the archive at index `i` on, in state `s`. */
  function RunFrom(s: Tally, files: seq<string>, i: nat, template: string, coracle: CommandOracle,
                   answers: seq<Answer>): Run
    requires i <= |files|
    decreases |files| - i
  {
    if i == |files| then Run(s, AllTested)
    else
      match StepFile(s, files[i], template, coracle, answers)
      case Next(t) => RunFrom(t, files, i + 1, template, coracle, answers)
      case Halt(t, e) => Run(t, e)
  }

  /** The whole loop of main, from zero counters and an empty list. */
  function RunAll(files: seq<string>, template: string, coracle: CommandOracle, answers: seq<Answer>): Run {
    RunFrom(Tally(0, 0, [], []), files, 0, template, coracle, answers)
  }

  /** How many archives the loop has tested. */
  function Processed(t: Tally): nat {
    t.success + t.failed
  }

  /** The name an archive adds to the list: its own when its command left the marker. */
  function Listed(path: string, template: string, coracle: CommandOracle): seq<string> {
    if Created(path, template, coracle) then [Basename(path)] else []
  }

  /** The names of the first `n` archives whose command left the marker, in scan order. */
  function CreatedNames(files: seq<string>, n: nat, template: string, coracle: CommandOracle): seq<string>
    requires n <= |files|
  {
    if n == 0 then [] else CreatedNames(files, n - 1, template, coracle) + Listed(files[n - 1], template, coracle)
  }

  /** The state one iteration leaves, whether the loop goes on or not. */
  function After(step: Step): Tally {
    if step.Next? then step.next else step.last
  }

  /**
   * The bookkeeping main keeps after the first Processed(t) archives: the list
   * holds the names of the successful ones in order, and the counter counts them.
   */
  predicate Listing(t: Tally, files: seq<string>, template: string, coracle: CommandOracle) {
    && Processed(t) <= |files|
    && t.names == CreatedNames(files, Processed(t), template, coracle)
    && t.success == |t.names|
  }

  /** No success so far was followed by anything but `y`, and each of them read its own line. */
  predicate AnsweredYes(t: Tally, answers: seq<Answer>) {
    t.success <= |answers| && forall j :: 0 <= j < t.success ==> IsYes(answers[j])
  }

  /** One iteration tests the next archive and keeps the listing. */
  lemma StepListing(s: Tally, files: seq<string>, template: string, coracle: CommandOracle, answers: seq<Answer>)
    requires Listing(s, files, template, coracle) && Processed(s) < |files|
    ensures var t := After(StepFile(s, files[Processed(s)], template, coracle, answers));
      Processed(t) == Processed(s) + 1 && Listing(t, files, template, coracle)
  {
    var n := Processed(s);
    var t := After(StepFile(s, files[n], template, coracle, answers));
    assert t.names == s.names + Listed(files[n], template, coracle);
    assert Processed(t) == n + 1;
    assert CreatedNames(files, n + 1, template, coracle) == s.names + Listed(files[n], template, coracle);
  }

  /**
   * One iteration goes on only past a `y` (or without asking); it stops on any
   * other answer, and fails with EOFError when a success finds no line left.
   */
  lemma StepAnswers(s: Tally, path: string, template: string, coracle: CommandOracle, answers: seq<Answer>)
    requires AnsweredYes(s, answers)
    ensures var step := StepFile(s, path, template, coracle, answers);
      && (step.Next? ==> AnsweredYes(step.next, answers) && step.next.success >= s.success)
      && (step.Halt? ==> step.ending != AllTested && step.last.success == s.success + 1)
      && (step.Halt? && step.ending == StoppedByUser ==>
            step.last.success <= |answers| && !IsYes(answers[step.last.success - 1]))
      && (step.Halt? && step.ending == InputClosed ==> step.last.success == |answers| + 1)
  {
  }

  /**
   * From any point of the loop where the listing holds, it still holds when
   * the loop ends.
   */
  lemma {:induction false} RunFromListing(s: Tally, files: seq<string>, i: nat, template: string,
                                          coracle: CommandOracle, answers: seq<Answer>)
    requires i == Processed(s) && Listing(s, files, template, coracle)
    ensures Listing(RunFrom(s, files, i, template, coracle, answers).tally, files, template, coracle)
    decreases |files| - i
  {
    if i < |files| {
      var step := StepFile(s, files[i], template, coracle, answers);
      StepListing(s, files, template, coracle, answers);
      if step.Next? {
        RunFromListing(step.next, files, i + 1, template, coracle, answers);
      }
    }
  }

  /**
   * From any point of the loop where every success was answered `y`, the loop
   * ends having asked once per success: with all answers `y` when it tested
   * everything, on the first other answer, or with EOFError when the answers ran out.
   */
  lemma {:induction false} RunFromAnswers(s: Tally, files: seq<string>, i: nat, template: string,
                                          coracle: CommandOracle, answers: seq<Answer>)
    requires i <= |files| && AnsweredYes(s, answers)
    ensures var r := RunFrom(s, files, i, template, coracle, answers);
      var k := r.tally.success;
      && k >= s.success
      && (r.ending == AllTested ==> AnsweredYes(r.tally, answers))
      && (r.ending == StoppedByUser ==>
            && 1 <= k <= |answers| && !IsYes(answers[k - 1])
            && forall j :: 0 <= j < k - 1 ==> IsYes(answers[j]))
      && (r.ending == InputClosed ==> k == |answers| + 1 && forall j :: 0 <= j < |answers| ==> IsYes(answers[j]))
    decreases |files| - i
  {
    if i < |files| {
      var step := StepFile(s, files[i], template, coracle, answers);
      StepAnswers(s, files[i], template, coracle, answers);
      if step.Next? {
        RunFromAnswers(step.next, files, i + 1, template, coracle, answers);
      }
    }
  }

  /** One iteration tests exactly one archive, whether the loop goes on or not. */
  lemma StepCount(s: Tally, path: string, template: string, coracle: CommandOracle, answers: seq<Answer>)
    ensures Processed(After(StepFile(s, path, template, coracle, answers))) == Processed(s) + 1
  {
  }

  /**
   * From the archive at index `i`, the loop tests every remaining archive
   * unless it stops, and then it has tested at least one more.
   */
  lemma {:induction false} RunFromCount(s: Tally, files: seq<string>, i: nat, template: string,
                                        coracle: CommandOracle, answers: seq<Answer>)
    requires i <= |files|
    ensures var r := RunFrom(s, files, i, template, coracle, answers);
      && Processed(s) <= Processed(r.tally) <= Processed(s) + |files| - i
      && (r.ending == AllTested ==> Processed(r.tally) == Processed(s) + |files| - i)
      && (r.ending != AllTested ==> Processed(r.tally) > Processed(s))
    decreases |files| - i
  {
    if i < |files| {
      var step := StepFile(s, files[i], template, coracle, answers);
      StepCount(s, files[i], template, coracle, answers);
      if step.Next? {
        RunFromCount(step.next, files, i + 1, template, coracle, answers);
      }
    }
  }

  /** The loop tests every archive unless it stopped at a success, and never more. */
  lemma RunCount(files: seq<string>, template: string, coracle: CommandOracle, answers: seq<Answer>)
    ensures var r := RunAll(files, template, coracle, answers);
      && Processed(r.tally) <= |files|
      && (r.ending == AllTested ==> Processed(r.tally) == |files|)
      && (r.ending != AllTested ==> Processed(r.tally) > 0)
  {
    RunFromCount(Tally(0, 0, [], []), files, 0, template, coracle, answers);
  }

  /** From zero counters and an empty list, the loop keeps the listing. */
  lemma RunFromEmpty(s: Tally, files: seq<string>, template: string, coracle: CommandOracle, answers: seq<Answer>)
    requires s.success == 0 && s.failed == 0 && s.names == []
    ensures Listing(RunFrom(s, files, 0, template, coracle, answers).tally, files, template, coracle)
  {
    RunFromListing(s, files, 0, template, coracle, answers);
  }

  /**
   * The successful archives are listed by name, in scan order, and the success
   * counter counts them.
   */
  lemma RunNames(files: seq<string>, template: string, coracle: CommandOracle, answers: seq<Answer>)
    ensures Listing(RunAll(files, template, coracle, answers).tally, files, template, coracle)
  {
    RunFromEmpty(Tally(0, 0, [], []), files, template, coracle, answers);
  }

  /**
   * The prompt: every success but the last was answered `y`; the loop ends on
   * the first other answer, or with EOFError when the answers ran out after all
   * being `y`.
   */
  lemma RunAnswers(files: seq<string>, template: string, coracle: CommandOracle, answers: seq<Answer>)
    ensures var r := RunAll(files, template, coracle, answers);
      var k := r.tally.success;
      && (r.ending == AllTested ==> k <= |answers| && forall j :: 0 <= j < k ==> IsYes(answers[j]))
      && (r.ending == StoppedByUser ==>
            1 <= k <= |answers| && (forall j :: 0 <= j < k - 1 ==> IsYes(answers[j])) && !IsYes(answers[k - 1]))
      && (r.ending == InputClosed ==> k == |answers| + 1 && forall j :: 0 <= j < |answers| ==> IsYes(answers[j]))
  {
    RunFromAnswers(Tally(0, 0, [], []), files, 0, template, coracle, answers);
  }

  /**
   * The effects of a scan that went on past its first `n` archives: each test
   * clears the marker, runs the command and looks for the marker, and a success
   * the user answered `y` to clears the marker once more before the next archive.
   */
  function Traced(files: seq<string>, n: nat, template: string, coracle: CommandOracle): seq<Event>
    requires n <= |files|
  {
    if n == 0 then []
    else
      Traced(files, n - 1, template, coracle) + TestEvents(files[n - 1], template, coracle)
      + (if Created(files[n - 1], template, coracle) then [Cleared] else [])
  }

  /** The effects so far are those of the first Processed(t) archives, each of them passed. */
  predicate TraceKept(t: Tally, files: seq<string>, template: string, coracle: CommandOracle) {
    Processed(t) <= |files| && t.events == Traced(files, Processed(t), template, coracle)
  }

  /**
   * One iteration adds the next archive's test; it goes on only after a failure
   * or a `y`, and it stops only at a success, before the marker is cleared again.
   */
  lemma StepTrace(s: Tally, files: seq<string>, template: string, coracle: CommandOracle, answers: seq<Answer>)
    requires TraceKept(s, files, template, coracle) && Processed(s) < |files|
    ensures var n := Processed(s);
      var step := StepFile(s, files[n], template, coracle, answers);
      && (step.Next? ==> TraceKept(step.next, files, template, coracle))
      && (step.Halt? ==> step.last.events == Traced(files, n, template, coracle) + TestEvents(files[n], template, coracle)
                         && Created(files[n], template, coracle))
  {
    var n := Processed(s);
    var step := StepFile(s, files[n], template, coracle, answers);
    StepCount(s, files[n], template, coracle, answers);
    if step.Next? {
      assert Traced(files, n + 1, template, coracle)
          == s.events + TestEvents(files[n], template, coracle)
             + (if Created(files[n], template, coracle) then [Cleared] else []);
    }
  }

  /**
   * From any point of the loop where the effects are those of the archives
   * passed so far, the loop ends with those of every archive, or with those of
   * the archives it passed followed by the test of the success it stopped at.
   */
  lemma {:induction false} RunFromTrace(s: Tally, files: seq<string>, i: nat, template: string,
                                        coracle: CommandOracle, answers: seq<Answer>)
    requires i == Processed(s) && TraceKept(s, files, template, coracle)
    ensures var r := RunFrom(s, files, i, template, coracle, answers);
      var n := Processed(r.tally);
      && (r.ending == AllTested ==> r.tally.events == Traced(files, |files|, template, coracle))
      && (r.ending != AllTested ==>
            && 0 < n <= |files| && Created(files[n - 1], template, coracle)
            && r.tally.events == Traced(files, n - 1, template, coracle) + TestEvents(files[n - 1], template, coracle))
    decreases |files| - i
  {
    if i < |files| {
      var step := StepFile(s, files[i], template, coracle, answers);
      StepTrace(s, files, template, coracle, answers);
      StepCount(s, files[i], template, coracle, answers);
      if step.Next? {
        RunFromTrace(step.next, files, i + 1, template, coracle, answers);
      }
    }
  }

  /** From zero counters and no effects, the loop's effects follow the archives. */
  lemma RunFromEmptyTrace(s: Tally, files: seq<string>, template: string, coracle: CommandOracle,
                          answers: seq<Answer>)
    requires s.success == 0 && s.failed == 0 && s.events == []
    ensures var r := RunFrom(s, files, 0, template, coracle, answers);
      var n := Processed(r.tally);
      && (r.ending == AllTested ==> r.tally.events == Traced(files, |files|, template, coracle))
      && (r.ending != AllTested ==>
            && 0 < n <= |files| && Created(files[n - 1], template, coracle)
            && r.tally.events == Traced(files, n - 1, template, coracle) + TestEvents(files[n - 1], template, coracle))
  {
    RunFromTrace(s, files, 0, template, coracle, answers);
  }

  /**
   * test_phar clears the marker before each command, and the loop clears it
   * again after each success it goes on past; a scan that stops does so right
   * after the test of a success, without clearing the marker that test left.
   */
  lemma RunTrace(files: seq<string>, template: string, coracle: CommandOracle, answers: seq<Answer>)
    ensures var r := RunAll(files, template, coracle, answers);
      var n := Processed(r.tally);
      && (r.ending == AllTested ==> r.tally.events == Traced(files, |files|, template, coracle))
      && (r.ending != AllTested ==>
            && 0 < n <= |files| && Created(files[n - 1], template, coracle)
            && r.tally.events == Traced(files, n - 1, template, coracle) + TestEvents(files[n - 1], template, coracle))
  {
    RunFromEmptyTrace(Tally(0, 0, [], []), files, template, coracle, answers);
  }

  /* ---------- The results file ---------- */

  function ResultHead(date: string, directory: string, command: string): seq<string> {
    ["PHAR Gadget Chain Test Results", Repeat('=', 50), "Test Date: " + date,
     "PHAR Directory: " + directory, "PHP Command: " + command, ""]
  }

  function ResultCounts(total: nat, success: nat, failed: nat): seq<string> {
    ["Summary", Repeat('=', 50), "Total PHARs Tested: " + Decimal(total),
     "Successful: " + Decimal(success), "Failed: " + Decimal(failed), ""]
  }

  function Gadgets(names: seq<string>): (lines: seq<string>)
    ensures |lines| == |names|
  {
    seq(|names|, i requires 0 <= i < |names| => "  - " + names[i])
  }

  /** save_results' lines: the list of successful archives only when there is one. */
  function ResultLines(date: string, directory: string, command: string, total: nat, success: nat,
                       failed: nat, names: seq<string>): seq<string>
  {
    ResultHead(date, directory, command) + ResultCounts(total, success, failed)
    + (if names == [] then [] else ["Successful Gadgets:"] + Gadgets(names))
  }

  function ResultText(date: string, directory: string, command: string, total: nat, success: nat,
                      failed: nat, names: seq<string>): string
  {
    UnLines(ResultLines(date, directory, command, total, success, failed, names))
  }

  lemma JoinPlain(a: string, b: string)
    requires NoNewline(a) && NoNewline(b)
    ensures NoNewline(a + b)
  {
    assert forall c :: c in a + b ==> c in a || c in b;
  }

  predicate AllPlain(lines: seq<string>) {
    forall i :: 0 <= i < |lines| ==> NoNewline(lines[i])
  }

  lemma AllPlainAppend(a: seq<string>, b: seq<string>)
    requires AllPlain(a) && AllPlain(b)
    ensures AllPlain(a + b)
  {
    assert forall i :: 0 <= i < |a + b| ==> (a + b)[i] == if i < |a| then a[i] else b[i - |a|];
  }

  lemma ResultHeadPlain(date: string, directory: string, command: string)
    requires NoNewline(date) && NoNewline(directory) && NoNewline(command)
    ensures AllPlain(ResultHead(date, directory, command))
  {
    assert NoNewline(Repeat('=', 50));
    JoinPlain("Test Date: ", date);
    JoinPlain("PHAR Directory: ", directory);
    JoinPlain("PHP Command: ", command);
  }

  lemma ResultCountsPlain(total: nat, success: nat, failed: nat)
    ensures AllPlain(ResultCounts(total, success, failed))
  {
    assert NoNewline(Repeat('=', 50));
    assert NoNewline(Decimal(total)) && NoNewline(Decimal(success)) && NoNewline(Decimal(failed));
    JoinPlain("Total PHARs Tested: ", Decimal(total));
    JoinPlain("Successful: ", Decimal(success));
    JoinPlain("Failed: ", Decimal(failed));
  }

  lemma GadgetsPlain(names: seq<string>)
    requires AllPlain(names)
    ensures AllPlain(["Successful Gadgets:"] + Gadgets(names))
  {
    forall i | 0 <= i < |names|
      ensures NoNewline(Gadgets(names)[i])
    {
      JoinPlain("  - ", names[i]);
    }
    AllPlainAppend(["Successful Gadgets:"], Gadgets(names));
  }

  lemma ResultLinesPlain(date: string, directory: string, command: string, total: nat, success: nat,
                         failed: nat, names: seq<string>)
    requires NoNewline(date) && NoNewline(directory) && NoNewline(command) && AllPlain(names)
    ensures AllPlain(ResultLines(date, directory, command, total, success, failed, names))
  {
    var head := ResultHead(date, directory, command);
    var counts := ResultCounts(total, success, failed);
    var tail := if names == [] then [] else ["Successful Gadgets:"] + Gadgets(names);
    ResultHeadPlain(date, directory, command);
    ResultCountsPlain(total, success, failed);
    if names != [] {
      GadgetsPlain(names);
    }
    AllPlainAppend(head, counts);
    AllPlainAppend(head + counts, tail);
  }

  /** Where each count sits among the lines. */
  lemma ResultCountsAt(date: string, directory: string, command: string, total: nat, success: nat, failed: nat)
    ensures var front := ResultHead(date, directory, command) + ResultCounts(total, success, failed);
      && |front| == 12
      && front[8] == "Total PHARs Tested: " + Decimal(total)
      && front[9] == "Successful: " + Decimal(success)
      && front[10] == "Failed: " + Decimal(failed)
  {
  }

  /** Where each count and each name sits among the lines. */
  lemma ResultLinesShape(date: string, directory: string, command: string, total: nat, success: nat,
                         failed: nat, names: seq<string>)
    ensures var lines := ResultLines(date, directory, command, total, success, failed, names);
      && |lines| == 12 + (if names == [] then 0 else 1 + |names|)
      && lines[8] == "Total PHARs Tested: " + Decimal(total)
      && lines[9] == "Successful: " + Decimal(success)
      && lines[10] == "Failed: " + Decimal(failed)
      && (names != [] ==> lines[12] == "Successful Gadgets:")
      && forall k :: 0 <= k < |names| ==> lines[13 + k] == "  - " + names[k]
  {
    var front := ResultHead(date, directory, command) + ResultCounts(total, success, failed);
    var tail := if names == [] then [] else ["Successful Gadgets:"] + Gadgets(names);
    ResultCountsAt(date, directory, command, total, success, failed);
    var lines := front + tail;
    assert lines[8] == front[8] && lines[9] == front[9] && lines[10] == front[10];
    forall k | 0 <= k < |names|
      ensures lines[13 + k] == "  - " + names[k]
    {
      assert lines[13 + k] == tail[1 + k] == Gadgets(names)[k];
    }
  }

  /**
   * The results file reads back as its lines: the discovered total, the
   * counters, and one bullet per successful archive in order.
   */
  lemma ResultReadsBack(date: string, directory: string, command: string, total: nat, success: nat,
                        failed: nat, names: seq<string>)
    requires NoNewline(date) && NoNewline(directory) && NoNewline(command) && AllPlain(names)
    ensures var lines := SplitLines(ResultText(date, directory, command, total, success, failed, names));
      && |lines| == 12 + (if names == [] then 0 else 1 + |names|)
      && lines[8] == "Total PHARs Tested: " + Decimal(total)
      && lines[9] == "Successful: " + Decimal(success)
      && lines[10] == "Failed: " + Decimal(failed)
      && forall k :: 0 <= k < |names| ==> lines[13 + k] == "  - " + names[k]
  {
    ResultLinesPlain(date, directory, command, total, success, failed, names);
    SplitUnLines(ResultLines(date, directory, command, total, success, failed, names));
    ResultLinesShape(date, directory, command, total, success, failed, names);
  }

  /* ---------- The script ---------- */

  /** test_phar: clear the marker, run the command, pause, look for the marker. */
  method TestPhar(host: Host, path: string, template: string, coracle: CommandOracle)
    returns (pocCreated: bool, execStatus: string)
    modifies host
    ensures pocCreated == Created(path, template, coracle)
    ensures execStatus == ExecStatus(coracle(BuildCommand(template, path)).exec)
    ensures host.events == old(host.events) + TestEvents(path, template, coracle)
  {
    host.CleanupPoc();
    var cmd := BuildCommand(template, path);
    var result := host.Execute(cmd, coracle);
    execStatus := ExecStatus(result);
    pocCreated := host.CheckPoc();
  }

  /**
   * One pass of the for loop's body: test the archive and count it; after a
   * success, read the next answer and remove the marker again when it is `y`.
   */
  method TestOne(host: Host, pharPath: string, template: string, coracle: CommandOracle, answers: seq<Answer>,
                 success0: nat, failed0: nat, names0: seq<string>, input: seq<Answer>,
                 ghost start: seq<Event>, ghost trace: seq<Event>)
    returns (success: nat, failed: nat, successfulPhars: seq<string>, rest: seq<Answer>, stop: Option<Ending>)
    modifies host
    requires success0 <= |answers| && input == answers[success0..]
    requires host.events == start + trace
    ensures var t := After(StepFile(Tally(success0, failed0, names0, trace), pharPath, template, coracle, answers));
      && success == t.success && failed == t.failed && successfulPhars == t.names
      && host.events == start + t.events
    ensures match StepFile(Tally(success0, failed0, names0, trace), pharPath, template, coracle, answers)
      case Next(_) => stop == None && success <= |answers| && rest == answers[success..]
      case Halt(_, e) => stop == Some(e)
  {
    success, failed, successfulPhars, rest, stop := success0, failed0, names0, input, None;
    var pharName := Basename(pharPath);
    var pocCreated, execStatus := TestPhar(host, pharPath, template, coracle);
    if pocCreated {
      success := success + 1;
      successfulPhars := successfulPhars + [pharName];
      if rest == [] {
        stop := Some(InputClosed);
        return;
      }
      var response := rest[0];
      rest := rest[1..];
      if response.Interrupt? || LowerStr(response.text) != "y" {
        stop := Some(StoppedByUser);
        return;
      }
      host.CleanupPoc();
    } else {
      failed := failed + 1;
    }
  }

  /**
   * The for loop of main: test each archive, count it, and after a success ask
   * whether to go on.
   */
  method TestAll(host: Host, files: seq<string>, template: string, coracle: CommandOracle, answers: seq<Answer>)
    returns (success: nat, failed: nat, successfulPhars: seq<string>, ending: Ending)
    modifies host
    ensures var r := RunAll(files, template, coracle, answers);
      && success == r.tally.success && failed == r.tally.failed
      && successfulPhars == r.tally.names && ending == r.ending
      && host.events == old(host.events) + r.tally.events
  {
    ghost var start := host.events;
    ghost var trace: seq<Event> := [];
    ghost var goal := RunAll(files, template, coracle, answers);
    success, failed, successfulPhars := 0, 0, [];
    var input := answers;
    var i := 0;
    while i < |files|
      invariant i <= |files|
      invariant host.events == start + trace
      invariant success <= |answers| && input == answers[success..]
      invariant RunFrom(Tally(success, failed, successfulPhars, trace), files, i, template, coracle, answers) == goal
    {
      ghost var step := StepFile(Tally(success, failed, successfulPhars, trace), files[i], template, coracle, answers);
      var stop;
      success, failed, successfulPhars, input, stop :=
        TestOne(host, files[i], template, coracle, answers, success, failed, successfulPhars, input, start, trace);
      trace := After(step).events;
      if stop.Some? {
        return success, failed, successfulPhars, stop.value;
      }
      i := i + 1;
    }
    ending := AllTested;
  }

  /** How the script ends. */
  datatype Outcome =
    | Usage              // fewer than two arguments
    | DirectoryNotFound  // the directory does not exist
    | NoPharFiles        // the glob matched nothing
    | InputError         // EOFError at the prompt: a traceback, nothing saved
    | Saved(results: string)

  /**
   * main: the argument check, discovery, the loop, and the results file, whose
   * total is the number of archives found even when the loop stopped early.
   * `date` stands for datetime.now().
   */
  method Execute(args: seq<string>, root: RootKind, listing: seq<Entry>, coracle: CommandOracle,
                 answers: seq<Answer>, date: string, host: Host)
    returns (outcome: Outcome, exitCode: int)
    modifies host
    ensures |args| < 3 ==> outcome == Usage
    ensures |args| >= 3 && root == Missing ==> outcome == DirectoryNotFound
    ensures |args| >= 3 && root != Missing && GlobFiles(root, listing) == [] ==> outcome == NoPharFiles
    ensures outcome.Usage? || outcome.DirectoryNotFound? || outcome.NoPharFiles? ==>
      host.events == old(host.events)
    ensures |args| >= 3 && root != Missing && GlobFiles(root, listing) != [] ==>
      var files := GlobFiles(root, listing);
      var r := RunAll(files, args[2], coracle, answers);
      && host.events == old(host.events) + r.tally.events
      && (r.ending == InputClosed ==> outcome == InputError)
      && (r.ending != InputClosed ==>
            outcome == Saved(ResultText(date, args[1], args[2], |files|, r.tally.success, r.tally.failed, r.tally.names)))
    ensures exitCode == 0 || exitCode == 1
    ensures exitCode == 0 <==>
      && |args| >= 3 && root != Missing && GlobFiles(root, listing) != []
      && RunAll(GlobFiles(root, listing), args[2], coracle, answers).ending != InputClosed
  {
    if |args| < 3 {
      outcome := Usage;
    } else if root == Missing {
      outcome := DirectoryNotFound;
    } else {
      var pharDir, phpCmd := args[1], args[2];
      var files := GlobFiles(root, listing);
      var total := |files|;
      if total == 0 {
        outcome := NoPharFiles;
      } else {
        var success, failed, successfulPhars, ending := TestAll(host, files, phpCmd, coracle, answers);
        if ending == InputClosed {
          outcome := InputError;
        } else {
          outcome := Saved(ResultText(date, pharDir, phpCmd, total, success, failed, successfulPhars));
        }
      }
    }
    exitCode := if outcome.Saved? then 0 else 1;
  }
}
