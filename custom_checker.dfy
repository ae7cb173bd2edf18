/**
 * phar_checker_custom.php: a top-level script. For each discovered archive it
 * clears /tmp/poc, calls the user-supplied `customDeserialize` inside try/catch,
 * and then looks for the marker whatever the call did; the first archive that
 * leaves it ends the script with status 0 and a success record.
 *
 * With one trigger per archive, cleared before and checked after even when it
 * throws, this is exactly the scan of phar_checker_auto.php over the one-entry
 * table [CustomDeserialize], and the model reuses that scan's definitions.
 */
module CustomChecker {

  import opened Wrappers
  import opened Text
  import opened Registry
  import opened Environment
  import opened Discovery
  import Auto = AutoChecker

  /** The one trigger of every archive. */
  const Single: seq<Trigger> := [CustomDeserialize]

  /** The indicator file the script watches. */
  const PocFile: string := "/tmp/poc"

  /**
   * An exception from customDeserialize does not skip the check: each archive is
   * clear, call, check, and it succeeds exactly when the call left the marker.
   */
  lemma CheckedDespiteException(path: string, oracle: Oracle)
    ensures Auto.AttemptTrace(path, Single, oracle)
         == [Cleared, Invoked(path, CustomDeserialize), Checked(oracle(path, CustomDeserialize).setsMarker)]
    ensures Auto.Winner(path, Single, oracle).Some? <==> oracle(path, CustomDeserialize).setsMarker
  {
    assert Single[1..] == [];
  }

  /* ---------- The success record ---------- */

  /** The lines of the success record, in the order they are appended to `$resultContent`. */
  function RecordLines(date: string, name: string, path: string, tested: nat, total: nat, duration: string)
    : seq<string>
  {
    RecordHead(date, name, path) + RecordTail(tested, total, duration)
  }

  function RecordHead(date: string, name: string, path: string): seq<string> {
    ["VULNERABLE PHAR FOUND", Repeat('=', 50), "Date: " + date, "PHAR File: " + name, "Full Path: " + path]
  }

  function RecordTail(tested: nat, total: nat, duration: string): seq<string> {
    ["POC File: " + PocFile, TestedLine(tested, total), "Duration: " + duration + " seconds"]
  }

  function TestedLine(tested: nat, total: nat): string {
    "Tested: " + Decimal(tested) + "/" + Decimal(total) + " PHARs"
  }

  /** The text written to the results file: each line followed by a newline. */
  function SuccessRecord(date: string, name: string, path: string, tested: nat, total: nat, duration: string)
    : string
  {
    UnLines(RecordLines(date, name, path, tested, total, duration))
  }

  lemma ConcatPlain(a: string, b: string)
    requires NoNewline(a) && NoNewline(b)
    ensures NoNewline(a + b)
  {
    assert forall c :: c in a + b ==> c in a || c in b;
  }

  lemma TestedLinePlain(tested: nat, total: nat)
    ensures NoNewline(TestedLine(tested, total))
  {
    assert NoNewline(Decimal(tested)) && NoNewline(Decimal(total));
    ConcatPlain("Tested: ", Decimal(tested));
    ConcatPlain("Tested: " + Decimal(tested), "/");
    ConcatPlain("Tested: " + Decimal(tested) + "/", Decimal(total));
    ConcatPlain("Tested: " + Decimal(tested) + "/" + Decimal(total), " PHARs");
  }

  lemma RecordHeadPlain(date: string, name: string, path: string)
    requires NoNewline(date) && NoNewline(name) && NoNewline(path)
    ensures var lines := RecordHead(date, name, path);
      forall i :: 0 <= i < |lines| ==> NoNewline(lines[i])
  {
    assert NoNewline(Repeat('=', 50));
    ConcatPlain("Date: ", date);
    ConcatPlain("PHAR File: ", name);
    ConcatPlain("Full Path: ", path);
  }

  lemma RecordTailPlain(tested: nat, total: nat, duration: string)
    requires NoNewline(duration)
    ensures var lines := RecordTail(tested, total, duration);
      forall i :: 0 <= i < |lines| ==> NoNewline(lines[i])
  {
    TestedLinePlain(tested, total);
    ConcatPlain("Duration: ", duration);
    ConcatPlain("Duration: " + duration, " seconds");
  }

  lemma RecordLinesPlain(date: string, name: string, path: string, tested: nat, total: nat, duration: string)
    requires NoNewline(date) && NoNewline(name) && NoNewline(path) && NoNewline(duration)
    ensures var lines := RecordLines(date, name, path, tested, total, duration);
      forall i :: 0 <= i < |lines| ==> NoNewline(lines[i])
  {
    var head := RecordHead(date, name, path);
    var tail := RecordTail(tested, total, duration);
    RecordHeadPlain(date, name, path);
    RecordTailPlain(tested, total, duration);
    assert forall i :: 0 <= i < |head + tail| ==> (head + tail)[i] == if i < |head| then head[i] else tail[i - |head|];
  }

  /**
   * The record reads back line by line: the archive's name, its full path, and
   * how many of how many archives were tested can be recovered from it.
   */
  lemma RecordReadsBack(date: string, name: string, path: string, tested: nat, total: nat, duration: string)
    requires NoNewline(date) && NoNewline(name) && NoNewline(path) && NoNewline(duration)
    ensures var lines := SplitLines(SuccessRecord(date, name, path, tested, total, duration));
      && |lines| == 8
      && lines[3] == "PHAR File: " + name
      && lines[4] == "Full Path: " + path
      && lines[6] == "Tested: " + Decimal(tested) + "/" + Decimal(total) + " PHARs"
  {
    RecordLinesPlain(date, name, path, tested, total, duration);
    SplitUnLines(RecordLines(date, name, path, tested, total, duration));
  }

  /* ---------- The scan ---------- */

  /** What the script reports on success. */
  datatype Success = Success(pharName: string, pharPath: string, tested: nat, record: string)

  /** The success the scan ends with, if any: the first archive whose call leaves the marker. */
  function CustomFound(files: seq<string>, oracle: Oracle, date: string, duration: string): Option<Success> {
    var n := Auto.FirstVulnerable(files, Single, oracle);
    if n < |files| then Some(SuccessAt(files, n, date, duration)) else None
  }

  /** The report for the archive at `index`, the `index + 1`-th tested. */
  function SuccessAt(files: seq<string>, index: nat, date: string, duration: string): Success
    requires index < |files|
  {
    var name := Basename(files[index]);
    Success(name, files[index], index + 1, SuccessRecord(date, name, files[index], index + 1, |files|, duration))
  }

  /**
   * On success, `$tested` is the winner's 1-based position: the call on every
   * earlier archive left no marker, and the one on the winner did.
   */
  lemma FoundIsFirstMarking(files: seq<string>, oracle: Oracle, date: string, duration: string)
    requires CustomFound(files, oracle, date, duration).Some?
    ensures var s := CustomFound(files, oracle, date, duration).value;
      && 1 <= s.tested <= |files|
      && s.tested == Auto.Tested(files, Single, oracle)
      && s.pharPath == files[s.tested - 1]
      && oracle(files[s.tested - 1], CustomDeserialize).setsMarker
      && forall i :: 0 <= i < s.tested - 1 ==> !oracle(files[i], CustomDeserialize).setsMarker
  {
    var n := Auto.FirstVulnerable(files, Single, oracle);
    Auto.FirstVulnerableIsFirst(files, Single, oracle);
    CheckedDespiteException(files[n], oracle);
    forall i | 0 <= i < n
      ensures !oracle(files[i], CustomDeserialize).setsMarker
    {
      CheckedDespiteException(files[i], oracle);
    }
  }

  /** No success means no archive's call left the marker, and every archive was tested. */
  lemma NotFoundTestsAll(files: seq<string>, oracle: Oracle, date: string, duration: string)
    requires CustomFound(files, oracle, date, duration).None?
    ensures Auto.Tested(files, Single, oracle) == |files|
    ensures forall i :: 0 <= i < |files| ==> !oracle(files[i], CustomDeserialize).setsMarker
  {
    Auto.FirstVulnerableIsFirst(files, Single, oracle);
    forall i | 0 <= i < |files|
      ensures !oracle(files[i], CustomDeserialize).setsMarker
    {
      CheckedDespiteException(files[i], oracle);
    }
  }

  /** How the script ends. */
  datatype Outcome =
    | Usage                 // no directory argument
    | DirectoryNotFound     // is_dir failed
    | NoPharFiles           // nothing matched
    | Vulnerable(success: Success)
    | NoneVulnerable(tested: nat)

  /* ---------- The script ---------- */

  /** One archive: remove /tmp/poc, call customDeserialize, swallow what it throws, pause, look. */
  method TestPhar(host: Host, path: string, oracle: Oracle) returns (present: bool)
    modifies host
    ensures present == Auto.Winner(path, Single, oracle).Some?
    ensures host.events == old(host.events) + Auto.AttemptTrace(path, Single, oracle)
  {
    host.CleanupPoc();
    var threw := host.Invoke(path, CustomDeserialize, oracle);
    present := host.CheckPoc();
    CheckedDespiteException(path, oracle);
  }

  /** TestPhar on the next archive of the scan, which then has reached one archive further. */
  method TestAt(host: Host, files: seq<string>, oracle: Oracle, index: nat, ghost start: seq<Event>)
    returns (present: bool)
    modifies host
    requires index < |files| && Auto.FirstVulnerable(files, Single, oracle) >= index
    requires host.events == start + Auto.ScanPrefix(files, Single, oracle, index)
    ensures present ==> Auto.FirstVulnerable(files, Single, oracle) == index
    ensures !present ==> Auto.FirstVulnerable(files, Single, oracle) > index
    ensures host.events == start + Auto.ScanPrefix(files, Single, oracle, index + 1)
  {
    Auto.FirstVulnerableStep(files, Single, oracle, index);
    ghost var before := host.events;
    present := TestPhar(host, files[index], oracle);
    Auto.ScanAdvance(files, Single, oracle, index, start, before, host.events);
  }

  /**
   * The foreach over the sorted archives: test one after another until a call
   * leaves the marker. `tested` is `$tested`, the number of archives tested.
   */
  method TestUntilFound(host: Host, files: seq<string>, oracle: Oracle) returns (tested: nat, present: bool)
    modifies host
    ensures host.events == old(host.events) + Auto.ScanTrace(files, Single, oracle)
    ensures present <==> Auto.FirstVulnerable(files, Single, oracle) < |files|
    ensures present ==> tested == Auto.FirstVulnerable(files, Single, oracle) + 1
    ensures !present ==> tested == |files|
  {
    ghost var start := host.events;
    tested := 0;
    present := false;
    while tested < |files| && !present
      invariant tested <= |files|
      invariant host.events == start + Auto.ScanPrefix(files, Single, oracle, tested)
      invariant !present ==> Auto.FirstVulnerable(files, Single, oracle) >= tested
      invariant present ==> 0 < tested && Auto.FirstVulnerable(files, Single, oracle) == tested - 1
    {
      present := TestAt(host, files, oracle, tested, start);
      tested := tested + 1;
    }
    Auto.ScanDone(files, Single, oracle, tested, start, host.events);
  }

  /** The foreach, then the two ways out of the script after it: the success report or the summary. */
  method Scan(host: Host, files: seq<string>, oracle: Oracle, date: string, duration: string)
    returns (outcome: Outcome)
    modifies host
    ensures host.events == old(host.events) + Auto.ScanTrace(files, Single, oracle)
    ensures var found := CustomFound(files, oracle, date, duration);
      && (found.Some? ==> outcome == Vulnerable(found.value))
      && (found.None? ==> outcome == NoneVulnerable(|files|))
  {
    var tested, present := TestUntilFound(host, files, oracle);
    if present {
      outcome := Vulnerable(SuccessAt(files, tested - 1, date, duration));
    } else {
      outcome := NoneVulnerable(tested);
    }
  }

  /**
   * The script: the argument check, the directory check, discovery, the scan,
   * and the exit status, which is 0 exactly when the call on some discovered
   * archive under an existing directory left the marker.
   */
  method Execute(args: seq<string>, root: RootKind, listing: seq<Entry>, oracle: Oracle,
                 date: string, duration: string, host: Host)
    returns (outcome: Outcome, exitCode: int)
    modifies host
    ensures |args| < 2 ==> outcome == Usage
    ensures |args| >= 2 && root != Directory ==> outcome == DirectoryNotFound
    ensures |args| >= 2 && root == Directory && Discovered(listing) == [] ==> outcome == NoPharFiles
    ensures outcome.Usage? || outcome.DirectoryNotFound? || outcome.NoPharFiles? ==>
      host.events == old(host.events)
    ensures |args| >= 2 && root == Directory && Discovered(listing) != [] ==>
      host.events == old(host.events) + Auto.ScanTrace(Discovered(listing), Single, oracle)
    ensures exitCode == 0 || exitCode == 1
    ensures exitCode == 0 <==>
      && |args| >= 2 && root == Directory
      && exists i :: 0 <= i < |Discovered(listing)| && oracle(Discovered(listing)[i], CustomDeserialize).setsMarker
  {
    if |args| < 2 {
      outcome := Usage;
    } else if root != Directory {
      outcome := DirectoryNotFound;
    } else {
      var files := FindPharFiles(listing);
      if |files| == 0 {
        outcome := NoPharFiles;
      } else {
        outcome := Scan(host, files, oracle, date, duration);
        if outcome.Vulnerable? {
          FoundIsFirstMarking(files, oracle, date, duration);
        } else {
          NotFoundTestsAll(files, oracle, date, duration);
        }
      }
    }
    exitCode := if outcome.Vulnerable? then 0 else 1;
  }
}
