# PHAR gadget checker: a verified model

phpggc-fuzzer ships a small harness for probing PHAR archives. Such archives are
typically made by phpggc, and the harness looks for ones whose metadata runs a
gadget chain when deserialised. The four checkers walk a directory for `.phar` files
and sort them; `phar_test_advanced.php` instead takes a single archive. For every
archive a checker then:

- removes the indicator file `/tmp/poc`;
- applies one or more "trigger" operations (`phar://` stream calls, or a shell
  command);
- looks for the indicator afterwards.

It keeps counters and writes a results file. Five entry points differ in the details:

- **`phar_checker_auto.php`**, the `PharChecker` class:
  - a selector picks one of five triggers or all of them;
  - the marker is cleared before *every* trigger and checked after *every* trigger,
    even one that threw;
  - the first archive with a winning trigger ends the run;
  - `testedCount`, `successCount` and `failedCount`, a per-archive log entry and a
    summary are written.
- **`phar_checker_simple.php`**:
  - four fixed triggers;
  - the marker is cleared once per archive only;
  - a trigger that throws skips its check, so a marker it left is credited to the
    next trigger whose check runs, or to none.
- **`phar_checker_custom.php`**:
  - one user-supplied `customDeserialize` call per archive, checked even when it
    throws;
  - `$tested` is counted, and a success record is written.
- **`phar_checker.py`**:
  - one shell command per archive, built from a template with a `$PHAR` placeholder;
  - the status string of the command is reported, but success depends only on the
    marker;
  - after each success the user is asked whether to go on;
  - the totals and the successful archives are saved.
- **`phar_test_advanced.php`**: one archive and a digit selector guarding six
  `test_method` calls, each of which swallows what its trigger throws.

The model is in Dafny and is organised as follows:

- **The marker and the environment.** The marker is the `poc` field of
  `Environment.Host`. Everything done to the outside world is recorded in its
  `events` trace: marker cleared, trigger invoked, command executed, marker checked.
- **Trigger behaviour.** What a trigger does to an archive comes from an oracle,
  `(path, trigger) -> (setsMarker, throws)`. For the Python checker the oracle is
  `command -> (setsMarker, exit status)`.
- **Directory contents.** They are a listing of `(path, isFile)` entries.
- **Sorting.** `Ordering` holds an insertion sort proved to be the unique ascending
  permutation of its input.
- **The checkers.** Each one is a method or class whose new state is tied to
  specification functions (`FirstMarked`, `FirstVulnerable`, `Credited`, `FirstHit`,
  `RunAll`, `Enabled`). The lemmas about those functions state what the harness
  promises.
- **Shared logic.** The custom checker reuses the auto checker's scan over the
  one-entry table `[CustomDeserialize]`, because the two behave identically there.

## Model

| member | source | states |
|---|---|---|
| `Text.LowerStrLowers` | phar_checker_auto.php:78 | after strtolower no upper-case ASCII letter is left; each one became a lower-case letter, every other character is kept, and lowering again changes nothing |
| `Text.BasenameIsLastComponent` | phar_checker_auto.php:295 | basename is the longest '/'-free suffix of the path, preceded by a '/' when shorter than the path |
| `Text.BasenameWithoutSlash` | phar_checker_auto.php:183 | a name without '/' is its own basename |
| `Text.AfterLastDotIsSuffix` | phar_checker_auto.php:78 | getExtension is the '.'-free suffix after the last '.', and "" exactly when the name has no '.' |
| `Text.AfterLastDotAt` | phar_checker_auto.php:78 | a '.' with no '.' after it starts the extension |
| `Text.SplitUnLines` | phar_checker_auto.php:243-255 | text written as newline-terminated lines reads back as exactly those lines |
| `Text.Decimal` | phar_checker_auto.php:352-355 | an interpolated count is a non-empty run of decimal digits |
| `Text.DecimalValue` | phar_checker_auto.php:352-355 | the digits of an interpolated count read back as that count |
| `Text.DecimalInjective` | phar_checker_auto.php:352-355 | two counts interpolate to the same text only when they are equal |
| `Text.ReplaceAllAbsent` | phar_checker.py:58-59 | str.replace leaves a string without the pattern unchanged |
| `Text.ReplaceAllPassesText` | phar_checker.py:58-59 | text free of a pattern whose first character does not recur in it is copied unchanged up to the next occurrence |
| `Text.ReplaceAllJoin` | phar_checker.py:58-59 | for such a pattern, replacing it in pieces joined by it, where no piece holds it, puts the replacement in every slot and keeps every piece |
| `Text.ReplaceAllInserts` | phar_checker.py:58-59 | when the pattern occurs, the replacement appears in the result |
| `Ordering.LexTotal` | phar_checker_auto.php:83 | the path order compares any two paths |
| `Ordering.LexTransitive` | phar_checker_auto.php:83 | the path order is transitive |
| `Ordering.LexAntisymmetric` | phar_checker_auto.php:83 | two paths sorting at or before each other are equal |
| `Ordering.InsertKeepsSorted` | phar_checker_auto.php:83 | inserting a path into an ascending list keeps it ascending |
| `Ordering.Sort` | phar_checker_auto.php:83 | sort() returns an ascending permutation of its input |
| `Ordering.SortedUnique` | phar_checker_auto.php:83 | two ascending lists holding the same paths are identical |
| `Ordering.SortIgnoresOrder` | phar_checker_auto.php:83 | sorting depends only on which paths there are, not on their order |
| `Discovery.CollectMembers` | phar_checker_auto.php:77-81 | a path is collected iff some walked entry with that path passes the filter |
| `Discovery.CollectPermutation` | phar_checker_auto.php:72-81 | walking the same entries in another order collects the same paths as often |
| `Discovery.Discovered` | phar_checker_auto.php:71-84 | the discovered list is sorted and is a permutation of the filtered walk |
| `Discovery.DiscoveredMembers` | phar_checker_auto.php:77-84 | a path is discovered iff it is a regular file whose lower-cased extension is `phar` |
| `Discovery.FindPharFiles` | phar_checker_auto.php:71-84 | the append loop followed by the in-place sort yields exactly the discovered list |
| `Discovery.DiscoveryIgnoresWalkOrder` | phar_checker_auto.php:72-83 | the discovered list does not depend on the order the directory walk meets entries |
| `Discovery.PharExtensionIsSuffix` | phar_checker_simple.php:56 | the extension filter is a case-insensitive ".phar" suffix test, both directions |
| `Discovery.GlobFilesArePharPaths` | phar_checker.py:39 | among regular files, everything the `**/*.phar` glob yields the PHP filter also keeps |
| `Discovery.GlobFileIsPharFile` | phar_checker.py:39 | a regular file matching the glob passes the PHP filter |
| `Discovery.UpperCaseExtensionOnlyInPhp` | phar_checker.py:39 | `X.PHAR` passes the PHP filter but not the case-sensitive glob |
| `Discovery.DirectoryOnlyInGlob` | phar_checker.py:39 | a directory named `d.phar` matches the glob but not the PHP `isFile()` filter |
| `Environment.Host.CleanupPoc` | phar_checker_auto.php:90-94 | afterwards the marker is absent, and one clear is recorded |
| `Environment.Host.CheckPoc` | phar_checker_auto.php:99-103 | reports whether the marker is present and changes nothing but the record |
| `Environment.Host.Invoke` | phar_checker_auto.php:220 | a trigger call may set the marker, never clears it, and reports whether it threw |
| `Environment.Host.Execute` | phar_checker.py:65-79 | a shell command may set the marker, never clears it, and reports how it ended |
| `Registry.AutoTriggersTable` | phar_checker_auto.php:186-212 | each named selector yields its one trigger; `all` and any unknown selector yield the five in order |
| `Registry.AutoTableWellFormed` | phar_checker_auto.php:184-212 | every selector yields a non-empty table from the five, with distinct method names |
| `Registry.EnabledMembers` | phar_test_advanced.php:61-98 | a test runs iff it is in the script and `all` or its own digit was selected |
| `AutoChecker.FirstMarkedIsFirst` | phar_checker_auto.php:214-235 | no trigger before the winner sets the marker, and the winner does |
| `AutoChecker.AttemptTraceLength` | phar_checker_auto.php:214-233 | testPhar makes exactly three environment steps per trigger up to and including the winner |
| `AutoChecker.AttemptTraceAt` | phar_checker_auto.php:214-223 | attempt i is clear, call trigger i, check; the check finds the marker exactly when i is the winner |
| `AutoChecker.AttemptTraceInvokes` | phar_checker_auto.php:214-220 | testPhar calls only selected triggers, and only on its own archive |
| `AutoChecker.FirstVulnerableIsFirst` | phar_checker_auto.php:292-331 | no archive before the first vulnerable one has a winner, and that one has |
| `AutoChecker.ScanTraceIsPrefix` | phar_checker_auto.php:292-331 | the scan's effect is the attempts on the tested archives and nothing else |
| `AutoChecker.ScanStopsAtWinner` | phar_checker_auto.php:306-324 | once an archive succeeds, archives after it neither change the result nor are touched |
| `AutoChecker.ScanInvokesOnlyTested` | phar_checker_auto.php:292-331 | every trigger call is a selected trigger on an archive up to the first vulnerable one |
| `AutoChecker.FoundIsFirstWinner` | phar_checker_auto.php:300-340 | run returns nothing iff no archive has a winning trigger; otherwise it names the first such archive by basename and path, with the first trigger of the table that left the marker on it |
| `AutoChecker.RenderReadsBack` | phar_checker_auto.php:349-363 | every write to the results file (header, entry, summary) reads back as its lines |
| `AutoChecker.EntryStatusLine` | phar_checker_auto.php:243-253 | a log entry is `[ts] SUCCESS - name` plus method, path and a blank line, or `[ts] FAILED - name` alone |
| `AutoChecker.LogEntriesAt` | phar_checker_auto.php:292-304 | log entry i is archive i's |
| `AutoChecker.LogReportsOnlyWinner` | phar_checker_auto.php:292-331 | one entry per tested archive, and only the first vulnerable archive's reports success |
| `AutoChecker.MethodDefaultsToAll` | phar_checker_auto.php:184-212 | without a method argument all five triggers are tried; a known name narrows the table to its trigger, any other name tries all five |
| `AutoChecker.PharChecker.constructor` | phar_checker_auto.php:39-43 | counters start at zero, the table is the selector's, and nothing is written yet |
| `AutoChecker.PharChecker.Attempt` | phar_checker_auto.php:108-177 | a test method swallows any exception: it reports only whether the call threw |
| `AutoChecker.PharChecker.TestPhar` | phar_checker_auto.php:182-235 | testPhar returns the first marking trigger, having done exactly clear-call-check up to it |
| `AutoChecker.PharChecker.LogResult` | phar_checker_auto.php:241-256 | appends one log entry and leaves the counters alone |
| `AutoChecker.PharChecker.SaveSummary` | phar_checker_auto.php:346-365 | appends the summary with the current counters and the winner, leaving the counters alone |
| `AutoChecker.PharChecker.TestAndLog` | phar_checker_auto.php:293-304 | counts, tests and logs one archive, and tells whether it is the first vulnerable one |
| `AutoChecker.PharChecker.TestEach` | phar_checker_auto.php:292-331 | the foreach tests archives up to the first vulnerable one: tested = success + failed, success ≤ 1, one log entry each |
| `AutoChecker.PharChecker.Scan` | phar_checker_auto.php:292-340 | the foreach followed by exactly one summary write carrying the final counters |
| `AutoChecker.PharChecker.Run` | phar_checker_auto.php:261-341 | header first; missing directory or no archives touch nothing; otherwise the scan's counters, log and summary |
| `AutoChecker.Execute` | phar_checker_auto.php:381-407 | the exit status is 0 or 1, and 0 exactly when the directory exists and some discovered archive has a winning trigger |
| `CustomChecker.CheckedDespiteException` | phar_checker_custom.php:139-156 | each archive is clear, call, check even if the call throws, and succeeds iff the call set the marker |
| `CustomChecker.RecordReadsBack` | phar_checker_custom.php:172-181 | the success record holds the file name, the full path and `tested/total` on their own lines |
| `CustomChecker.FoundIsFirstMarking` | phar_checker_custom.php:132-186 | on success `$tested` is the winner's 1-based position and no earlier archive set the marker |
| `CustomChecker.NotFoundTestsAll` | phar_checker_custom.php:132-204 | with no success every archive was tested and none set the marker |
| `CustomChecker.TestPhar` | phar_checker_custom.php:138-156 | one archive is clear, call, check, and reports whether the call set the marker |
| `CustomChecker.TestAt` | phar_checker_custom.php:133-156 | testing the next archive extends the scan by one and decides whether it is the winner |
| `CustomChecker.TestUntilFound` | phar_checker_custom.php:132-192 | the loop stops at the first marking archive with `$tested` its position, or tests all |
| `CustomChecker.Scan` | phar_checker_custom.php:132-204 | the scan ends in the success record for the first marking archive, or in the summary for all |
| `CustomChecker.Execute` | phar_checker_custom.php:81-204 | usage, missing directory and no archives exit 1 before any call; otherwise exit 0 iff some archive set the marker |
| `SimpleChecker.CreditedIsFirstCheckSeeingMarker` | phar_checker_simple.php:95-110 | the reported method is the first non-throwing call after which the marker is present |
| `SimpleChecker.ThrowingMarkerCreditedToNextCheck` | phar_checker_simple.php:96-109 | a marker set by a throwing call is credited to the next call that returns normally |
| `SimpleChecker.MarkerAfterLastCheckIsLost` | phar_checker_simple.php:96-110 | a marker set when every later call throws is never reported |
| `SimpleChecker.CreditedWithoutThrowsIsFirstMarked` | phar_checker_simple.php:95-104 | when nothing throws, the reported method is the first one that sets the marker |
| `SimpleChecker.CreditedStops` | phar_checker_simple.php:100-104 | calls after the credited one are never made |
| `SimpleChecker.TriggerTraceNeverClears` | phar_checker_simple.php:95-110 | the marker is not cleared between the calls on one archive |
| `SimpleChecker.TriggerTraceInvokes` | phar_checker_simple.php:95-97 | the calls on one archive are listed triggers on that archive |
| `SimpleChecker.ClearedOncePerArtifact` | phar_checker_simple.php:79-97 | each archive begins with one clear and has no other |
| `SimpleChecker.FirstHitIsFirst` | phar_checker_simple.php:73-129 | no archive before the first hit has a reported method, and that one has |
| `SimpleChecker.ScanEventsInvoke` | phar_checker_simple.php:73-110 | every call made is one of the four fixed triggers on a tested archive |
| `SimpleChecker.ArtifactInvokes` | phar_checker_simple.php:85-97 | testing an archive calls only the four fixed triggers on it |
| `SimpleChecker.NoStatNorInclude` | phar_checker_simple.php:85-90 | the fixed table has neither stat nor include |
| `SimpleChecker.ScanTouchesOnlyTested` | phar_checker_simple.php:112-123 | archives after the first hit are never touched |
| `SimpleChecker.SimpleFoundIsFirstHit` | phar_checker_simple.php:112-129 | there is no report iff no archive has a credited method; otherwise it names the first such archive by basename and path, with its credited method |
| `SimpleChecker.TryCall` | phar_checker_simple.php:96-109 | a call that throws skips its check; one that returns reports whether the marker is there |
| `SimpleChecker.CallInOrder` | phar_checker_simple.php:92-110 | the closures run in order until the credited one, whose method is reported |
| `SimpleChecker.TestPhar` | phar_checker_simple.php:79-110 | one clear, then the closures; reports the credited method |
| `SimpleChecker.Scan` | phar_checker_simple.php:72-136 | archives are tested up to the first hit, which is reported; otherwise all are tested |
| `SimpleChecker.Execute` | phar_checker_simple.php:27-136 | usage, missing directory and no archives exit 1 before any call; otherwise exit 0 iff some check found the marker |
| `AdvancedTest.DefaultRunsAll` | phar_test_advanced.php:30-98 | without a selector argument all six tests run; with one, exactly the tests it enables |
| `AdvancedTest.ReportsAt` | phar_test_advanced.php:44-58 | every test is reported in order, throwing or not, and a throw is reported as such |
| `AdvancedTest.AnySetsIff` | phar_test_advanced.php:44-98 | the marker ends up set iff one of the tests that ran set it |
| `AdvancedTest.AllRunsSix` | phar_test_advanced.php:61-98 | `all` runs file_get_contents, file_exists, fopen, is_file, stat, include in that order |
| `AdvancedTest.FourRunsTwo` | phar_test_advanced.php:82-91 | `4` runs is_file then stat |
| `AdvancedTest.DigitRunsOne` | phar_test_advanced.php:61-98 | `1`, `2`, `3` and `5` each run exactly their own test |
| `AdvancedTest.UnknownRunsNothing` | phar_test_advanced.php:61-102 | a selector runs no test iff it is neither `all` nor one of the five digits |
| `AdvancedTest.EnabledByBlocks` | phar_test_advanced.php:61-98 | the guarded blocks run exactly what the table selects, for every selector |
| `AdvancedTest.TestMethod` | phar_test_advanced.php:44-58 | test_method calls the test once, reports whether it threw, and lets nothing escape |
| `AdvancedTest.RunBlock` | phar_test_advanced.php:61-65 | a guarded block runs its test iff its digit or `all` was selected |
| `AdvancedTest.RunStatBlock` | phar_test_advanced.php:82-91 | the `4` block runs is_file then stat iff `4` or `all` was selected |
| `AdvancedTest.RunTests` | phar_test_advanced.php:60-98 | the script runs exactly the selected tests in order, and reports each |
| `AdvancedTest.Execute` | phar_test_advanced.php:16-102 | usage or a missing file runs nothing and exits 1; otherwise the selected tests run on the resolved path and the script ends normally |
| `PyChecker.CommandFillsEverySlot` | phar_checker.py:58-59 | in a template whose pieces between `$PHAR` placeholders hold no placeholder (they may hold `$argv` and other `$` words), every placeholder is replaced by the path and every piece is kept |
| `PyChecker.CommandAppendsPath` | phar_checker.py:60-61 | a template without the placeholder gets a space and the path appended |
| `PyChecker.CommandContainsPath` | phar_checker.py:58-61 | the built command always mentions the archive path |
| `PyChecker.ExecStatusSuccessIff` | phar_checker.py:75 | the status is `success` exactly when the command exited with 0 |
| `PyChecker.ExecStatusTellsKind` | phar_checker.py:75-79 | the status distinguishes exit, timeout and exception |
| `PyChecker.StatusLetters` | phar_checker.py:75-79 | the statuses start `su`, `er`, `ti` or `ex` according to how the command ended |
| `PyChecker.GlobFiles` | phar_checker.py:32-40 | the glob's matches sorted for a directory, none for an existing non-directory |
| `PyChecker.StepAnswers` | phar_checker.py:156-175 | after a success the loop goes on only past a `y`, stops on any other answer or Ctrl-C, and fails when input runs out |
| `PyChecker.RunFromListing` | phar_checker.py:144-181 | the names list holds the successful archives in scan order, and the success counter counts them |
| `PyChecker.RunFromAnswers` | phar_checker.py:156-175 | each success reads one answer; the loop ends on the first non-`y` or when answers run out |
| `PyChecker.RunFromCount` | phar_checker.py:149-181 | the loop tests every remaining archive unless it stops, and then at least one more |
| `PyChecker.RunCount` | phar_checker.py:149-181 | success + failed never exceeds the archive count, and equals it when nothing stopped the loop |
| `PyChecker.RunNames` | phar_checker.py:144-181 | from empty counters, `successful_phars` lists the successful archives in order and `success` counts them |
| `PyChecker.RunAnswers` | phar_checker.py:166-173 | every success but the last was answered `y`; the loop ends on the first other answer or at end of input |
| `PyChecker.StepTrace` | phar_checker.py:150-178 | one iteration adds the next archive's clear, command and check, plus a second clear after a success the user answered `y` to; it stops only right after a success |
| `PyChecker.RunFromTrace` | phar_checker.py:149-181 | from any point of the loop, the effects stay those of the archives passed so far, each preceded by its clear |
| `PyChecker.RunTrace` | phar_checker.py:149-181 | the whole loop's effects are each tested archive's clear, command and check in order, with one extra clear after each success it went on past; a stopped loop ends right after the stopping success's check |
| `PyChecker.ResultLinesShape` | phar_checker.py:89-107 | totals on lines 8-10, then the successful archives one per line when there are any |
| `PyChecker.ResultReadsBack` | phar_checker.py:89-107 | the results file reads back with the total, the counters and each successful archive |
| `PyChecker.TestPhar` | phar_checker.py:50-87 | clear, run the built command, look; the verdict is the marker's presence, whatever the status |
| `PyChecker.TestOne` | phar_checker.py:150-181 | one iteration counts the archive and, after a success, reads an answer and clears the marker on `y` |
| `PyChecker.TestAll` | phar_checker.py:144-181 | the loop's counters, list, ending and effects are those of the loop's specification |
| `PyChecker.Execute` | phar_checker.py:109-184 | usage, missing directory and no matches exit 1 before any command; otherwise the results file reports the discovered total; the exit status is 0 exactly when the loop ran and did not end at a closed input |

## Left out

- The `phar://` operations (file_get_contents, file_exists, fopen, is_file, stat, include), `customDeserialize` and PHAR metadata deserialisation are foreign calls. Each is an oracle saying whether a call sets the marker and whether it throws.
- `RecursiveDirectoryIterator`, `Path.glob`, `is_dir` and `exists` are inputs: a listing of `(path, isFile)` entries and a root kind. `unlink` and `file_exists` on `/tmp/poc` are the `poc` field of the host.
- `file_put_contents` and Python's `open().write` are modelled as the text or writes they produce. The timestamped result file names are left out.
- The `usleep` and `time.sleep` settle delays are left out. So is the race they paper over, where the marker appears after the check.
- `date()`, `datetime.now()` and `microtime()` are string parameters. The rounded duration (`round(..., 2)`, floating point) is a string parameter too.
- `subprocess.run`, the shell and its 10-second timeout are an oracle from the command to an exit code, a timeout or an exception.
- `input()` is a sequence of answers. Ctrl-C at the prompt is one kind of answer. Running out of answers stands for EOFError, which ends the script without a results file.
- A KeyboardInterrupt anywhere other than the prompt is left out.
- ANSI colours, banners, progress lines and usage text are left out. Only which branch is taken is modelled.
- In phar_test_advanced.php, `$method == '1'` is loose PHP `==`. It is modelled as exact string equality, so numeric-string coercions such as `"01"` are not captured.
- PHP `sort()` with SORT_REGULAR is approximated by character-wise lexicographic order. This drops its numeric-string comparisons.
- Python's `sorted()` on `Path` objects compares path parts, not whole strings. It is approximated by the same lexicographic order on strings.
- `str(Path)` normalisation, such as collapsing `//` or a trailing `/`, is left out. Paths are taken as given.
- `realpath` in phar_test_advanced.php is a parameter, the resolved path.
- The directory argument's own validity (`is_dir` against `exists`) is modelled only as far as the checks in the source go. The Python checker accepts an existing regular file, and its glob then yields nothing.
- phar_test_simple.php is not part of this model. It is one guarded foreign call with nothing to state.
- Process exit is modelled as an exit-code result of each script's `Execute`, not as control flow that ends the program.
- Environment.Host.CleanupPoc: removing `/tmp/poc` is assumed always to succeed. The source ignores a failed removal (`@unlink`, `except OSError: pass`), after which a stale marker would be seen by the next check. `AutoChecker.AttemptTraceAt`, `CustomChecker.FoundIsFirstMarking` and `SimpleChecker.CreditedIsFirstCheckSeeingMarker` rely on this.
- A foreign call that ends the process, such as `exit()` inside a gadget or a fatal error that is not a `Throwable`, is not modelled. The oracle only lets a call return or throw.
