/**
 * The trigger operations and the tables that say which of them each checker
 * runs, and in which order.
 */
module Registry {

  /** The phar:// stream operations (and the user-supplied deserialisation hook). */
  datatype Trigger =
    | FileGetContents
    | FileExists
    | Fopen
    | IsFile
    | Stat
    | StatIsFile        // is_file then stat, one attempt in phar_checker_auto.php
    | Include
    | CustomDeserialize // customDeserialize() of phar_checker_custom.php

  /** The method name the checkers report for a trigger. */
  function Label(t: Trigger): string {
    match t
    case FileGetContents => "file_get_contents"
    case FileExists => "file_exists"
    case Fopen => "fopen"
    case IsFile => "is_file"
    case Stat => "stat"
    case StatIsFile => "stat/is_file"
    case Include => "include"
    case CustomDeserialize => "customDeserialize"
  }

  /** phar_checker_auto.php's table for `all`, in iteration order. */
  const AllAuto: seq<Trigger> := [FileGetContents, FileExists, Fopen, StatIsFile, Include]

  /** The selectors that narrow phar_checker_auto.php's table to one trigger. */
  const SingleSelectors: map<string, Trigger> :=
    map["file_get" := FileGetContents, "file_exists" := FileExists, "fopen" := Fopen,
        "stat" := StatIsFile, "include" := Include]

  /** The switch of testPhar: a named selector picks one trigger, anything else all five. */
  function AutoTriggers(selector: string): seq<Trigger> {
    if selector == "file_get" then [FileGetContents]
    else if selector == "file_exists" then [FileExists]
    else if selector == "fopen" then [Fopen]
    else if selector == "stat" then [StatIsFile]
    else if selector == "include" then [Include]
    else AllAuto
  }

  /** A named selector picks its one trigger; `all` and every unknown selector pick the full table. */
  lemma AutoTriggersTable(selector: string)
    ensures selector in SingleSelectors ==> AutoTriggers(selector) == [SingleSelectors[selector]]
    ensures selector !in SingleSelectors ==> AutoTriggers(selector) == AllAuto
  {
  }

  /**
   * Every selector gives a non-empty table drawn from the full one, with distinct
   * method names (the table is a PHP array keyed by name), so no trigger is
   * attempted twice on one archive.
   */
  lemma AutoTableWellFormed(selector: string)
    ensures AutoTriggers(selector) != []
    ensures forall t :: t in AutoTriggers(selector) ==> t in AllAuto
    ensures forall i, j :: 0 <= i < j < |AutoTriggers(selector)| ==>
      Label(AutoTriggers(selector)[i]) != Label(AutoTriggers(selector)[j])
  {
  }

  /** phar_checker_simple.php's fixed table: no include, is_file alone. */
  const SimpleTriggers: seq<Trigger> := [FileGetContents, FileExists, Fopen, IsFile]

  /** phar_test_advanced.php's tests in script order. */
  const AdvancedOrder: seq<Trigger> := [FileGetContents, FileExists, Fopen, IsFile, Stat, Include]

  /** The digit selector that guards a test of phar_test_advanced.php. */
  function AdvancedGroup(t: Trigger): string {
    match t
    case FileGetContents => "1"
    case FileExists => "2"
    case Fopen => "3"
    case IsFile => "4"
    case Stat => "4"
    case Include => "5"
    case _ => ""
  }

  /** The tests of `ts` that `selector` enables, in order. */
  function Enabled(ts: seq<Trigger>, selector: string): (r: seq<Trigger>)
    ensures |r| <= |ts|
  {
    if ts == [] then []
    else
      (if selector == "all" || AdvancedGroup(ts[0]) == selector then [ts[0]] else [])
      + Enabled(ts[1..], selector)
  }

  /** A test is enabled exactly when it is in the table and `all` or its own digit was selected. */
  lemma {:induction false} EnabledMembers(ts: seq<Trigger>, selector: string, t: Trigger)
    ensures t in Enabled(ts, selector) <==> t in ts && (selector == "all" || AdvancedGroup(t) == selector)
  {
    if ts != [] {
      EnabledMembers(ts[1..], selector, t);
      assert ts == [ts[0]] + ts[1..];
    }
  }
}
