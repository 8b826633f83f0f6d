/**
 * The command-line option map of the user interface: every known option is
 * first set to its default, then the arguments are read left to right. A
 * "-name" argument stores the argument after it when that one does not start
 * with '-' (and consumes it), or "true" otherwise; any other argument is
 * skipped. A Java null stored in the map is `None`.
 */
module UiOptions {
  import opened Wrappers

  /** A row of the options table: the name and the default value (null when absent). */
  datatype OptionEntry = OptionEntry(name: string, default: Option<string>)

  /** The known options in table order; the help texts are not modelled. */
  const OPTIONS: seq<OptionEntry> := [
    OptionEntry("help", None),
    OptionEntry("gui", None),
    OptionEntry("noIntro", None),
    OptionEntry("printNoBoards", None),
    OptionEntry("size", Some("19x19")),
    OptionEntry("xInARow", Some("5")),
    OptionEntry("block", Some("")),
    OptionEntry("joker", Some("")),
    OptionEntry("whiteAuto", None),
    OptionEntry("blackAuto", None),
    OptionEntry("showAutoDebugMatrix", None)
  ]

  /** The map from option names to stored values (a stored null is `None`). */
  type OptionMap = map<string, Option<string>>

  /** No two entries of the table share a name. */
  predicate DistinctNames(entries: seq<OptionEntry>) {
    forall i, j :: 0 <= i < j < |entries| ==> entries[i].name != entries[j].name
  }

  /** The map after putting the first k table entries, in order. */
  function PutEntries(m: OptionMap, entries: seq<OptionEntry>, k: nat): (r: OptionMap)
    requires k <= |entries|
    ensures forall name :: name in m ==> name in r
    ensures forall i :: 0 <= i < k ==> entries[i].name in r
  {
    if k == 0 then m else PutEntries(m, entries, k - 1)[entries[k - 1].name := entries[k - 1].default]
  }

  /** Every put entry maps its name to its default when the names are distinct. */
  lemma {:induction false} PutEntriesStoresDefaults(m: OptionMap, entries: seq<OptionEntry>, k: nat)
    requires k <= |entries| && DistinctNames(entries)
    ensures forall i :: 0 <= i < k ==> PutEntries(m, entries, k)[entries[i].name] == entries[i].default
  {
    if k > 0 {
      PutEntriesStoresDefaults(m, entries, k - 1);
    }
  }

  /** The argument begins with '-'. */
  predicate IsFlag(arg: string) {
    |arg| > 0 && arg[0] == '-'
  }

  /**
   * The (name, value) puts the argument loop makes from position i on, in
   * order: a flag with a following non-flag takes it as value and skips it, a
   * flag without one gets "true", and any other argument is skipped.
   */
  function Assignments(args: seq<string>, i: nat): (puts: seq<(string, string)>)
    requires i <= |args|
    ensures |puts| <= |args| - i
    decreases |args| - i
  {
    if i == |args| then []
    else if IsFlag(args[i]) then
      if i < |args| - 1 && !IsFlag(args[i + 1]) then
        [(args[i][1..], args[i + 1])] + Assignments(args, i + 2)
      else
        [(args[i][1..], "true")] + Assignments(args, i + 1)
    else Assignments(args, i + 1)
  }

  /** The map after making the puts in order; a later put of a name overwrites. */
  function ApplyAll(m: OptionMap, puts: seq<(string, string)>): (r: OptionMap)
    ensures forall name :: name in m ==> name in r
    ensures forall k :: 0 <= k < |puts| ==> puts[k].0 in r
    decreases |puts|
  {
    if puts == [] then m else ApplyAll(m[puts[0].0 := Some(puts[0].1)], puts[1..])
  }

  /** A put appended at the end decides its name's value. */
  lemma {:induction false} ApplyAllSnoc(m: OptionMap, puts: seq<(string, string)>, name: string, value: string)
    ensures ApplyAll(m, puts + [(name, value)]) == ApplyAll(m, puts)[name := Some(value)]
    decreases |puts|
  {
    if puts == [] {
      assert [(name, value)][1..] == [];
    } else {
      assert (puts + [(name, value)])[1..] == puts[1..] + [(name, value)];
      ApplyAllSnoc(m[puts[0].0 := Some(puts[0].1)], puts[1..], name, value);
    }
  }

  /** A name no put mentions keeps the value it had before. */
  lemma {:induction false} ApplyAllUntouched(m: OptionMap, puts: seq<(string, string)>, name: string)
    requires forall k :: 0 <= k < |puts| ==> puts[k].0 != name
    ensures name in ApplyAll(m, puts) <==> name in m
    ensures name in m ==> ApplyAll(m, puts)[name] == m[name]
    decreases |puts|
  {
    if puts != [] {
      ApplyAllUntouched(m[puts[0].0 := Some(puts[0].1)], puts[1..], name);
    }
  }

  /** The map after initOptionsMap on a map m: the defaults, then the argument puts. */
  function InitialOptions(m: OptionMap, args: seq<string>): (r: OptionMap)
  {
    ApplyAll(PutEntries(m, OPTIONS, |OPTIONS|), Assignments(args, 0))
  }

  /**
   * A flag appended after any arguments is read as a flag, with "true":
   * the arguments before it produce the same puts as on their own.
   */
  lemma {:induction false} AssignmentsAppendFlag(args: seq<string>, flag: string, i: nat)
    requires i <= |args| && IsFlag(flag)
    ensures Assignments(args + [flag], i) == Assignments(args, i) + [(flag[1..], "true")]
    decreases |args| - i
  {
    var all := args + [flag];
    assert all[..|args|] == args;
    if i == |args| {
      assert Assignments(all, i + 1) == [];
    } else if IsFlag(args[i]) {
      assert all[i] == args[i];
      if i < |args| - 1 && !IsFlag(args[i + 1]) {
        assert all[i + 1] == args[i + 1];
        AssignmentsAppendFlag(args, flag, i + 2);
      } else {
        assert i + 1 < |all| && IsFlag(all[i + 1]) by {
          if i + 1 < |args| { assert all[i + 1] == args[i + 1]; }
        }
        AssignmentsAppendFlag(args, flag, i + 1);
      }
    } else {
      assert all[i] == args[i];
      AssignmentsAppendFlag(args, flag, i + 1);
    }
  }

  /**
   * A flag and a non-flag value appended after any arguments put the value
   * under the flag's name; the arguments before produce the same puts.
   */
  lemma {:induction false} AssignmentsAppendFlagValue(args: seq<string>, flag: string, value: string, i: nat)
    requires i <= |args| && IsFlag(flag) && !IsFlag(value)
    ensures Assignments(args + [flag, value], i) == Assignments(args, i) + [(flag[1..], value)]
    decreases |args| - i
  {
    var all := args + [flag, value];
    assert all[..|args|] == args;
    if i == |args| {
      assert all[i] == flag && all[i + 1] == value;
      assert Assignments(all, i + 2) == [];
    } else if IsFlag(args[i]) {
      assert all[i] == args[i];
      if i < |args| - 1 && !IsFlag(args[i + 1]) {
        assert all[i + 1] == args[i + 1];
        AssignmentsAppendFlagValue(args, flag, value, i + 2);
      } else {
        assert i + 1 < |all| - 1 && IsFlag(all[i + 1]) by {
          if i + 1 < |args| { assert all[i + 1] == args[i + 1]; }
        }
        AssignmentsAppendFlagValue(args, flag, value, i + 1);
      }
    } else {
      assert all[i] == args[i];
      AssignmentsAppendFlagValue(args, flag, value, i + 1);
    }
  }

  /** Putting an argument that is not a flag in front shifts the puts and changes nothing else. */
  lemma {:induction false} AssignmentsShift(arg: string, args: seq<string>, i: nat)
    requires i <= |args| && !IsFlag(arg)
    ensures Assignments([arg] + args, i + 1) == Assignments(args, i)
    decreases |args| - i
  {
    var all := [arg] + args;
    if i < |args| {
      assert all[i + 1] == args[i];
      if i + 1 < |args| { assert all[i + 2] == args[i + 1]; }
      if IsFlag(args[i]) && i < |args| - 1 && !IsFlag(args[i + 1]) {
        AssignmentsShift(arg, args, i + 2);
      } else {
        AssignmentsShift(arg, args, i + 1);
      }
    }
  }

  /** A last "-name" argument stores "true" under name, whatever came before. */
  lemma TrailingFlagIsTrue(m: OptionMap, args: seq<string>, name: string)
    ensures var r := InitialOptions(m, args + ["-" + name]); name in r && r[name] == Some("true")
  {
    var flag := "-" + name;
    assert flag[1..] == name;
    AssignmentsAppendFlag(args, flag, 0);
    ApplyAllSnoc(PutEntries(m, OPTIONS, |OPTIONS|), Assignments(args, 0), name, "true");
  }

  /**
   * "-name" followed by a value not starting with '-' stores that value under
   * name, overwriting a default or an earlier occurrence; the name need not
   * be one of the known options.
   */
  lemma FlagValueIsStored(m: OptionMap, args: seq<string>, name: string, value: string)
    requires !IsFlag(value)
    ensures var r := InitialOptions(m, args + ["-" + name, value]); name in r && r[name] == Some(value)
  {
    var flag := "-" + name;
    assert flag[1..] == name;
    AssignmentsAppendFlagValue(args, flag, value, 0);
    ApplyAllSnoc(PutEntries(m, OPTIONS, |OPTIONS|), Assignments(args, 0), name, value);
  }

  /** A leading argument that does not start with '-' is skipped. */
  lemma LeadingNonFlagIgnored(m: OptionMap, arg: string, args: seq<string>)
    requires !IsFlag(arg)
    ensures InitialOptions(m, [arg] + args) == InitialOptions(m, args)
  {
    AssignmentsShift(arg, args, 0);
    assert ([arg] + args)[0] == arg;
  }

  /** The option table names no option twice. */
  lemma OptionNamesDistinct()
    ensures DistinctNames(OPTIONS)
  {
    forall i, j | 0 <= i < j < |OPTIONS|
      ensures OPTIONS[i].name != OPTIONS[j].name
    {
      var a, b := OPTIONS[i].name, OPTIONS[j].name;
      assert |a| != |b| || a[0] != b[0];
    }
  }

  /**
   * Before any argument, every table name maps to its default, a null
   * default included: size "19x19", xInARow "5", block and joker "".
   */
  lemma DefaultsBeforeArguments(m: OptionMap)
    ensures var r := InitialOptions(m, []);
      forall i :: 0 <= i < |OPTIONS| ==> OPTIONS[i].name in r && r[OPTIONS[i].name] == OPTIONS[i].default
    ensures var r := InitialOptions(m, []);
      "size" in r && r["size"] == Some("19x19") && "xInARow" in r && r["xInARow"] == Some("5") &&
      "block" in r && r["block"] == Some("") && "joker" in r && r["joker"] == Some("") &&
      "gui" in r && r["gui"] == None
  {
    OptionNamesDistinct();
    PutEntriesStoresDefaults(m, OPTIONS, |OPTIONS|);
    assert OPTIONS[1].name == "gui" && OPTIONS[4].name == "size" && OPTIONS[5].name == "xInARow";
    assert OPTIONS[6].name == "block" && OPTIONS[7].name == "joker";
  }

  /** UI's option state. */
  class UI {
    var options: OptionMap

    /** A UI starts with an empty option map. */
    constructor ()
      ensures options == map[]
    {
      options := map[];
    }

    /** initOptionsMap: the defaults first, then the arguments read left to right. */
    method InitOptionsMap(args: seq<string>)
      modifies this
      ensures options == InitialOptions(old(options), args)
    {
      var i := 0;
      while i < |OPTIONS|
        invariant 0 <= i <= |OPTIONS|
        invariant options == PutEntries(old(options), OPTIONS, i)
      {
        var option := OPTIONS[i];
        options := options[option.name := option.default];
        i := i + 1;
      }
      ghost var goal := InitialOptions(old(options), args);
      i := 0;
      while i < |args|
        invariant 0 <= i <= |args|
        invariant ApplyAll(options, Assignments(args, i)) == goal
      {
        var arg := args[i];
        if IsFlag(arg) {
          var name := arg[1..];
          if i < |args| - 1 && !IsFlag(args[i + 1]) {
            options := options[name := Some(args[i + 1])];
            i := i + 1;
          } else {
            options := options[name := Some("true")];
          }
        }
        i := i + 1;
      }
    }

    /** getOption: the stored value, or null for a name never stored. */
    function GetOption(name: string): (value: Option<string>)
      reads this
      ensures name in options ==> value == options[name]
      ensures name !in options ==> value == None
    {
      if name in options then options[name] else None
    }
  }
}
