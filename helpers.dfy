/** The two helpers the core uses: the recursive configuration merge and
    the one-line console rendering of a finding. */
module Helpers {
  import opened Values
  import opened Rules

  // ---- `merge_configs` ----

  /** A Python dict has each key once. */
  predicate DistinctKeys(fields: seq<Field>) {
    forall i, j :: 0 <= i < j < |fields| ==> fields[i].key != fields[j].key
  }

  /** `d[key] = v`: an existing key keeps its place and takes the new value,
      a new key goes at the end. */
  function Assign(fields: seq<Field>, key: string, v: Value): seq<Field>
    decreases |fields|
  {
    if fields == [] then [Field(key, v)]
    else if fields[0].key == key then [Field(key, v)] + fields[1..]
    else [fields[0]] + Assign(fields[1..], key, v)
  }

  /** The value the merge stores for a key of the override, given what the
      result held under that key before. */
  function Combine(before: Option<Value>, v: Value): Value
    decreases v, 1
  {
    if before.Some? && before.value.Obj? && v.Obj? then Obj(Merge(before.value.fields, v.fields)) else v
  }

  /** The merge: the override's entries folded into a copy of the default. */
  function Merge(result: seq<Field>, override: seq<Field>): seq<Field>
    decreases override, 0
  {
    if override == [] then result
    else
      var f := override[0];
      assert f in override;
      Merge(Assign(result, f.key, Combine(Lookup(result, f.key), f.val)), override[1..])
  }

  /** `merge_configs`, on values. `default.copy()` is shallow, so a nested
      dict the override leaves alone is shared with `default`; the merge never
      mutates one (a nested merge copies before it assigns), so dicts as
      values lose nothing here. Dicts on both sides are merged by the
      recursive call. */
  method MergeConfigs(default: seq<Field>, override: seq<Field>) returns (result: seq<Field>)
    ensures result == Merge(default, override)
    decreases override
  {
    result := default;
    var i := 0;
    assert override[0..] == override;
    while i < |override|
      invariant 0 <= i <= |override|
      invariant Merge(default, override) == Merge(result, override[i..])
    {
      assert override[i..][1..] == override[i + 1..];
      var key, value := override[i].key, override[i].val;
      var before := Lookup(result, key);
      if before.Some? && before.value.Obj? && value.Obj? {
        assert override[i] in override;
        var inner := MergeConfigs(before.value.fields, value.fields);
        result := Assign(result, key, Obj(inner));
      } else {
        result := Assign(result, key, value);
      }
      i := i + 1;
    }
  }

  lemma {:induction false} AssignLookup(fields: seq<Field>, key: string, v: Value, k: string)
    ensures Lookup(Assign(fields, key, v), k) == if k == key then Some(v) else Lookup(fields, k)
    decreases |fields|
  {
    if fields != [] && fields[0].key != key {
      AssignLookup(fields[1..], key, v, k);
      assert Assign(fields, key, v)[1..] == Assign(fields[1..], key, v);
    } else if fields != [] {
      assert Assign(fields, key, v)[1..] == fields[1..];
    }
  }

  lemma {:induction false} AssignDistinct(fields: seq<Field>, key: string, v: Value)
    requires DistinctKeys(fields)
    ensures DistinctKeys(Assign(fields, key, v))
    decreases |fields|
  {
    if fields != [] && fields[0].key != key {
      AssignDistinct(fields[1..], key, v);
      var r := Assign(fields, key, v);
      assert r[1..] == Assign(fields[1..], key, v);
      assert !HasKey(fields[1..], fields[0].key);
      AssignLookup(fields[1..], key, v, fields[0].key);
      assert forall i :: 1 <= i < |r| ==> r[i] == r[1..][i - 1];
    }
  }

  /** Key by key: a key of the override holds the combination of the
      default's value and the override's; any other key keeps the
      default's value. */
  lemma {:induction false} MergeLookup(result: seq<Field>, override: seq<Field>, k: string)
    requires DistinctKeys(override)
    ensures Lookup(Merge(result, override), k) ==
            if HasKey(override, k) then Some(Combine(Lookup(result, k), Lookup(override, k).value))
            else Lookup(result, k)
    decreases |override|
  {
    if override != [] {
      var f := override[0];
      var next := Assign(result, f.key, Combine(Lookup(result, f.key), f.val));
      var rest := override[1..];
      assert DistinctKeys(rest) by {
        assert forall i :: 0 <= i < |rest| ==> rest[i] == override[i + 1];
      }
      MergeLookup(next, rest, k);
      AssignLookup(result, f.key, Combine(Lookup(result, f.key), f.val), k);
      assert HasKey(override, k) <==> f.key == k || HasKey(rest, k) by {
        assert forall i :: 1 <= i < |override| ==> override[i] == rest[i - 1];
      }
      if f.key == k {
        assert !HasKey(rest, k);
      }
    }
  }

  /** The merge's keys are the union of both sides' keys. */
  lemma {:induction false} MergeKeys(result: seq<Field>, override: seq<Field>, k: string)
    ensures HasKey(Merge(result, override), k) <==> HasKey(result, k) || HasKey(override, k)
    decreases |override|
  {
    if override != [] {
      var f := override[0];
      var next := Assign(result, f.key, Combine(Lookup(result, f.key), f.val));
      MergeKeys(next, override[1..], k);
      AssignLookup(result, f.key, Combine(Lookup(result, f.key), f.val), k);
      assert HasKey(override, k) <==> f.key == k || HasKey(override[1..], k) by {
        assert forall i :: 1 <= i < |override| ==> override[i] == override[1..][i - 1];
      }
    }
  }

  /** Merging dicts gives a dict. */
  lemma {:induction false} MergeDistinct(result: seq<Field>, override: seq<Field>)
    requires DistinctKeys(result)
    ensures DistinctKeys(Merge(result, override))
    decreases |override|
  {
    if override != [] {
      var f := override[0];
      AssignDistinct(result, f.key, Combine(Lookup(result, f.key), f.val));
      MergeDistinct(Assign(result, f.key, Combine(Lookup(result, f.key), f.val)), override[1..]);
    }
  }

  /** What the merge promises for each key: both sides' keys survive, an
      override value wins unless both values are dicts, two dicts are
      merged recursively, and a default-only key keeps its value. */
  lemma MergeSemantics(default: seq<Field>, override: seq<Field>, k: string)
    requires DistinctKeys(override)
    ensures HasKey(Merge(default, override), k) <==> HasKey(default, k) || HasKey(override, k)
    ensures HasKey(override, k) && !(HasKey(default, k) && Lookup(default, k).value.Obj? && Lookup(override, k).value.Obj?) ==>
              Lookup(Merge(default, override), k) == Lookup(override, k)
    ensures HasKey(override, k) && HasKey(default, k) && Lookup(default, k).value.Obj? && Lookup(override, k).value.Obj? ==>
              Lookup(Merge(default, override), k) == Some(Obj(Merge(Lookup(default, k).value.fields, Lookup(override, k).value.fields)))
    ensures !HasKey(override, k) ==> Lookup(Merge(default, override), k) == Lookup(default, k)
  {
    MergeKeys(default, override, k);
    MergeLookup(default, override, k);
  }

  /** An empty override gives back the default; an empty default gives back
      the override. */
  lemma MergeIdentity(d: seq<Field>, o: seq<Field>)
    requires DistinctKeys(o)
    ensures Merge(d, []) == d
    ensures forall k :: Lookup(Merge([], o), k) == Lookup(o, k)
  {
    forall k ensures Lookup(Merge([], o), k) == Lookup(o, k) {
      MergeLookup([], o, k);
    }
  }

  /** A nested override changes only the nested key it names. */
  lemma NestedOverrideScenario()
    ensures var d := [Field("rules", Obj([Field("enabled", Bool(true)), Field("level", Str("high"))])), Field("output", Str("json"))];
            var o := [Field("rules", Obj([Field("level", Str("low"))]))];
            Merge(d, o) == [Field("rules", Obj([Field("enabled", Bool(true)), Field("level", Str("low"))])), Field("output", Str("json"))]
  {
    var inner := [Field("enabled", Bool(true)), Field("level", Str("high"))];
    var innerO := [Field("level", Str("low"))];
    assert Merge(inner, innerO) == [Field("enabled", Bool(true)), Field("level", Str("low"))] by {
      assert Lookup(inner, "level") == Some(Str("high"));
      assert innerO[1..] == [];
    }
  }

  // ---- `format_finding_for_console` ----

  const Reset: string := "\U{1b}[0m"

  /** The ANSI colour of each known severity; `''` for any other. */
  function Colour(severity: string): string {
    if severity == "critical" then "\U{1b}[91m"
    else if severity == "high" then "\U{1b}[93m"
    else if severity == "medium" then "\U{1b}[94m"
    else if severity == "low" then "\U{1b}[92m"
    else ""
  }

  /** The severity as the line shows it: lower-cased, `medium` when absent. */
  function ConsoleSeverity(finding: Finding): string {
    Lower(finding.severity.GetOr("medium"))
  }

  /** `format_finding_for_console`. */
  function FormatFinding(finding: Finding): string {
    var severity := ConsoleSeverity(finding);
    var line := match finding.line case Some(v) => Display(v) case None => "?";
    Colour(severity) + "[" + Upper(severity) + "]" + Reset + " " +
    finding.file.GetOr("Unknown") + ":" + line + " - " + finding.message.GetOr("No message")
  }

  /** Only the four known severities are coloured, each differently. */
  lemma ColourTable(a: string, b: string)
    ensures Colour(a) != "" <==> a in ["critical", "high", "medium", "low"]
    ensures Colour(a) != "" && Colour(a) == Colour(b) ==> a == b
  {
  }

  /** The severity's spelling does not matter, and an absent severity is
      shown as `medium`. */
  lemma FormatIgnoresSeverityCase(finding: Finding, a: string, b: string)
    requires Lower(a) == Lower(b)
    ensures FormatFinding(finding.(severity := Some(a))) == FormatFinding(finding.(severity := Some(b)))
    ensures FormatFinding(finding.(severity := None)) == FormatFinding(finding.(severity := Some("medium")))
  {
  }

  /** The line opens with the severity's colour and its upper-cased name in
      brackets, and ends with the message. */
  lemma FormatShape(finding: Finding)
    ensures var r := FormatFinding(finding);
            var severity := ConsoleSeverity(finding);
            var head := Colour(severity) + "[" + Upper(severity) + "]" + Reset;
            var tail := " - " + finding.message.GetOr("No message");
            IsPrefix(head, r) && |r| >= |head| + |tail| && r[|r| - |tail|..] == tail
  {
    var r := FormatFinding(finding);
    var severity := ConsoleSeverity(finding);
    var head := Colour(severity) + "[" + Upper(severity) + "]" + Reset;
    var tail := " - " + finding.message.GetOr("No message");
    var line := match finding.line case Some(v) => Display(v) case None => "?";
    var middle := " " + finding.file.GetOr("Unknown") + ":" + line;
    assert r == head + middle + tail;
  }

  /** A finding with nothing set renders with every default: blue,
      `[MEDIUM]`, `Unknown`, `?` and `No message`. */
  lemma FormatDefaults(finding: Finding)
    requires finding.severity.None? && finding.file.None? && finding.line.None? && finding.message.None?
    ensures FormatFinding(finding) ==
            "\U{1b}[94m" + "[" + "MEDIUM" + "]" + Reset + " " + "Unknown" + ":" + "?" + " - " + "No message"
  {
    var severity := ConsoleSeverity(finding);
    assert severity == "medium" by {
      assert Lower("medium")[0] == 'm' && Lower("medium")[1] == 'e' && Lower("medium")[2] == 'd';
      assert Lower("medium")[3] == 'i' && Lower("medium")[4] == 'u' && Lower("medium")[5] == 'm';
    }
    assert Upper(severity) == "MEDIUM" by {
      assert Upper(severity)[0] == 'M' && Upper(severity)[1] == 'E' && Upper(severity)[2] == 'D';
      assert Upper(severity)[3] == 'I' && Upper(severity)[4] == 'U' && Upper(severity)[5] == 'M';
    }
  }
}
