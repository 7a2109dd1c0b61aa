/** Rule descriptors, the violations their predicates emit, the findings the
    engine builds from them, and the walk over a Terraform-style document that
    every provider predicate shares:

      if 'resource' in content:
        for resource_type, resources in content['resource'].items():
          if <type matches>:
            for resource_name, resource_config in resources.items():
              <per-resource test, appending violations>
*/
module Rules {
  import opened Values

  /** The predicate a rule descriptor carries, one tag per check function. */
  datatype Check =
    | S3PublicBucket | SecurityGroupOpen | RdsPublicAccess | IamWildcardPolicy
    | AzureStoragePublic | NsgOpen | SqlPublic | VmNoEncryption
    | ComputePublicIp | FirewallOpen | GcpStoragePublic | SqlPublicIp

  /** A rule descriptor. A `None` field is a key the rule dict does not have. */
  datatype Rule = Rule(
    id: Option<string>,
    name: Option<string>,
    category: Option<string>,
    severity: Option<string>,
    description: Option<string>,
    fixSuggestion: Option<string>,
    references: Option<seq<string>>,
    evaluate: Option<Check>)

  /** A rule with every key present, as each provider table writes them. */
  function Descriptor(id: string, name: string, category: string, severity: string,
                      description: string, fix: string, references: seq<string>,
                      check: Check): Rule
  {
    Rule(Some(id), Some(name), Some(category), Some(severity), Some(description),
         Some(fix), Some(references), Some(check))
  }

  /** What a predicate reports; `None` is a key the violation dict lacks. */
  datatype Violation = Violation(
    message: Option<string>,
    resource: Option<Value>,
    line: Option<Value>,
    column: Option<Value>)

  /** A finding dict. `None` is a key that is absent or bound to `None`,
      except for `severity`, where `None` always means the key is absent. */
  datatype Finding = Finding(
    file: Option<string>,
    ruleId: Option<string>,
    ruleName: Option<string>,
    severity: Option<string>,
    category: Option<string>,
    message: Option<string>,
    line: Option<Value>,
    column: Option<Value>,
    resource: Option<Value>,
    fixSuggestion: Option<string>,
    references: Option<seq<string>>,
    error: Option<string>)

  function RuleIds(rules: seq<Rule>): seq<Option<string>> {
    seq(|rules|, i requires 0 <= i < |rules| => rules[i].id)
  }

  predicate DistinctIds(rules: seq<Rule>) {
    forall i, j :: 0 <= i < j < |rules| ==> rules[i].id != rules[j].id
  }

  /** The violation every Terraform predicate appends: `<type>.<name>` as the
      resource and the config's `__line__` (default 1) as the line. */
  function TerraformViolation(message: string, rtype: string, name: string, config: Value): Violation
    requires config.Obj?
  {
    Violation(Some(message), Some(Str(rtype + "." + name)), Some(LineOf(config)), None)
  }

  /** `resource_config.get('__line__', 1)`. */
  function LineOf(config: Value): (line: Value)
    requires config.Obj?
    ensures HasKey(config.fields, "__line__") ==> Field("__line__", line) in config.fields
    ensures !HasKey(config.fields, "__line__") ==> line == Int(1)
  {
    Get(config, "__line__", Int(1)).value
  }

  /** One resource as the walk visits it. */
  datatype Resource = Resource(rtype: string, name: string, config: Value)

  /** Left-to-right sequencing: the first failure wins, otherwise the lists
      are concatenated. */
  function Cat(a: Result<seq<Violation>>, b: Result<seq<Violation>>): (r: Result<seq<Violation>>)
    ensures r.Ok? <==> a.Ok? && b.Ok?
    ensures r.Ok? ==> r.value == a.value + b.value
    ensures a.Err? ==> r == a
  {
    if a.Err? then a else if b.Err? then b else Ok(a.value + b.value)
  }

  lemma CatUnit(r: Result<seq<Violation>>)
    ensures Cat(Ok([]), r) == r
  {
    if r.Ok? { assert [] + r.value == r.value; }
  }

  lemma CatAssoc(a: Result<seq<Violation>>, b: Result<seq<Violation>>, c: Result<seq<Violation>>)
    ensures Cat(Cat(a, b), c) == Cat(a, Cat(b, c))
  {
    if a.Ok? && b.Ok? && c.Ok? {
      assert (a.value + b.value) + c.value == a.value + (b.value + c.value);
    }
  }

  /** The inner loop: every (name, config) of one resource type, in order. */
  function ScanNames(rtype: string, names: seq<Field>,
                     check: (string, string, Value) -> Result<seq<Violation>>): Result<seq<Violation>>
    decreases |names|
  {
    if names == [] then Ok([])
    else Cat(check(rtype, names[0].key, names[0].val), ScanNames(rtype, names[1..], check))
  }

  /** The result of the inner loop for one type entry; skipped types cost nothing. */
  function ScanType(entry: Field, matches: string -> bool,
                    check: (string, string, Value) -> Result<seq<Violation>>): Result<seq<Violation>>
  {
    if !matches(entry.key) then Ok([])
    else
      var names :- Items(entry.val);
      ScanNames(entry.key, names, check)
  }

  /** The outer loop over the entries of `content['resource']`. */
  function ScanTypes(types: seq<Field>, matches: string -> bool,
                     check: (string, string, Value) -> Result<seq<Violation>>): Result<seq<Violation>>
    decreases |types|
  {
    if types == [] then Ok([])
    else Cat(ScanType(types[0], matches, check), ScanTypes(types[1..], matches, check))
  }

  /** A value the checks iterate as a list: a list is itself, anything else
      is wrapped into a one-element list. */
  function AsList(v: Value): (items: seq<Value>)
    ensures v.List? ==> items == v.items
    ensures !v.List? ==> items == [v]
  {
    if v.List? then v.items else [v]
  }

  /** The whole walk of a Terraform-style document. */
  function ScanTerraform(content: Value, matches: string -> bool,
                         check: (string, string, Value) -> Result<seq<Violation>>): Result<seq<Violation>>
  {
    var has :- Contains(content, "resource");
    if !has then Ok([])
    else
      var section :- Index(content, "resource");
      var types :- Items(section);
      ScanTypes(types, matches, check)
  }

  /** The walk as the source runs it: nested loops appending to one list. */
  method Scan(content: Value, matches: string -> bool,
              check: (string, string, Value) -> Result<seq<Violation>>)
    returns (r: Result<seq<Violation>>)
    ensures r == ScanTerraform(content, matches, check)
  {
    var has := Contains(content, "resource");
    if has.Err? { return Err(has.error); }
    if !has.value { return Ok([]); }
    var section := Index(content, "resource");
    if section.Err? { return Err(section.error); }
    var types := Items(section.value);
    if types.Err? { return Err(types.error); }
    var ts := types.value;
    var violations: seq<Violation> := [];
    var i := 0;
    assert ts[0..] == ts;
    CatUnit(ScanTypes(ts, matches, check));
    while i < |ts|
      invariant 0 <= i <= |ts|
      invariant ScanTypes(ts, matches, check) == Cat(Ok(violations), ScanTypes(ts[i..], matches, check))
    {
      assert ts[i..][1..] == ts[i + 1..];
      var rtype := ts[i].key;
      ghost var rest := ScanTypes(ts[i + 1..], matches, check);
      if matches(rtype) {
        var names := Items(ts[i].val);
        if names.Err? { return Err(names.error); }
        var ns := names.value;
        var j := 0;
        assert ns[0..] == ns;
        while j < |ns|
          invariant 0 <= j <= |ns|
          invariant ScanTypes(ts, matches, check)
                    == Cat(Ok(violations), Cat(ScanNames(rtype, ns[j..], check), ScanTypes(ts[i + 1..], matches, check)))
        {
          assert ns[j..][1..] == ns[j + 1..];
          var found := check(rtype, ns[j].key, ns[j].val);
          if found.Err? { return Err(found.error); }
          CatAssoc(found, ScanNames(rtype, ns[j + 1..], check), rest);
          CatAssoc(Ok(violations), found, Cat(ScanNames(rtype, ns[j + 1..], check), rest));
          violations := violations + found.value;
          j := j + 1;
        }
        assert ns[|ns|..] == [];
        CatUnit(rest);
      } else {
        CatUnit(rest);
      }
      i := i + 1;
    }
    assert ts[|ts|..] == [];
    assert violations + [] == violations;
    return Ok(violations);
  }

  // ---- An independent reading of the walk: list the matching resources,
  // ---- then run the per-resource test on each.

  function NamedResources(rtype: string, names: seq<Field>): (rs: seq<Resource>)
    ensures |rs| == |names|
    ensures forall k :: 0 <= k < |names| ==> rs[k] == Resource(rtype, names[k].key, names[k].val)
  {
    seq(|names|, k requires 0 <= k < |names| => Resource(rtype, names[k].key, names[k].val))
  }

  /** Every resource of every matching type, in document order; fails where
      the source's `resources.items()` would. */
  function MatchingResources(types: seq<Field>, matches: string -> bool): (r: Result<seq<Resource>>)
    ensures r.Ok? ==> forall res <- r.value :: matches(res.rtype)
    decreases |types|
  {
    if types == [] then Ok([])
    else
      var first :- if matches(types[0].key) then
                     (var names :- Items(types[0].val); Ok(NamedResources(types[0].key, names)))
                   else Ok([]);
      var rest :- MatchingResources(types[1..], matches);
      Ok(first + rest)
  }

  /** The per-resource test applied to each listed resource, in order. */
  function CheckAll(rs: seq<Resource>, check: (string, string, Value) -> Result<seq<Violation>>): Result<seq<Violation>>
    decreases |rs|
  {
    if rs == [] then Ok([])
    else Cat(check(rs[0].rtype, rs[0].name, rs[0].config), CheckAll(rs[1..], check))
  }

  /** The walk over a list succeeds exactly when the test succeeds on each
      of its resources. */
  lemma {:induction false} CheckAllOk(rs: seq<Resource>, check: (string, string, Value) -> Result<seq<Violation>>)
    ensures CheckAll(rs, check).Ok? <==> forall k :: 0 <= k < |rs| ==> check(rs[k].rtype, rs[k].name, rs[k].config).Ok?
    decreases |rs|
  {
    if rs != [] {
      CheckAllOk(rs[1..], check);
      assert forall k :: 1 <= k < |rs| ==> rs[k] == rs[1..][k - 1];
    }
  }

  lemma {:induction false} CheckAllAppend(a: seq<Resource>, b: seq<Resource>,
                                          check: (string, string, Value) -> Result<seq<Violation>>)
    ensures CheckAll(a + b, check) == Cat(CheckAll(a, check), CheckAll(b, check))
    decreases |a|
  {
    if a == [] {
      assert a + b == b;
      CatUnit(CheckAll(b, check));
    } else {
      assert (a + b)[0] == a[0];
      assert (a + b)[1..] == a[1..] + b;
      CheckAllAppend(a[1..], b, check);
      CatAssoc(check(a[0].rtype, a[0].name, a[0].config), CheckAll(a[1..], check), CheckAll(b, check));
    }
  }

  lemma {:induction false} ScanNamesIsCheckAll(rtype: string, names: seq<Field>,
                                               check: (string, string, Value) -> Result<seq<Violation>>)
    ensures ScanNames(rtype, names, check) == CheckAll(NamedResources(rtype, names), check)
    decreases |names|
  {
    if names != [] {
      ScanNamesIsCheckAll(rtype, names[1..], check);
      assert NamedResources(rtype, names)[1..] == NamedResources(rtype, names[1..]);
    }
  }

  lemma {:induction false} ScanTypesIsCheckAll(types: seq<Field>, matches: string -> bool,
                                               check: (string, string, Value) -> Result<seq<Violation>>)
    ensures var rs := MatchingResources(types, matches);
            ScanTypes(types, matches, check).Ok? <==> rs.Ok? && CheckAll(rs.value, check).Ok?
    ensures var rs := MatchingResources(types, matches);
            ScanTypes(types, matches, check).Ok? ==> ScanTypes(types, matches, check).value == CheckAll(rs.value, check).value
    decreases |types|
  {
    if types != [] {
      ScanTypesIsCheckAll(types[1..], matches, check);
      var e := types[0];
      if matches(e.key) && e.val.Obj? {
        ScanNamesIsCheckAll(e.key, e.val.fields, check);
        var rest := MatchingResources(types[1..], matches);
        if rest.Ok? {
          CheckAllAppend(NamedResources(e.key, e.val.fields), rest.value, check);
        }
      } else if !matches(e.key) {
        var rest := MatchingResources(types[1..], matches);
        if rest.Ok? {
          assert [] + rest.value == rest.value;
        }
      }
    }
  }

  /** The walk equals "enumerate the matching resources, then test each": both
      succeed together and then report the same violations. */
  lemma ScanIsCheckAll(content: Value, types: seq<Field>, matches: string -> bool,
                       check: (string, string, Value) -> Result<seq<Violation>>)
    requires content.Obj? && HasKey(content.fields, "resource")
    requires Lookup(content.fields, "resource") == Some(Obj(types))
    ensures var rs := MatchingResources(types, matches);
            var scan := ScanTerraform(content, matches, check);
            (scan.Ok? <==> rs.Ok? && CheckAll(rs.value, check).Ok?) &&
            (scan.Ok? ==> scan.value == CheckAll(rs.value, check).value)
  {
    ScanTypesIsCheckAll(types, matches, check);
  }

  /** A document object without a `resource` key yields nothing. */
  lemma ScanWithoutResources(content: Value, matches: string -> bool,
                             check: (string, string, Value) -> Result<seq<Violation>>)
    requires content.Obj? && !HasKey(content.fields, "resource")
    ensures ScanTerraform(content, matches, check) == Ok([])
  {
  }

  /** When no type matches, nothing is reported and nothing can fail. */
  lemma {:induction false} ScanTypesNoMatch(types: seq<Field>, matches: string -> bool,
                                            check: (string, string, Value) -> Result<seq<Violation>>)
    requires forall k :: 0 <= k < |types| ==> !matches(types[k].key)
    ensures ScanTypes(types, matches, check) == Ok([])
    decreases |types|
  {
    if types != [] {
      ScanTypesNoMatch(types[1..], matches, check);
      CatUnit(Ok([]));
    }
  }

  /** A per-resource test that reports at most one violation per resource
      makes the walk report at most one per resource listed. */
  lemma {:induction false} CheckAllAtMostOne(rs: seq<Resource>, check: (string, string, Value) -> Result<seq<Violation>>)
    requires forall t, n, c :: check(t, n, c).Ok? ==> |check(t, n, c).value| <= 1
    ensures CheckAll(rs, check).Ok? ==> |CheckAll(rs, check).value| <= |rs|
    decreases |rs|
  {
    if rs != [] {
      CheckAllAtMostOne(rs[1..], check);
    }
  }

  /** Whatever a per-resource test promises of each violation it reports
      about resource `(t, n)` holds of every violation of the walk, for some
      listed resource. */
  lemma {:induction false} CheckAllFrom(rs: seq<Resource>, check: (string, string, Value) -> Result<seq<Violation>>,
                                        P: (string, string, Violation) -> bool)
    requires forall t, n, c, v :: check(t, n, c).Ok? && v in check(t, n, c).value ==> P(t, n, v)
    ensures CheckAll(rs, check).Ok? ==>
              forall v <- CheckAll(rs, check).value :: exists k :: 0 <= k < |rs| && P(rs[k].rtype, rs[k].name, v)
    decreases |rs|
  {
    if rs != [] && CheckAll(rs, check).Ok? {
      CheckAllFrom(rs[1..], check, P);
      forall v <- CheckAll(rs, check).value
        ensures exists k :: 0 <= k < |rs| && P(rs[k].rtype, rs[k].name, v)
      {
        var head := check(rs[0].rtype, rs[0].name, rs[0].config);
        if v in head.value {
          assert P(rs[0].rtype, rs[0].name, v);
        } else {
          var k :| 0 <= k < |rs[1..]| && P(rs[1..][k].rtype, rs[1..][k].name, v);
          assert rs[1..][k] == rs[k + 1];
        }
      }
    }
  }

  /** Per-resource "at most one" lifts to "at most one per matching resource". */
  lemma ScanAtMostOne(content: Value, types: seq<Field>, matches: string -> bool,
                      check: (string, string, Value) -> Result<seq<Violation>>)
    requires content.Obj? && Lookup(content.fields, "resource") == Some(Obj(types))
    requires forall t, n, c :: check(t, n, c).Ok? ==> |check(t, n, c).value| <= 1
    ensures var scan := ScanTerraform(content, matches, check);
            scan.Ok? ==>
              MatchingResources(types, matches).Ok? &&
              |scan.value| <= |MatchingResources(types, matches).value|
  {
    ScanIsCheckAll(content, types, matches, check);
    var rs := MatchingResources(types, matches);
    if rs.Ok? {
      CheckAllAtMostOne(rs.value, check);
    }
  }

    /** Every violation names `<type>.<name>` of one of the listed resources
      whose type matches. */
  predicate NamedAfterMatching(vs: seq<Violation>, rs: seq<Resource>, matches: string -> bool) {
    forall v <- vs :: exists k :: 0 <= k < |rs| && matches(rs[k].rtype) &&
                                  v.resource == Some(Str(rs[k].rtype + "." + rs[k].name))
  }

/** Per-resource "the address is `<type>.<name>`" lifts to: every violation of
      the walk names some matching resource of the document. */
  lemma ScanAddresses(content: Value, types: seq<Field>, matches: string -> bool,
                      check: (string, string, Value) -> Result<seq<Violation>>)
    requires content.Obj? && Lookup(content.fields, "resource") == Some(Obj(types))
    requires forall t, n, c, v :: check(t, n, c).Ok? && v in check(t, n, c).value ==> v.resource == Some(Str(t + "." + n))
    ensures var scan := ScanTerraform(content, matches, check);
            var rs := MatchingResources(types, matches);
            scan.Ok? ==> rs.Ok? && NamedAfterMatching(scan.value, rs.value, matches)
  {
    ScanIsCheckAll(content, types, matches, check);
    var rs := MatchingResources(types, matches);
    if rs.Ok? {
      var P := (t: string, n: string, v: Violation) => v.resource == Some(Str(t + "." + n));
      CheckAllFrom(rs.value, check, P);
    }
  }

  /** A document with one resource type holding one resource is checked by
      one call of the per-resource test. */
  lemma ScanSingleResource(content: Value, rtype: string, name: string, config: Value,
                           matches: string -> bool, check: (string, string, Value) -> Result<seq<Violation>>)
    requires content.Obj? && Lookup(content.fields, "resource") == Some(Obj([Field(rtype, Obj([Field(name, config)]))]))
    requires matches(rtype)
    ensures ScanTerraform(content, matches, check) == check(rtype, name, config)
  {
    var names := [Field(name, config)];
    assert names[1..] == [];
    CatUnitRight(check(rtype, name, config));
    assert ScanNames(rtype, names, check) == check(rtype, name, config);
    var types := [Field(rtype, Obj(names))];
    assert types[1..] == [];
    assert Items(Obj(names)) == Ok(names);
    assert ScanType(types[0], matches, check) == ScanNames(rtype, names, check);
    CatUnitRight(ScanType(types[0], matches, check));
    assert ScanTypes(types, matches, check) == check(rtype, name, config);
    assert Contains(content, "resource") == Ok(true);
    assert Index(content, "resource") == Ok(Obj(types));
  }

  lemma CatUnitRight(r: Result<seq<Violation>>)
    ensures Cat(r, Ok([])) == r
  {
    if r.Ok? { assert r.value + [] == r.value; }
  }
}
