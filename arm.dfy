/** The ARM template parser: JSON decoding with failures re-raised with the
    file's path, the list of resources keyed by name, and the three
    single-section accessors. `read` is what `read_text` gave and `json`
    stands for `json.loads`. */
module ArmParser {
  import opened Values

  /** The text of the `ValueError` that `parse` raises. */
  function ParseError(path: string, e: string): string {
    "Failed to parse ARM template " + path + ": " + e
  }

  /** `parse`. */
  function Parse(path: string, read: Result<string>, json: string -> Result<Value>): (r: Result<Value>)
    ensures r.Ok? <==> read.Ok? && json(read.value).Ok?
    ensures r.Ok? ==> r.value == json(read.value).value
    ensures r.Err? ==> IsPrefix("Failed to parse ARM template " + path + ": ", r.error)
  {
    match read
    case Err(e) => Err(ParseError(path, e))
    case Ok(content) =>
      match json(content)
      case Err(e) => Err(ParseError(path, e))
      case Ok(v) => Ok(v)
  }

  // ---- `get_resources` ----

  /** One entry of a Python dict whose keys may be any hashable value
      (a resource's `name` need not be a string). */
  datatype Entry = Entry(key: Value, val: Value)

  predicate HasEntry(d: seq<Entry>, k: Value) {
    exists i :: 0 <= i < |d| && d[i].key == k
  }

  predicate DistinctKeys(d: seq<Entry>) {
    forall i, j :: 0 <= i < j < |d| ==> d[i].key != d[j].key
  }

  /** `d.get(k)`. */
  function LookupEntry(d: seq<Entry>, k: Value): (r: Option<Value>)
    ensures r.Some? <==> HasEntry(d, k)
    decreases |d|
  {
    if d == [] then None
    else if d[0].key == k then Some(d[0].val)
    else
      assert forall i :: 1 <= i < |d| ==> d[i] == d[1..][i - 1];
      LookupEntry(d[1..], k)
  }

  /** `d[k] = v`: an existing key keeps its place and takes the new value,
      a new key goes at the end. */
  function Store(d: seq<Entry>, k: Value, v: Value): (r: seq<Entry>)
    decreases |d|
  {
    if d == [] then [Entry(k, v)]
    else if d[0].key == k then [Entry(k, v)] + d[1..]
    else [d[0]] + Store(d[1..], k, v)
  }

  /** `resource.get("name", f"resource_{i}")`, which must be hashable to
      serve as a key. */
  function KeyAt(i: nat, resource: Value): Result<Value> {
    var name :- Get(resource, "name", Str("resource_" + IntToString(i)));
    if name.List? || name.Obj? then Err("unhashable type: '" + TypeName(name) + "'") else Ok(name)
  }

  /** The dict built from `resources`, adding them in order. */
  function Keyed(resources: seq<Value>): Result<seq<Entry>>
    decreases |resources|
  {
    if resources == [] then Ok([])
    else
      var n := |resources| - 1;
      var d :- Keyed(resources[..n]);
      var k :- KeyAt(n, resources[n]);
      Ok(Store(d, k, resources[n]))
  }

  /** `get_resources` on the decoded template. */
  function GetResourcesSpec(parsed: Value): Result<seq<Entry>> {
    var resources :- Get(parsed, "resources", List([]));
    var items :- Iter(resources);
    Keyed(items)
  }

  /** `get_resources` as the source runs it: an `enumerate` loop filling
      `resource_dict`. */
  method GetResources(parsed: Value) returns (r: Result<seq<Entry>>)
    ensures r == GetResourcesSpec(parsed)
  {
    var resources := Get(parsed, "resources", List([]));
    if resources.Err? {
      return Err(resources.error);
    }
    var items := Iter(resources.value);
    if items.Err? {
      return Err(items.error);
    }
    var list := items.value;
    var d: seq<Entry> := [];
    var i := 0;
    while i < |list|
      invariant 0 <= i <= |list|
      invariant Keyed(list[..i]) == Ok(d)
    {
      assert list[..i + 1][..i] == list[..i];
      var key := KeyAt(i, list[i]);
      if key.Err? {
        KeyedErrorPropagates(list, i + 1);
        return Err(key.error);
      }
      d := Store(d, key.value, list[i]);
      i := i + 1;
    }
    assert list[..|list|] == list;
    return Ok(d);
  }

  // ---- Properties of the keying ----

  /** After `d[k] = v`, `k` maps to `v` and every other key is as before. */
  lemma {:induction false} StoreLookup(d: seq<Entry>, k: Value, v: Value, k': Value)
    ensures LookupEntry(Store(d, k, v), k') == if k' == k then Some(v) else LookupEntry(d, k')
    decreases |d|
  {
    if d != [] && d[0].key != k {
      StoreLookup(d[1..], k, v, k');
      assert Store(d, k, v)[1..] == Store(d[1..], k, v);
    } else if d != [] {
      assert Store(d, k, v)[1..] == d[1..];
    }
  }

  /** `d[k] = v` adds exactly `k` to the keys. */
  lemma {:induction false} StoreKeys(d: seq<Entry>, k: Value, v: Value, k': Value)
    ensures HasEntry(Store(d, k, v), k') <==> HasEntry(d, k') || k' == k
  {
    StoreLookup(d, k, v, k');
  }

  /** `d[k] = v` grows the dict only for a new key, and stores only `v`. */
  lemma {:induction false} StoreSize(d: seq<Entry>, k: Value, v: Value)
    ensures |Store(d, k, v)| == if HasEntry(d, k) then |d| else |d| + 1
    ensures forall e <- Store(d, k, v) :: e in d || e == Entry(k, v)
    decreases |d|
  {
    if d != [] && d[0].key != k {
      StoreSize(d[1..], k, v);
      assert HasEntry(d, k) <==> HasEntry(d[1..], k) by {
        assert forall i :: 1 <= i < |d| ==> d[i] == d[1..][i - 1];
      }
      assert forall e <- d[1..] :: e in d;
    } else if d != [] {
      assert d[0].key == k;
      assert forall e <- d[1..] :: e in d;
    }
  }

  /** `d[k] = v` keeps the keys distinct. */
  lemma {:induction false} StoreDistinct(d: seq<Entry>, k: Value, v: Value)
    requires DistinctKeys(d)
    ensures DistinctKeys(Store(d, k, v))
    decreases |d|
  {
    if d == [] {
    } else if d[0].key == k {
      var r := Store(d, k, v);
      assert r == [Entry(k, v)] + d[1..];
      forall i, j | 0 <= i < j < |r| ensures r[i].key != r[j].key {
        assert r[i].key == d[i].key && r[j].key == d[j].key;
      }
    } else {
      var tail := Store(d[1..], k, v);
      StoreDistinct(d[1..], k, v);
      var r := Store(d, k, v);
      assert r == [d[0]] + tail;
      assert !HasEntry(d[1..], d[0].key) by {
        forall i | 0 <= i < |d[1..]| ensures d[1..][i].key != d[0].key {
          assert d[1..][i] == d[i + 1];
        }
      }
      StoreKeys(d[1..], k, v, d[0].key);
      forall i, j | 0 <= i < j < |r| ensures r[i].key != r[j].key {
        assert r[j] == tail[j - 1];
        if i > 0 {
          assert r[i] == tail[i - 1];
        }
      }
    }
  }

  /** A failure before the last resource is the failure of the whole list. */
  lemma KeyedErrorStep(resources: seq<Value>)
    requires resources != [] && Keyed(resources[..|resources| - 1]).Err?
    ensures Keyed(resources) == Keyed(resources[..|resources| - 1])
  {
  }

  /** Once a prefix of the resources fails, the whole list fails with the
      same error. */
  lemma {:induction false} KeyedErrorPropagates(resources: seq<Value>, m: nat)
    requires m <= |resources| && Keyed(resources[..m]).Err?
    ensures Keyed(resources) == Keyed(resources[..m])
    decreases |resources| - m
  {
    if m < |resources| {
      var n := |resources| - 1;
      var prefix := resources[..n];
      assert prefix[..m] == resources[..m];
      KeyedErrorPropagates(prefix, m);
      KeyedErrorStep(resources);
    } else {
      assert resources[..m] == resources;
    }
  }

  /** The dict has at most one entry per resource and distinct keys. */
  lemma {:induction false} KeyedSize(resources: seq<Value>)
    requires Keyed(resources).Ok?
    ensures |Keyed(resources).value| <= |resources| && DistinctKeys(Keyed(resources).value)
    decreases |resources|
  {
    if resources != [] {
      var n := |resources| - 1;
      KeyedSize(resources[..n]);
      var d := Keyed(resources[..n]).value;
      StoreSize(d, KeyAt(n, resources[n]).value, resources[n]);
      StoreDistinct(d, KeyAt(n, resources[n]).value, resources[n]);
    }
  }

  /** Every value of the dict is one of the resources. */
  lemma {:induction false} KeyedValues(resources: seq<Value>)
    requires Keyed(resources).Ok?
    ensures forall e <- Keyed(resources).value :: e.val in resources
    decreases |resources|
  {
    if resources != [] {
      var n := |resources| - 1;
      var prefix := resources[..n];
      KeyedValues(prefix);
      StoreSize(Keyed(prefix).value, KeyAt(n, resources[n]).value, resources[n]);
      assert forall x <- prefix :: x in resources;
    }
  }

  /** The dict of a non-empty list is the dict of all but the last
      resource, with the last one stored under its key. */
  lemma KeyedLast(resources: seq<Value>)
    requires resources != [] && Keyed(resources).Ok?
    ensures var n := |resources| - 1;
            Keyed(resources[..n]).Ok? && KeyAt(n, resources[n]).Ok? &&
            Keyed(resources).value == Store(Keyed(resources[..n]).value, KeyAt(n, resources[n]).value, resources[n])
  {
  }

  /** Every resource's key is in the dict. */
  lemma {:induction false} KeyedKeys(resources: seq<Value>)
    requires Keyed(resources).Ok?
    ensures forall j :: 0 <= j < |resources| ==> KeyAt(j, resources[j]).Ok? && HasEntry(Keyed(resources).value, KeyAt(j, resources[j]).value)
    decreases |resources|
  {
    if resources != [] {
      var n := |resources| - 1;
      var prefix := resources[..n];
      KeyedLast(resources);
      KeyedKeys(prefix);
      var d := Keyed(prefix).value;
      var k := KeyAt(n, resources[n]).value;
      forall j | 0 <= j < |resources|
        ensures KeyAt(j, resources[j]).Ok? && HasEntry(Keyed(resources).value, KeyAt(j, resources[j]).value)
      {
        if j < n {
          assert prefix[j] == resources[j];
          StoreKeys(d, k, resources[n], KeyAt(j, prefix[j]).value);
        } else {
          assert j == n;
          StoreKeys(d, k, resources[n], k);
        }
      }
    }
  }

  /** Later duplicates overwrite earlier ones: a resource whose key no later
      resource repeats is the value stored under that key. */
  lemma {:induction false} LastWriteWins(resources: seq<Value>, j: nat)
    requires Keyed(resources).Ok? && j < |resources|
    requires forall m :: j < m < |resources| ==> KeyAt(m, resources[m]) != KeyAt(j, resources[j])
    ensures KeyAt(j, resources[j]).Ok?
    ensures LookupEntry(Keyed(resources).value, KeyAt(j, resources[j]).value) == Some(resources[j])
    decreases |resources|
  {
    var n := |resources| - 1;
    var prefix := resources[..n];
    KeyedLast(resources);
    KeyedOkKeyable(resources, j);
    var d := Keyed(prefix).value;
    var k := KeyAt(n, resources[n]).value;
    var kj := KeyAt(j, resources[j]).value;
    StoreLookup(d, k, resources[n], kj);
    if j < n {
      assert prefix[j] == resources[j];
      assert KeyAt(n, resources[n]) != KeyAt(j, resources[j]);
      UnshadowedInPrefix(resources, j);
      LastWriteWins(prefix, j);
    } else {
      assert j == n;
    }
  }

  /** A resource no later one shadows is not shadowed in the prefix
      without the last resource either. */
  lemma UnshadowedInPrefix(resources: seq<Value>, j: nat)
    requires j < |resources| - 1
    requires forall m :: j < m < |resources| ==> KeyAt(m, resources[m]) != KeyAt(j, resources[j])
    ensures var prefix := resources[..|resources| - 1];
            forall m :: j < m < |prefix| ==> KeyAt(m, prefix[m]) != KeyAt(j, prefix[j])
  {
    var prefix := resources[..|resources| - 1];
    forall m | j < m < |prefix| ensures KeyAt(m, prefix[m]) != KeyAt(j, prefix[j]) {
      assert prefix[m] == resources[m];
      assert prefix[j] == resources[j];
    }
  }

  /** Adding the last resource succeeds when the dict of the earlier ones
      was built and the last resource's key can be computed. */
  lemma KeyedStep(resources: seq<Value>)
    requires resources != []
    ensures Keyed(resources).Ok? <==> Keyed(resources[..|resources| - 1]).Ok? && KeyAt(|resources| - 1, resources[|resources| - 1]).Ok?
  {
  }

  /** Once the dict is built, every resource's key could be computed. */
  lemma {:induction false} KeyedOkKeyable(resources: seq<Value>, j: nat)
    requires Keyed(resources).Ok? && j < |resources|
    ensures KeyAt(j, resources[j]).Ok?
    decreases |resources|
  {
    var n := |resources| - 1;
    var prefix := resources[..n];
    KeyedStep(resources);
    if j < n {
      KeyedOkKeyable(prefix, j);
      assert prefix[j] == resources[j];
    } else {
      assert j == n;
    }
  }

  /** When every key can be computed, the dict is built. */
  lemma {:induction false} KeyableKeyedOk(resources: seq<Value>)
    requires forall j :: 0 <= j < |resources| ==> KeyAt(j, resources[j]).Ok?
    ensures Keyed(resources).Ok?
    decreases |resources|
  {
    if resources != [] {
      var n := |resources| - 1;
      var prefix := resources[..n];
      forall j | 0 <= j < |prefix| ensures KeyAt(j, prefix[j]).Ok? {
        assert prefix[j] == resources[j];
      }
      KeyableKeyedOk(prefix);
      KeyedStep(resources);
    }
  }

  /** `get_resources` succeeds exactly when every resource is a dict whose
      key is hashable. */
  lemma KeyedSucceeds(resources: seq<Value>)
    ensures Keyed(resources).Ok? <==> forall j :: 0 <= j < |resources| ==> KeyAt(j, resources[j]).Ok?
  {
    if Keyed(resources).Ok? {
      forall j | 0 <= j < |resources| ensures KeyAt(j, resources[j]).Ok? {
        KeyedOkKeyable(resources, j);
      }
    } else if forall j :: 0 <= j < |resources| ==> KeyAt(j, resources[j]).Ok? {
      KeyableKeyedOk(resources);
    }
  }

  /** A template without `resources` has no resources. */
  lemma NoResourcesSection(fields: seq<Field>)
    requires !HasKey(fields, "resources")
    ensures GetResourcesSpec(Obj(fields)) == Ok([])
  {
  }

  /** A resource without a name is keyed by its position. */
  lemma UnnamedKeyedByPosition(i: nat, fields: seq<Field>)
    requires !HasKey(fields, "name")
    ensures KeyAt(i, Obj(fields)) == Ok(Str("resource_" + IntToString(i)))
  {
  }

  /** The storage account of the ARM parser test. */
  function StorageAccount(): Value {
    Obj([Field("type", Str("Microsoft.Storage/storageAccounts")),
         Field("apiVersion", Str("2021-04-01")),
         Field("name", Str("mystorageaccount")),
         Field("properties", Obj([Field("allowBlobPublicAccess", Bool(true))]))])
  }

  /** The ARM parser test's template: one storage account. */
  function StorageTemplate(): Value {
    Obj([Field("contentVersion", Str("1.0.0.0")), Field("resources", List([StorageAccount()]))])
  }

  lemma StorageAccountKey()
    ensures KeyAt(0, StorageAccount()) == Ok(Str("mystorageaccount"))
  {
    assert StorageAccount().fields[2].key == "name";
  }

  lemma StorageTemplateResources()
    ensures Get(StorageTemplate(), "resources", List([])) == Ok(List([StorageAccount()]))
  {
    assert StorageTemplate().fields[1].key == "resources";
  }

  /** The storage-account template: parsing gives the template itself, and
      its one resource is keyed by its name. */
  lemma StorageTemplateScenario(path: string, content: string, json: string -> Result<Value>)
    requires json(content) == Ok(StorageTemplate())
    ensures Parse(path, Ok(content), json) == Ok(StorageTemplate())
    ensures GetResourcesSpec(StorageTemplate()) == Ok([Entry(Str("mystorageaccount"), StorageAccount())])
  {
    var account := StorageAccount();
    StorageTemplateResources();
    StorageAccountKey();
    assert Iter(List([account])) == Ok([account]);
    assert [account][..0] == [];
    assert Keyed([account][..0]) == Ok([]);
    assert Keyed([account]) == Ok(Store([], Str("mystorageaccount"), account));
    assert Store([], Str("mystorageaccount"), account) == [Entry(Str("mystorageaccount"), account)];
  }

  // ---- The single-section accessors ----

  /** `get_parameters`: the `parameters` section, or `{}`. */
  function GetParameters(parsed: Value): Result<Value> {
    Get(parsed, "parameters", EmptyObj)
  }

  /** `get_variables`: the `variables` section, or `{}`. */
  function GetVariables(parsed: Value): Result<Value> {
    Get(parsed, "variables", EmptyObj)
  }

  /** `get_outputs`: the `outputs` section, or `{}`. */
  function GetOutputs(parsed: Value): Result<Value> {
    Get(parsed, "outputs", EmptyObj)
  }

  /** Each accessor reads its own section of a dict; a template that is not
      a dict makes every accessor fail. */
  lemma AccessorsReadTheirSection(parsed: Value)
    ensures parsed.Obj? ==> ReadsSection(GetParameters(parsed), parsed.fields, "parameters")
    ensures parsed.Obj? ==> ReadsSection(GetVariables(parsed), parsed.fields, "variables")
    ensures parsed.Obj? ==> ReadsSection(GetOutputs(parsed), parsed.fields, "outputs")
    ensures !parsed.Obj? ==> GetParameters(parsed).Err? && GetVariables(parsed).Err? && GetOutputs(parsed).Err?
  {
  }
}
