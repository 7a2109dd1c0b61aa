/** The Azure rule set: its four-rule table and its four predicates. The
    storage predicate reads both Terraform documents (`resource`) and ARM
    templates (`resources`); the other three read Terraform only. */
module AzureRules {
  import opened Values
  import opened Rules

  /** The fixed rule table, in registration order. */
  function Table(): (r: seq<Rule>)
    ensures |r| == 4
    ensures r[0].id == Some("azure_storage_public") && r[0].severity == Some("high") && r[0].evaluate == Some(AzureStoragePublic)
    ensures r[1].id == Some("azure_nsg_open") && r[1].severity == Some("critical") && r[1].evaluate == Some(NsgOpen)
    ensures r[2].id == Some("azure_sql_public") && r[2].severity == Some("high") && r[2].evaluate == Some(SqlPublic)
    ensures r[3].id == Some("azure_vm_no_encryption") && r[3].severity == Some("medium") && r[3].evaluate == Some(VmNoEncryption)
  {
    [StorageRule, NsgRule, SqlRule, VmRule]
  }

  const StorageRule: Rule :=
    Descriptor("azure_storage_public", "Azure Storage Public Access", "storage", "high",
               "Storage account allows public blob access",
               "Set allow_blob_public_access to false",
               ["https://docs.microsoft.com/en-us/azure/storage/blobs/anonymous-read-access-prevent"],
               AzureStoragePublic)

  const NsgRule: Rule :=
    Descriptor("azure_nsg_open", "Network Security Group Open Rules", "network", "critical",
               "NSG rule allows inbound traffic from any source",
               "Restrict source address prefixes to specific ranges",
               ["https://docs.microsoft.com/en-us/azure/virtual-network/network-security-groups-overview"],
               NsgOpen)

  const SqlRule: Rule :=
    Descriptor("azure_sql_public", "Azure SQL Public Access", "database", "high",
               "Azure SQL server allows connections from any Azure service",
               "Configure specific firewall rules instead of allowing all Azure services",
               ["https://docs.microsoft.com/en-us/azure/azure-sql/database/firewall-configure"],
               SqlPublic)

  const VmRule: Rule :=
    Descriptor("azure_vm_no_encryption", "Virtual Machine Disk Encryption", "compute", "medium",
               "Virtual machine does not have disk encryption enabled",
               "Enable Azure Disk Encryption for VM disks",
               ["https://docs.microsoft.com/en-us/azure/virtual-machines/disk-encryption-overview"],
               VmNoEncryption)

  /** `get_rules`. */
  function GetRules(content: Value): seq<Rule> {
    Table()
  }

  /** Content-based selection is not implemented: every document gets the
      same four rules, whose ids are distinct. */
  lemma GetRulesIgnoresContent(a: Value, b: Value)
    ensures GetRules(a) == GetRules(b)
    ensures |GetRules(a)| == 4 && DistinctIds(GetRules(a))
  {
  }

  // ---- Storage accounts ----

  predicate IsStorageType(t: string) { t == "azurerm_storage_account" }

  /** Public blob access is on unless the config sets it to a falsy value. */
  function StorageResource(t: string, n: string, c: Value): (r: Result<seq<Violation>>)
    ensures r.Ok? <==> c.Obj?
    ensures r.Ok? ==> |r.value| <= 1
    ensures r.Ok? ==>
              (|r.value| == 1 <==> !HasKey(c.fields, "allow_blob_public_access") ||
                                   Truthy(Lookup(c.fields, "allow_blob_public_access").value))
    ensures r.Ok? && |r.value| == 1 ==>
              r.value[0] == TerraformViolation("Storage account " + n + " allows public blob access", t, n, c)
  {
    var allow :- Get(c, "allow_blob_public_access", Bool(true));
    if Truthy(allow) then Ok([TerraformViolation("Storage account " + n + " allows public blob access", t, n, c)])
    else Ok([])
  }

  /** An ARM resource's `name` (default "unknown"), as reported. */
  function ArmName(resource: Value): Value
    requires resource.Obj?
  {
    Get(resource, "name", Str("unknown")).value
  }

  /** The violation for a public ARM storage account: the bare name as the
      resource, line 1. */
  function ArmViolation(name: Value): Violation {
    Violation(Some("Storage account " + Display(name) + " allows public blob access"), Some(name), Some(Int(1)), None)
  }

  /** One element of an ARM template's `resources`. */
  function ArmStorageEntry(resource: Value): (r: Result<seq<Violation>>)
    ensures r.Ok? ==> resource.Obj? && |r.value| <= 1
    ensures r.Ok? && |r.value| == 1 ==>
              Lookup(resource.fields, "type") == Some(Str("Microsoft.Storage/storageAccounts")) &&
              r.value[0] == ArmViolation(ArmName(resource))
    ensures resource.Obj? && Lookup(resource.fields, "type") != Some(Str("Microsoft.Storage/storageAccounts")) ==>
              r == Ok([])
    ensures resource.Obj? && Lookup(resource.fields, "type") == Some(Str("Microsoft.Storage/storageAccounts")) ==>
              var properties := Lookup(resource.fields, "properties").GetOr(EmptyObj);
              (r.Ok? <==> properties.Obj?) &&
              (r.Ok? ==> (|r.value| == 1 <==> !HasKey(properties.fields, "allowBlobPublicAccess") ||
                                              Truthy(Lookup(properties.fields, "allowBlobPublicAccess").value)))
  {
    var rtype :- Get(resource, "type", Null);
    if rtype != Str("Microsoft.Storage/storageAccounts") then Ok([])
    else
      var properties := Get(resource, "properties", EmptyObj).value;
      var allow :- Get(properties, "allowBlobPublicAccess", Bool(true));
      if Truthy(allow) then Ok([ArmViolation(ArmName(resource))]) else Ok([])
  }

  /** The loop over `content['resources']`. */
  function ArmStorage(resources: seq<Value>): Result<seq<Violation>>
    decreases |resources|
  {
    if resources == [] then Ok([])
    else Cat(ArmStorageEntry(resources[0]), ArmStorage(resources[1..]))
  }

  /** The ARM half: nothing without a `resources` key; otherwise the
      iteration over whatever it holds. */
  function ArmSection(content: Value): Result<seq<Violation>> {
    var has :- Contains(content, "resources");
    if !has then Ok([])
    else
      var section :- Index(content, "resources");
      var entries :- Iter(section);
      ArmStorage(entries)
  }

  /** `_check_storage_public_access`: the Terraform walk, then the ARM loop. */
  function CheckStoragePublicAccess(content: Value): Result<seq<Violation>> {
    Cat(ScanTerraform(content, IsStorageType, StorageResource), ArmSection(content))
  }

  /** The ARM loop as the source runs it. */
  method ScanArm(es: seq<Value>) returns (r: Result<seq<Violation>>)
    ensures r == ArmStorage(es)
  {
    var violations: seq<Violation> := [];
    var i := 0;
    assert es[0..] == es;
    CatUnit(ArmStorage(es));
    while i < |es|
      invariant 0 <= i <= |es|
      invariant ArmStorage(es) == Cat(Ok(violations), ArmStorage(es[i..]))
    {
      assert es[i..][1..] == es[i + 1..];
      var found := ArmStorageEntry(es[i]);
      if found.Err? {
        return Err(found.error);
      }
      CatAssoc(Ok(violations), found, ArmStorage(es[i + 1..]));
      violations := violations + found.value;
      i := i + 1;
    }
    assert es[|es|..] == [];
    assert violations + [] == violations;
    return Ok(violations);
  }

  /** The predicate as the source runs it: the Terraform loops, then the ARM loop. */
  method StoragePublicAccess(content: Value) returns (r: Result<seq<Violation>>)
    ensures r == CheckStoragePublicAccess(content)
  {
    var terraform := Scan(content, IsStorageType, StorageResource);
    if terraform.Err? { return terraform; }
    // the Terraform walk succeeded, so `content` supports `in`
    var has := Contains(content, "resources").value;
    if !has {
      assert ArmSection(content) == Ok([]);
      return Cat(terraform, Ok([]));
    }
    var section := Index(content, "resources");
    if section.Err? { return Err(section.error); }
    var entries := Iter(section.value);
    if entries.Err? { return Err(entries.error); }
    var arm := ScanArm(entries.value);
    assert ArmSection(content) == arm;
    return Cat(terraform, arm);
  }

  // ---- Network security rules ----

  predicate IsNsgRuleType(t: string) { t == "azurerm_network_security_rule" }

  predicate OpenPrefix(prefix: Value) {
    prefix == Str("*") || prefix == Str("0.0.0.0/0") || prefix == Str("Internet")
  }

  /** `access` is only read once the prefix is open; only a string has `.lower()`. */
  function NsgResource(t: string, n: string, c: Value): (r: Result<seq<Violation>>)
    ensures r.Ok? ==> c.Obj? && |r.value| <= 1
    ensures c.Obj? && !OpenPrefix(Lookup(c.fields, "source_address_prefix").GetOr(Str(""))) ==> r == Ok([])
    ensures c.Obj? && OpenPrefix(Lookup(c.fields, "source_address_prefix").GetOr(Str(""))) ==>
              var access := Lookup(c.fields, "access").GetOr(Str(""));
              (r.Ok? <==> access.Str?) &&
              (r.Ok? ==> (|r.value| == 1 <==> Lower(access.s) == "allow"))
    ensures r.Ok? && |r.value| == 1 ==>
              r.value[0] == TerraformViolation("NSG rule " + n + " allows traffic from any source", t, n, c)
  {
    var prefix :- Get(c, "source_address_prefix", Str(""));
    if !OpenPrefix(prefix) then Ok([])
    else
      var access := Get(c, "access", Str("")).value;
      var lowered :- LowerOf(access);
      if lowered == "allow" then Ok([TerraformViolation("NSG rule " + n + " allows traffic from any source", t, n, c)])
      else Ok([])
  }

  function CheckNsgOpenRules(content: Value): Result<seq<Violation>> {
    ScanTerraform(content, IsNsgRuleType, NsgResource)
  }

  // ---- SQL firewall rules ----

  predicate IsSqlFirewallType(t: string) { t == "azurerm_sql_firewall_rule" }

  /** A rule starting at 0.0.0.0 and ending at 0.0.0.0 (all Azure services)
      or at 255.255.255.255 (everything). */
  predicate PermissiveRange(start: Value, end: Value) {
    (start == Str("0.0.0.0") && end == Str("0.0.0.0")) || (start == Str("0.0.0.0") && end == Str("255.255.255.255"))
  }

  function SqlResource(t: string, n: string, c: Value): (r: Result<seq<Violation>>)
    ensures r.Ok? <==> c.Obj?
    ensures r.Ok? ==> |r.value| <= 1
    ensures r.Ok? ==>
              (|r.value| == 1 <==> PermissiveRange(Lookup(c.fields, "start_ip_address").GetOr(Str("")),
                                                   Lookup(c.fields, "end_ip_address").GetOr(Str(""))))
    ensures r.Ok? && |r.value| == 1 ==>
              r.value[0] == TerraformViolation("SQL firewall rule " + n + " is too permissive", t, n, c)
  {
    var start :- Get(c, "start_ip_address", Str(""));
    var end := Get(c, "end_ip_address", Str("")).value;
    if PermissiveRange(start, end) then
      Ok([TerraformViolation("SQL firewall rule " + n + " is too permissive", t, n, c)])
    else Ok([])
  }

  function CheckSqlPublicAccess(content: Value): Result<seq<Violation>> {
    ScanTerraform(content, IsSqlFirewallType, SqlResource)
  }

  // ---- Virtual machine disks ----

  predicate IsVmType(t: string) {
    t == "azurerm_linux_virtual_machine" || t == "azurerm_windows_virtual_machine"
  }

  /** Encryption counts as on only with non-empty `encryption_settings`
      whose `enabled` is truthy. */
  predicate EncryptionOn(settings: Value)
    requires settings.Obj?
  {
    Truthy(settings) && Truthy(Lookup(settings.fields, "enabled").GetOr(Bool(false)))
  }

  function VmResource(t: string, n: string, c: Value): (r: Result<seq<Violation>>)
    ensures r.Ok? ==> c.Obj? && |r.value| <= 1
    ensures c.Obj? ==>
              var osDisk := Lookup(c.fields, "os_disk").GetOr(EmptyObj);
              (!osDisk.Obj? ==> r.Err?) &&
              (osDisk.Obj? ==>
                 var settings := Lookup(osDisk.fields, "encryption_settings").GetOr(EmptyObj);
                 (!Truthy(settings) ==> r.Ok? && |r.value| == 1) &&
                 (Truthy(settings) && !settings.Obj? ==> r.Err?) &&
                 (settings.Obj? ==> r.Ok? && (|r.value| == 1 <==> !EncryptionOn(settings))))
    ensures r.Ok? && |r.value| == 1 ==>
              r.value[0] == TerraformViolation("VM " + n + " does not have disk encryption enabled", t, n, c)
  {
    var osDisk :- Get(c, "os_disk", EmptyObj);
    var settings :- Get(osDisk, "encryption_settings", EmptyObj);
    var unencrypted :- if !Truthy(settings) then Ok(true)
                       else (var enabled :- Get(settings, "enabled", Bool(false)); Ok(!Truthy(enabled)));
    if unencrypted then Ok([TerraformViolation("VM " + n + " does not have disk encryption enabled", t, n, c)])
    else Ok([])
  }

  function CheckVmDiskEncryption(content: Value): Result<seq<Violation>> {
    ScanTerraform(content, IsVmType, VmResource)
  }

  // ---- Properties of the rule set ----

  /** Element `k` of `resources` is a storage account and `v` is the
      violation reported for it. */
  predicate StorageReportAt(resources: seq<Value>, k: int, v: Violation) {
    0 <= k < |resources| && resources[k].Obj? &&
    Lookup(resources[k].fields, "type") == Some(Str("Microsoft.Storage/storageAccounts")) &&
    v == ArmViolation(ArmName(resources[k]))
  }

  /** The violation of the first element is reported for element 0. */
  lemma HeadReport(resources: seq<Value>, v: Violation)
    requires resources != [] && ArmStorageEntry(resources[0]).Ok?
    requires v in ArmStorageEntry(resources[0]).value
    ensures v.line == Some(Int(1)) && StorageReportAt(resources, 0, v)
  {
    assert v == ArmStorageEntry(resources[0]).value[0];
  }

  /** A report for element `k` of the tail is one for element `k + 1`. */
  lemma ShiftReport(resources: seq<Value>, k: int, v: Violation)
    requires resources != [] && StorageReportAt(resources[1..], k, v)
    ensures StorageReportAt(resources, k + 1, v)
  {
    assert resources[1..][k] == resources[k + 1];
  }

  /** Every ARM violation reports line 1 and, as its resource, the name of
      some storage-typed element of the list; at most one per element. */
  lemma {:induction false} ArmStorageReports(resources: seq<Value>)
    ensures var r := ArmStorage(resources);
            r.Ok? ==>
              |r.value| <= |resources| &&
              forall v <- r.value :: v.line == Some(Int(1)) && exists k :: StorageReportAt(resources, k, v)
    decreases |resources|
  {
    if resources != [] && ArmStorage(resources).Ok? {
      var rest := resources[1..];
      ArmStorageReports(rest);
      var head := ArmStorageEntry(resources[0]);
      var tail := ArmStorage(rest);
      assert ArmStorage(resources).value == head.value + tail.value;
      forall v <- ArmStorage(resources).value
        ensures v.line == Some(Int(1)) && exists k :: StorageReportAt(resources, k, v)
      {
        if v in head.value {
          HeadReport(resources, v);
        } else {
          var k :| StorageReportAt(rest, k, v);
          ShiftReport(resources, k, v);
        }
      }
    }
  }

  /** The storage predicate reports the Terraform violations first, then the
      ARM ones; a document without `resources` gets only the former. */
  lemma StorageOrder(content: Value)
    requires content.Obj?
    ensures var r := CheckStoragePublicAccess(content);
            var tf := ScanTerraform(content, IsStorageType, StorageResource);
            (r.Ok? ==> tf.Ok? && r.value[..|tf.value|] == tf.value) &&
            (!HasKey(content.fields, "resources") ==> r == tf)
  {
    var r := CheckStoragePublicAccess(content);
    var tf := ScanTerraform(content, IsStorageType, StorageResource);
    if r.Ok? {
      assert r.value == tf.value + ArmSection(content).value;
      assert r.value[..|tf.value|] == tf.value;
    }
    if !HasKey(content.fields, "resources") {
      CatUnitRight(tf);
    }
  }

  /** An `Allow` rule from any source is flagged. */
  lemma NsgAllowFromAny()
    ensures var c := Obj([Field("source_address_prefix", Str("*")), Field("access", Str("Allow"))]);
            NsgResource("azurerm_network_security_rule", "r", c).Ok? &&
            |NsgResource("azurerm_network_security_rule", "r", c).value| == 1
  {
    var c := Obj([Field("source_address_prefix", Str("*")), Field("access", Str("Allow"))]);
    assert Lookup(c.fields, "source_address_prefix") == Some(Str("*"));
    assert "access"[0] != "source_address_prefix"[0];
    assert Lookup(c.fields, "access") == Some(Str("Allow"));
    assert OpenPrefix(Str("*"));
    var lowered := Lower("Allow");
    assert lowered[0] == 'a' && lowered[1] == 'l' && lowered[2] == 'l' && lowered[3] == 'o' && lowered[4] == 'w';
    assert lowered == "allow";
  }

  /** A rule from a private range is not flagged, whatever its access. */
  lemma NsgPrivateSourceNotFlagged()
    ensures var c := Obj([Field("source_address_prefix", Str("10.0.0.0/8")), Field("access", Str("Allow"))]);
            NsgResource("azurerm_network_security_rule", "r", c) == Ok([])
  {
    var c := Obj([Field("source_address_prefix", Str("10.0.0.0/8")), Field("access", Str("Allow"))]);
    assert Lookup(c.fields, "source_address_prefix") == Some(Str("10.0.0.0/8"));
    var p := "10.0.0.0/8";
    assert p[0] != "*"[0] && p[1] != "0.0.0.0/0"[1] && p[0] != "Internet"[0];
  }

  /** The NSG predicate's `access` test ignores letter case, and only an open
      source prefix is flagged. */
  lemma NsgAccessCase()
    ensures var c := Obj([Field("source_address_prefix", Str("*")), Field("access", Str("Allow"))]);
            NsgResource("azurerm_network_security_rule", "r", c).Ok? &&
            |NsgResource("azurerm_network_security_rule", "r", c).value| == 1
    ensures var c := Obj([Field("source_address_prefix", Str("10.0.0.0/8")), Field("access", Str("Allow"))]);
            NsgResource("azurerm_network_security_rule", "r", c) == Ok([])
  {
    NsgAllowFromAny();
    NsgPrivateSourceNotFlagged();
  }

  /** A VM without `os_disk` is unencrypted; one with encryption enabled is not. */
  lemma VmScenario()
    ensures var c := Obj([Field("size", Str("B1"))]);
            VmResource("azurerm_linux_virtual_machine", "vm", c).Ok? &&
            |VmResource("azurerm_linux_virtual_machine", "vm", c).value| == 1
    ensures var c := Obj([Field("os_disk", Obj([Field("encryption_settings", Obj([Field("enabled", Bool(true))]))]))]);
            VmResource("azurerm_linux_virtual_machine", "vm", c) == Ok([])
  {
  }

  function PublicStorageConfig(): Value {
    Obj([Field("allow_blob_public_access", Bool(true)), Field("__line__", Int(3))])
  }

  /** The storage document of the Azure rule test:
      `{resource: {azurerm_storage_account: {public_storage: {allow_blob_public_access: True, __line__: 3}}}}`. */
  function PublicStorageDocument(): Value {
    Obj([Field("resource", Obj([Field("azurerm_storage_account", Obj([Field("public_storage", PublicStorageConfig())]))]))])
  }

  lemma PublicStorageViolation()
    ensures StorageResource("azurerm_storage_account", "public_storage", PublicStorageConfig())
         == Ok([TerraformViolation("Storage account " + "public_storage" + " allows public blob access",
                                   "azurerm_storage_account", "public_storage", PublicStorageConfig())])
    ensures LineOf(PublicStorageConfig()) == Int(3)
  {
    var config := PublicStorageConfig();
    assert Lookup(config.fields, "allow_blob_public_access") == Some(Bool(true));
    assert Lookup(config.fields, "__line__") == Some(Int(3));
  }

  /** The storage document has no ARM `resources` section. */
  lemma PublicStorageNoArm()
    ensures ArmSection(PublicStorageDocument()) == Ok([])
  {
    var doc := PublicStorageDocument();
    assert doc.fields[0].key == "resource";
    assert |doc.fields[0].key| != |"resources"|;
    assert !HasKey(doc.fields, "resources");
  }

  /** The storage document's Terraform walk reports only `public_storage`. */
  lemma PublicStorageTerraform()
    ensures ScanTerraform(PublicStorageDocument(), IsStorageType, StorageResource)
         == Ok([TerraformViolation("Storage account " + "public_storage" + " allows public blob access",
                                   "azurerm_storage_account", "public_storage", PublicStorageConfig())])
  {
    var doc := PublicStorageDocument();
    assert doc.fields[0].key == "resource";
    assert Lookup(doc.fields, "resource")
        == Some(Obj([Field("azurerm_storage_account", Obj([Field("public_storage", PublicStorageConfig())]))]));
    ScanSingleResource(doc, "azurerm_storage_account", "public_storage", PublicStorageConfig(), IsStorageType, StorageResource);
    PublicStorageViolation();
  }

  /** One violation naming `public_storage`, at line 3. */
  lemma PublicStorageScenario()
    ensures var r := CheckStoragePublicAccess(PublicStorageDocument());
            r.Ok? && |r.value| == 1 && r.value[0].message.Some? &&
            IsSubstring("public_storage", r.value[0].message.value) &&
            r.value[0].line == Some(Int(3))
  {
    PublicStorageNoArm();
    PublicStorageTerraform();
    PublicStorageViolation();
    CatUnitRight(ScanTerraform(PublicStorageDocument(), IsStorageType, StorageResource));
    SubstringOfConcat("Storage account ", "public_storage", " allows public blob access");
  }
}
