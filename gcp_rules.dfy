/** The GCP rule set: its four-rule table and its four Terraform predicates. */
module GcpRules {
  import opened Values
  import opened Rules

  /** The fixed rule table, in registration order. */
  function Table(): (r: seq<Rule>)
    ensures |r| == 4
    ensures r[0].id == Some("gcp_compute_public_ip") && r[0].severity == Some("medium") && r[0].evaluate == Some(ComputePublicIp)
    ensures r[1].id == Some("gcp_firewall_open") && r[1].severity == Some("critical") && r[1].evaluate == Some(FirewallOpen)
    ensures r[2].id == Some("gcp_storage_public") && r[2].severity == Some("high") && r[2].evaluate == Some(GcpStoragePublic)
    ensures r[3].id == Some("gcp_sql_public_ip") && r[3].severity == Some("high") && r[3].evaluate == Some(SqlPublicIp)
  {
    [ComputeRule, FirewallRule, StorageRule, SqlRule]
  }

  const ComputeRule: Rule :=
    Descriptor("gcp_compute_public_ip", "Compute Instance Public IP", "compute", "medium",
               "Compute instance has a public IP address",
               "Remove public IP and use Cloud NAT or bastion host for internet access",
               ["https://cloud.google.com/compute/docs/ip-addresses/external-ip-addresses"],
               ComputePublicIp)

  const FirewallRule: Rule :=
    Descriptor("gcp_firewall_open", "Firewall Rule Open to Internet", "network", "critical",
               "Firewall rule allows traffic from 0.0.0.0/0",
               "Restrict source ranges to specific IP addresses or ranges",
               ["https://cloud.google.com/vpc/docs/firewalls"],
               FirewallOpen)

  const StorageRule: Rule :=
    Descriptor("gcp_storage_public", "Cloud Storage Public Access", "storage", "high",
               "Cloud Storage bucket allows public access",
               "Remove allUsers and allAuthenticatedUsers from bucket IAM",
               ["https://cloud.google.com/storage/docs/access-control/making-data-public"],
               GcpStoragePublic)

  const SqlRule: Rule :=
    Descriptor("gcp_sql_public_ip", "Cloud SQL Public IP", "database", "high",
               "Cloud SQL instance has a public IP address",
               "Use private IP and remove public IP configuration",
               ["https://cloud.google.com/sql/docs/mysql/private-ip"],
               SqlPublicIp)

  /** `get_rules`. */
  function GetRules(content: Value): seq<Rule> {
    Table()
  }

  /** Content-based selection is not implemented: every document gets the
      same four rules, whose ids are distinct. */
  lemma GetRulesIgnoresContent(a: Value, b: Value)
    ensures GetRules(a) == GetRules(b)
    ensures |GetRules(a)| == 4 && DistinctIds(GetRules(a))
  {
  }

  // ---- Compute instances ----

  predicate IsComputeType(t: string) { t == "google_compute_instance" }

  /** An interface has a public IP when its `access_config` is truthy. */
  function HasAccessConfig(iface: Value): (r: Result<bool>)
    ensures r.Ok? <==> iface.Obj?
    ensures r.Ok? ==> (r.value <==> Truthy(Lookup(iface.fields, "access_config").GetOr(List([]))))
  {
    var accessConfigs :- Get(iface, "access_config", List([]));
    Ok(Truthy(accessConfigs))
  }

  /** The interface loop with its `break`: stops at the first public
      interface, so only interfaces up to that one must be dicts. */
  function AnyPublicInterface(ifaces: seq<Value>): Result<bool>
    decreases |ifaces|
  {
    if ifaces == [] then Ok(false)
    else
      var public :- HasAccessConfig(ifaces[0]);
      if public then Ok(true) else AnyPublicInterface(ifaces[1..])
  }

  /** Interface `k` is public and every one before it is a dict without
      `access_config`: the loop stops there. */
  predicate FirstPublicAt(ifaces: seq<Value>, k: int) {
    0 <= k < |ifaces| && HasAccessConfig(ifaces[k]) == Ok(true) &&
    forall j :: 0 <= j < k ==> HasAccessConfig(ifaces[j]) == Ok(false)
  }

  lemma {:induction false} FirstPublicGivesTrue(ifaces: seq<Value>, k: int)
    requires FirstPublicAt(ifaces, k)
    ensures AnyPublicInterface(ifaces) == Ok(true)
    decreases |ifaces|
  {
    if k > 0 {
      var rest := ifaces[1..];
      assert HasAccessConfig(ifaces[0]) == Ok(false);
      assert rest[k - 1] == ifaces[k];
      forall j | 0 <= j < k - 1 ensures HasAccessConfig(rest[j]) == Ok(false) {
        assert rest[j] == ifaces[j + 1];
      }
      FirstPublicGivesTrue(rest, k - 1);
      assert AnyPublicInterface(ifaces) == AnyPublicInterface(rest);
    }
  }

  lemma {:induction false} TrueHasFirstPublic(ifaces: seq<Value>) returns (k: int)
    requires AnyPublicInterface(ifaces) == Ok(true)
    ensures FirstPublicAt(ifaces, k)
    decreases |ifaces|
  {
    if HasAccessConfig(ifaces[0]) == Ok(true) {
      k := 0;
    } else {
      var rest := ifaces[1..];
      var k' := TrueHasFirstPublic(rest);
      k := k' + 1;
      assert ifaces[k] == rest[k'];
      assert forall j :: 1 <= j < k ==> ifaces[j] == rest[j - 1];
    }
  }

  lemma {:induction false} FalseIsAllPrivate(ifaces: seq<Value>)
    ensures AnyPublicInterface(ifaces) == Ok(false) <==> forall k :: 0 <= k < |ifaces| ==> HasAccessConfig(ifaces[k]) == Ok(false)
    decreases |ifaces|
  {
    if ifaces != [] {
      var rest := ifaces[1..];
      FalseIsAllPrivate(rest);
      assert forall k :: 1 <= k < |ifaces| ==> ifaces[k] == rest[k - 1];
    }
  }

  /** The loop answers true exactly when some interface is public and every
      one before it is a dict without `access_config`, and false exactly
      when no interface is public and all are dicts. */
  lemma AnyPublicInterfaceMeaning(ifaces: seq<Value>)
    ensures AnyPublicInterface(ifaces) == Ok(true) <==> exists k :: FirstPublicAt(ifaces, k)
    ensures AnyPublicInterface(ifaces) == Ok(false) <==> forall k :: 0 <= k < |ifaces| ==> HasAccessConfig(ifaces[k]) == Ok(false)
  {
    if AnyPublicInterface(ifaces) == Ok(true) {
      var k := TrueHasFirstPublic(ifaces);
    }
    if exists k :: FirstPublicAt(ifaces, k) {
      var k :| FirstPublicAt(ifaces, k);
      FirstPublicGivesTrue(ifaces, k);
    }
    FalseIsAllPrivate(ifaces);
  }

  /** The interface loop as the source runs it, leaving at the first
      interface with an `access_config`. */
  method PublicInterfaceLoop(ifaces: seq<Value>) returns (r: Result<bool>)
    ensures r == AnyPublicInterface(ifaces)
  {
    r := Ok(false);
    var i := 0;
    assert ifaces[0..] == ifaces;
    while i < |ifaces|
      invariant 0 <= i <= |ifaces|
      invariant AnyPublicInterface(ifaces) == AnyPublicInterface(ifaces[i..])
    {
      assert ifaces[i..][1..] == ifaces[i + 1..];
      var public := HasAccessConfig(ifaces[i]);
      if public.Err? {
        return Err(public.error);
      }
      if public.value {
        r := Ok(true);
        break;
      }
      i := i + 1;
    }
  }

  /** One violation per instance, however many of its interfaces are public. */
  function ComputeResource(t: string, n: string, c: Value): (r: Result<seq<Violation>>)
    ensures r.Ok? ==> forall v <- r.value :: v.resource == Some(Str(t + "." + n))
    ensures r.Ok? ==> c.Obj? && |r.value| <= 1
    ensures c.Obj? ==>
              var ifaces := AsList(Lookup(c.fields, "network_interface").GetOr(List([])));
              (r.Ok? <==> AnyPublicInterface(ifaces).Ok?) &&
              (r.Ok? ==> (|r.value| == 1 <==> AnyPublicInterface(ifaces) == Ok(true)))
    ensures r.Ok? && |r.value| == 1 ==>
              r.value[0] == TerraformViolation("Compute instance " + n + " has a public IP", t, n, c)
  {
    var interfaces :- Get(c, "network_interface", List([]));
    var public :- AnyPublicInterface(AsList(interfaces));
    if public then Ok([TerraformViolation("Compute instance " + n + " has a public IP", t, n, c)]) else Ok([])
  }

  function CheckComputePublicIp(content: Value): Result<seq<Violation>> {
    ScanTerraform(content, IsComputeType, ComputeResource)
  }

  // ---- Firewall rules ----

  predicate IsFirewallType(t: string) { t == "google_compute_firewall" }

  /** Only ingress rules (the default direction) whose source ranges contain
      0.0.0.0/0 and that carry allow rules are flagged; `source_ranges` is
      only searched for ingress rules. */
  function FirewallResource(t: string, n: string, c: Value): (r: Result<seq<Violation>>)
    ensures r.Ok? ==> forall v <- r.value :: v.resource == Some(Str(t + "." + n))
    ensures r.Ok? ==> c.Obj? && |r.value| <= 1
    ensures c.Obj? && Lookup(c.fields, "direction").GetOr(Str("INGRESS")) != Str("INGRESS") ==> r == Ok([])
    ensures c.Obj? && Lookup(c.fields, "direction").GetOr(Str("INGRESS")) == Str("INGRESS") ==>
              var ranges := Contains(Lookup(c.fields, "source_ranges").GetOr(List([])), "0.0.0.0/0");
              (r.Ok? <==> ranges.Ok?) &&
              (r.Ok? ==> (|r.value| == 1 <==> ranges.value && Truthy(Lookup(c.fields, "allow").GetOr(List([])))))
    ensures r.Ok? && |r.value| == 1 ==>
              r.value[0] == TerraformViolation("Firewall rule " + n + " allows ingress from anywhere", t, n, c)
  {
    var sourceRanges :- Get(c, "source_ranges", List([]));
    var direction := Get(c, "direction", Str("INGRESS")).value;
    var open :- if direction == Str("INGRESS") then Contains(sourceRanges, "0.0.0.0/0") else Ok(false);
    if open then
      var allowRules := Get(c, "allow", List([])).value;
      if Truthy(allowRules) then Ok([TerraformViolation("Firewall rule " + n + " allows ingress from anywhere", t, n, c)])
      else Ok([])
    else Ok([])
  }

  function CheckFirewallOpen(content: Value): Result<seq<Violation>> {
    ScanTerraform(content, IsFirewallType, FirewallResource)
  }

  // ---- Storage bucket IAM members ----

  predicate IsBucketIamMemberType(t: string) { t == "google_storage_bucket_iam_member" }

  predicate PublicMember(member: Value) {
    member == Str("allUsers") || member == Str("allAuthenticatedUsers")
  }

  function StorageResource(t: string, n: string, c: Value): (r: Result<seq<Violation>>)
    ensures r.Ok? ==> forall v <- r.value :: v.resource == Some(Str(t + "." + n))
    ensures r.Ok? <==> c.Obj?
    ensures r.Ok? ==> |r.value| <= 1
    ensures r.Ok? ==> (|r.value| == 1 <==> PublicMember(Lookup(c.fields, "member").GetOr(Str(""))))
    ensures r.Ok? && |r.value| == 1 ==>
              r.value[0] == TerraformViolation("Storage bucket IAM " + n + " grants public access", t, n, c)
  {
    var member :- Get(c, "member", Str(""));
    if PublicMember(member) then Ok([TerraformViolation("Storage bucket IAM " + n + " grants public access", t, n, c)])
    else Ok([])
  }

  function CheckStoragePublicAccess(content: Value): Result<seq<Violation>> {
    ScanTerraform(content, IsBucketIamMemberType, StorageResource)
  }

  // ---- Cloud SQL instances ----

  predicate IsSqlInstanceType(t: string) { t == "google_sql_database_instance" }

  /** Public IP counts as enabled unless `settings.ip_configuration.ipv4_enabled`
      is present and falsy. */
  function SqlResource(t: string, n: string, c: Value): (r: Result<seq<Violation>>)
    ensures r.Ok? ==> forall v <- r.value :: v.resource == Some(Str(t + "." + n))
    ensures r.Ok? ==> c.Obj? && |r.value| <= 1
    ensures c.Obj? ==>
              var settings := Lookup(c.fields, "settings").GetOr(EmptyObj);
              (!settings.Obj? ==> r.Err?) &&
              (settings.Obj? ==>
                 var ipConfiguration := Lookup(settings.fields, "ip_configuration").GetOr(EmptyObj);
                 (r.Ok? <==> ipConfiguration.Obj?) &&
                 (r.Ok? ==> (|r.value| == 1 <==> Truthy(Lookup(ipConfiguration.fields, "ipv4_enabled").GetOr(Bool(true))))))
    ensures r.Ok? && |r.value| == 1 ==>
              r.value[0] == TerraformViolation("Cloud SQL instance " + n + " has public IP enabled", t, n, c)
  {
    var settings :- Get(c, "settings", EmptyObj);
    var ipConfiguration :- Get(settings, "ip_configuration", EmptyObj);
    var ipv4Enabled :- Get(ipConfiguration, "ipv4_enabled", Bool(true));
    if Truthy(ipv4Enabled) then Ok([TerraformViolation("Cloud SQL instance " + n + " has public IP enabled", t, n, c)])
    else Ok([])
  }

  function CheckSqlPublicIp(content: Value): Result<seq<Violation>> {
    ScanTerraform(content, IsSqlInstanceType, SqlResource)
  }

  // ---- Properties of the rule set ----

  /** Every GCP predicate reports at most one violation per matching resource,
      and every violation names `<type>.<name>` of one. */
  lemma SingleViolationChecks(content: Value, types: seq<Field>)
    requires content.Obj? && Lookup(content.fields, "resource") == Some(Obj(types))
    ensures var r := CheckComputePublicIp(content);
            r.Ok? ==> MatchingResources(types, IsComputeType).Ok? && |r.value| <= |MatchingResources(types, IsComputeType).value|
    ensures var r := CheckFirewallOpen(content);
            r.Ok? ==> MatchingResources(types, IsFirewallType).Ok? && |r.value| <= |MatchingResources(types, IsFirewallType).value|
    ensures var r := CheckStoragePublicAccess(content);
            r.Ok? ==> MatchingResources(types, IsBucketIamMemberType).Ok? &&
                      |r.value| <= |MatchingResources(types, IsBucketIamMemberType).value|
    ensures var r := CheckSqlPublicIp(content);
            r.Ok? ==> MatchingResources(types, IsSqlInstanceType).Ok? && |r.value| <= |MatchingResources(types, IsSqlInstanceType).value|
    ensures var r := CheckComputePublicIp(content);
            r.Ok? ==> NamedAfterMatching(r.value, MatchingResources(types, IsComputeType).value, IsComputeType)
    ensures var r := CheckFirewallOpen(content);
            r.Ok? ==> NamedAfterMatching(r.value, MatchingResources(types, IsFirewallType).value, IsFirewallType)
    ensures var r := CheckStoragePublicAccess(content);
            r.Ok? ==> NamedAfterMatching(r.value, MatchingResources(types, IsBucketIamMemberType).value, IsBucketIamMemberType)
    ensures var r := CheckSqlPublicIp(content);
            r.Ok? ==> NamedAfterMatching(r.value, MatchingResources(types, IsSqlInstanceType).value, IsSqlInstanceType)
  {
    ScanAtMostOne(content, types, IsComputeType, ComputeResource);
    ScanAtMostOne(content, types, IsFirewallType, FirewallResource);
    ScanAtMostOne(content, types, IsBucketIamMemberType, StorageResource);
    ScanAtMostOne(content, types, IsSqlInstanceType, SqlResource);
    ScanAddresses(content, types, IsComputeType, ComputeResource);
    ScanAddresses(content, types, IsFirewallType, FirewallResource);
    ScanAddresses(content, types, IsBucketIamMemberType, StorageResource);
    ScanAddresses(content, types, IsSqlInstanceType, SqlResource);
  }

  /** The `break`: an interface list whose first entry is public is flagged
      whatever follows it, even entries that are not dicts. */
  lemma FirstInterfaceDecides(first: Value, rest: seq<Value>)
    requires HasAccessConfig(first) == Ok(true)
    ensures AnyPublicInterface([first] + rest) == Ok(true)
  {
    assert ([first] + rest)[0] == first;
  }

  /** A firewall rule with an egress direction is never flagged, even when its
      `source_ranges` could not be searched. */
  lemma EgressNeverFlagged(n: string, ranges: Value)
    ensures var c := Obj([Field("direction", Str("EGRESS")), Field("source_ranges", ranges)]);
            FirewallResource("google_compute_firewall", n, c) == Ok([])
  {
  }

  /** Public IP is the default when `ip_configuration` is silent. */
  lemma SqlDefaultPublic(n: string)
    ensures var c := Obj([Field("settings", Obj([Field("ip_configuration", EmptyObj)]))]);
            var r := SqlResource("google_sql_database_instance", n, c);
            r.Ok? && |r.value| == 1
  {
  }

  function PublicVmConfig(): Value {
    Obj([Field("network_interface", List([Obj([Field("access_config", List([EmptyObj]))])])), Field("__line__", Int(8))])
  }

  /** The compute document of the GCP rule test:
      one instance `public_vm` whose only interface has one access config. */
  function PublicVmDocument(): Value {
    Obj([Field("resource", Obj([Field("google_compute_instance", Obj([Field("public_vm", PublicVmConfig())]))]))])
  }

  lemma PublicVmViolation()
    ensures ComputeResource("google_compute_instance", "public_vm", PublicVmConfig())
         == Ok([TerraformViolation("Compute instance " + "public_vm" + " has a public IP",
                                   "google_compute_instance", "public_vm", PublicVmConfig())])
    ensures LineOf(PublicVmConfig()) == Int(8)
  {
    var config := PublicVmConfig();
    var iface := Obj([Field("access_config", List([EmptyObj]))]);
    assert Lookup(config.fields, "network_interface") == Some(List([iface]));
    assert HasAccessConfig(iface) == Ok(true);
    FirstInterfaceDecides(iface, []);
    assert [iface] + [] == [iface];
    assert Lookup(config.fields, "__line__") == Some(Int(8));
  }

  /** One violation naming `public_vm`, at line 8. */
  lemma PublicVmScenario()
    ensures var r := CheckComputePublicIp(PublicVmDocument());
            r.Ok? && |r.value| == 1 &&
            IsSubstring("public_vm", r.value[0].message.value) &&
            r.value[0].line == Some(Int(8))
  {
    var config := PublicVmConfig();
    var doc := PublicVmDocument();
    assert Lookup(doc.fields, "resource")
        == Some(Obj([Field("google_compute_instance", Obj([Field("public_vm", config)]))]));
    ScanSingleResource(doc, "google_compute_instance", "public_vm", config, IsComputeType, ComputeResource);
    PublicVmViolation();
    SubstringOfConcat("Compute instance ", "public_vm", " has a public IP");
  }
}
