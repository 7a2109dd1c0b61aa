/** The AWS rule set: its four-rule table and the four predicates it
    registers (the S3 check of the AWS rules file and the security-group, RDS
    and IAM checks together with the S3 publicity test of the analyzer file). */
module AwsRules {
  import opened Values
  import opened Rules

  /** The fixed rule table, in registration order. */
  function Table(): (r: seq<Rule>)
    ensures |r| == 4
    ensures r[0].id == Some("aws_s3_public_bucket") && r[0].severity == Some("high") && r[0].evaluate == Some(S3PublicBucket)
    ensures r[1].id == Some("aws_security_group_open") && r[1].severity == Some("critical") && r[1].evaluate == Some(SecurityGroupOpen)
    ensures r[2].id == Some("aws_rds_public_access") && r[2].severity == Some("high") && r[2].evaluate == Some(RdsPublicAccess)
    ensures r[3].id == Some("aws_iam_wildcard_policy") && r[3].severity == Some("medium") && r[3].evaluate == Some(IamWildcardPolicy)
  {
    [S3Rule, SecurityGroupRule, RdsRule, IamRule]
  }

  const S3Rule: Rule :=
    Descriptor("aws_s3_public_bucket", "S3 Bucket Public Access", "storage", "high",
               "S3 bucket allows public read or write access",
               "Set bucket ACL to private and use bucket policies for controlled access",
               ["https://docs.aws.amazon.com/AmazonS3/latest/userguide/access-control-block-public-access.html"],
               S3PublicBucket)

  const SecurityGroupRule: Rule :=
    Descriptor("aws_security_group_open", "Security Group Open to World", "network", "critical",
               "Security group allows inbound traffic from 0.0.0.0/0",
               "Restrict CIDR blocks to specific IP ranges",
               ["https://docs.aws.amazon.com/vpc/latest/userguide/VPC_SecurityGroups.html"],
               SecurityGroupOpen)

  const RdsRule: Rule :=
    Descriptor("aws_rds_public_access", "RDS Instance Public Access", "database", "high",
               "RDS instance is publicly accessible",
               "Set publicly_accessible to false",
               ["https://docs.aws.amazon.com/AmazonRDS/latest/UserGuide/Overview.RDSSecurityGroups.html"],
               RdsPublicAccess)

  const IamRule: Rule :=
    Descriptor("aws_iam_wildcard_policy", "IAM Policy with Wildcard Actions", "identity", "medium",
               "IAM policy contains wildcard (*) actions",
               "Use specific actions instead of wildcards",
               ["https://docs.aws.amazon.com/IAM/latest/UserGuide/best-practices.html"],
               IamWildcardPolicy)

  /** `get_rules`. */
  function GetRules(content: Value): seq<Rule> {
    Table()
  }

  /** Content-based selection is not implemented: every document gets the
      same four rules, whose ids are distinct. */
  lemma GetRulesIgnoresContent(a: Value, b: Value)
    ensures GetRules(a) == GetRules(b)
    ensures |GetRules(a)| == 4 && DistinctIds(GetRules(a))
  {
  }

  /** The attribute through which each table entry names its check. */
  const Registered: seq<(string, Check)> :=
    [("_check_s3_public_bucket", S3PublicBucket), ("_check_security_group_open", SecurityGroupOpen),
     ("_check_rds_public_access", RdsPublicAccess), ("_check_iam_wildcard_policy", IamWildcardPolicy)]

  /** The checks the AWS rules class defines itself; the other three are
      methods of the analyzer class. */
  const OwnChecks: set<string> := {"_check_s3_public_bucket"}

  /** The first registered attribute that `defined` lacks. */
  function FirstMissing(defined: set<string>, names: seq<(string, Check)>): (r: Option<string>)
    ensures r.None? <==> forall k :: 0 <= k < |names| ==> names[k].0 in defined
    ensures r.Some? ==> exists k :: 0 <= k < |names| && names[k].0 == r.value && names[k].0 !in defined
    decreases |names|
  {
    if names == [] then None
    else if names[0].0 !in defined then Some(names[0].0)
    else
      var r := FirstMissing(defined, names[1..]);
      assert forall k :: 1 <= k < |names| ==> names[k] == names[1..][k - 1];
      r
  }

  /** The `AttributeError` text for a missing attribute of the AWS rules. */
  function NoAttribute(name: string): string {
    "'AWSRules' object has no attribute '" + name + "'"
  }

  /** Building the rule table in a class that defines the checks `defined`:
      each `self._check_*` is looked up in order, and a missing one raises
      `AttributeError`. */
  function BuildTable(defined: set<string>): (r: Result<seq<Rule>>)
    ensures r.Ok? <==> forall k :: 0 <= k < |Registered| ==> Registered[k].0 in defined
    ensures r.Ok? ==> r.value == Table()
  {
    match FirstMissing(defined, Registered)
    case Some(name) => Err(NoAttribute(name))
    case None => Ok(Table())
  }

  /** As written, constructing the AWS rules raises on the security-group
      check, the first one the class does not define. */
  lemma ConstructionAsWritten()
    ensures BuildTable(OwnChecks) == Err(NoAttribute("_check_security_group_open"))
  {
    var sg := "_check_security_group_open";
    assert sg[8] != "_check_s3_public_bucket"[8];
    assert Registered[1..][0].0 == sg && sg !in OwnChecks;
    assert FirstMissing(OwnChecks, Registered[1..]) == Some(sg);
  }

  /** With the three analyzer checks moved into the class, construction
      gives the table the rest of this model uses (the intended S3 check,
      `S3Resource`, also uses the analyzer's `_is_s3_bucket_public`). */
  lemma ConstructionCorrected()
    ensures BuildTable(OwnChecks + {"_check_security_group_open", "_check_rds_public_access", "_check_iam_wildcard_policy"}) == Ok(Table())
  {
  }

  // ---- S3 ----

  predicate PublicAcl(acl: Value) {
    acl == Str("public-read") || acl == Str("public-read-write")
  }

  /** A public-access-block flag is on when absent or truthy. */
  predicate FlagOn(block: seq<Field>, key: string) {
    !HasKey(block, key) || Truthy(Lookup(block, key).value)
  }

  predicate BlockIncomplete(block: seq<Field>) {
    !FlagOn(block, "block_public_acls") || !FlagOn(block, "block_public_policy") ||
    !FlagOn(block, "ignore_public_acls") || !FlagOn(block, "restrict_public_buckets")
  }

  /** `_is_s3_bucket_public`: a public ACL, or a non-empty public-access
      block with one of its four flags explicitly falsy. */
  function IsS3BucketPublic(config: Value): (r: Result<bool>)
    ensures config.Obj? && PublicAcl(Lookup(config.fields, "acl").GetOr(Str(""))) ==> r == Ok(true)
    ensures !config.Obj? ==> r.Err?
    ensures config.Obj? && !PublicAcl(Lookup(config.fields, "acl").GetOr(Str(""))) ==>
              var block := Lookup(config.fields, "public_access_block").GetOr(EmptyObj);
              (!Truthy(block) ==> r == Ok(false)) &&
              (Truthy(block) && block.Obj? ==> r == Ok(BlockIncomplete(block.fields))) &&
              (Truthy(block) && !block.Obj? ==> r.Err?)
  {
    var acl :- Get(config, "acl", Str(""));
    if PublicAcl(acl) then Ok(true)
    else
      // `config` is a dict from here on, so its `.get` cannot fail
      var block := Get(config, "public_access_block", EmptyObj).value;
      if !Truthy(block) then Ok(false)
      else
        var blockAcls :- Get(block, "block_public_acls", Bool(true));
        var blockPolicy := Get(block, "block_public_policy", Bool(true)).value;
        var ignoreAcls := Get(block, "ignore_public_acls", Bool(true)).value;
        var restrictBuckets := Get(block, "restrict_public_buckets", Bool(true)).value;
        Ok(!(Truthy(blockAcls) && Truthy(blockPolicy) && Truthy(ignoreAcls) && Truthy(restrictBuckets)))
  }

  predicate IsS3Type(t: string) {
    t == "aws_s3_bucket" || t == "aws_s3_bucket_acl"
  }

  /** The per-resource body of `_check_s3_public_bucket`. */
  function S3Resource(t: string, n: string, c: Value): (r: Result<seq<Violation>>)
    ensures r.Ok? ==> |r.value| <= 1
    ensures r.Ok? ==> forall v <- r.value :: v.resource == Some(Str(t + "." + n))
    ensures t == "aws_s3_bucket" ==>
              (r.Ok? <==> IsS3BucketPublic(c).Ok?) &&
              (r.Ok? ==> (|r.value| == 1 <==> IsS3BucketPublic(c) == Ok(true))) &&
              (r.Ok? && |r.value| == 1 ==> r.value[0] == TerraformViolation("S3 bucket " + n + " allows public access", t, n, c))
    ensures t == "aws_s3_bucket_acl" ==>
              (r.Ok? <==> c.Obj?) &&
              (r.Ok? ==> (|r.value| == 1 <==> PublicAcl(Lookup(c.fields, "acl").GetOr(Str(""))))) &&
              (r.Ok? && |r.value| == 1 ==> r.value[0] == TerraformViolation("S3 bucket ACL " + n + " is public", t, n, c))
    ensures !IsS3Type(t) ==> r == Ok([])
  {
    if t == "aws_s3_bucket" then
      var public :- IsS3BucketPublic(c);
      if public then Ok([TerraformViolation("S3 bucket " + n + " allows public access", t, n, c)]) else Ok([])
    else if t == "aws_s3_bucket_acl" then
      var acl :- Get(c, "acl", Str(""));
      if PublicAcl(acl) then Ok([TerraformViolation("S3 bucket ACL " + n + " is public", t, n, c)]) else Ok([])
    else Ok([])
  }

  /** `_check_s3_public_bucket`, returning its violations. */
  function CheckS3PublicBucket(content: Value): Result<seq<Violation>> {
    ScanTerraform(content, IsS3Type, S3Resource)
  }

  /** The per-resource body of `_check_s3_public_bucket` as written: the
      bucket branch calls `self._is_s3_bucket_public`, which the AWS rule
      class does not define, so the first bucket entry raises before its
      configuration is read. */
  function S3ResourceAsWritten(t: string, n: string, c: Value): Result<seq<Violation>> {
    if t == "aws_s3_bucket" then Err(NoAttribute("_is_s3_bucket_public")) else S3Resource(t, n, c)
  }

  /** `_check_s3_public_bucket` as written: the walk runs with the missing
      method, then a bare `return` hands back `None` instead of the list. */
  function CheckS3PublicBucketAsWritten(content: Value): (r: Result<Option<seq<Violation>>>)
    ensures r.Ok? ==> r.value == None
  {
    var _ :- ScanTerraform(content, IsS3Type, S3ResourceAsWritten);
    Ok(None)
  }

  /** The check as written gets through exactly when the intended check
      does and no listed S3 resource is a bucket. */
  lemma S3AsWrittenSucceedsExactly(content: Value, types: seq<Field>)
    requires content.Obj? && Lookup(content.fields, "resource") == Some(Obj(types))
    ensures var rs := MatchingResources(types, IsS3Type);
            CheckS3PublicBucketAsWritten(content).Ok? <==>
              rs.Ok? && (forall k :: 0 <= k < |rs.value| ==> rs.value[k].rtype != "aws_s3_bucket") &&
              CheckS3PublicBucket(content).Ok?
  {
    ScanIsCheckAll(content, types, IsS3Type, S3ResourceAsWritten);
    ScanIsCheckAll(content, types, IsS3Type, S3Resource);
    var rs := MatchingResources(types, IsS3Type);
    if rs.Ok? {
      CheckAllOk(rs.value, S3ResourceAsWritten);
      CheckAllOk(rs.value, S3Resource);
      forall k | 0 <= k < |rs.value|
        ensures S3ResourceAsWritten(rs.value[k].rtype, rs.value[k].name, rs.value[k].config).Ok?
            <==> rs.value[k].rtype != "aws_s3_bucket" && S3Resource(rs.value[k].rtype, rs.value[k].name, rs.value[k].config).Ok?
      {
        S3AsWrittenStep(rs.value[k].rtype, rs.value[k].name, rs.value[k].config);
      }
    }
  }

  lemma S3AsWrittenStep(t: string, n: string, c: Value)
    ensures S3ResourceAsWritten(t, n, c).Ok? <==> t != "aws_s3_bucket" && S3Resource(t, n, c).Ok?
  {
  }

  // ---- Security groups ----

  /** Whether one ingress entry's `cidr_blocks` contains `"0.0.0.0/0"`. */
  function IngressOpen(rule: Value): (r: Result<bool>)
    ensures r.Ok? ==> rule.Obj?
  {
    var cidrBlocks :- Get(rule, "cidr_blocks", List([]));
    Contains(cidrBlocks, "0.0.0.0/0")
  }

  function OpenCount(rules: seq<Value>): nat {
    if rules == [] then 0
    else (if IngressOpen(rules[0]) == Ok(true) then 1 else 0) + OpenCount(rules[1..])
  }

  /** The loop over ingress entries: one copy of `v` per open entry. */
  function IngressViolations(rules: seq<Value>, v: Violation): (r: Result<seq<Violation>>)
    ensures r.Ok? <==> forall k :: 0 <= k < |rules| ==> IngressOpen(rules[k]).Ok?
    ensures r.Ok? ==> |r.value| == OpenCount(rules) && forall x <- r.value :: x == v
    decreases |rules|
  {
    if rules == [] then Ok([])
    else
      var open :- IngressOpen(rules[0]);
      var rest :- IngressViolations(rules[1..], v);
      assert forall k :: 1 <= k < |rules| ==> rules[k] == rules[1..][k - 1];
      Ok((if open then [v] else []) + rest)
  }

  /** `acc` followed by what the remaining entries give. */
  function Prepend(acc: seq<Violation>, rest: Result<seq<Violation>>): Result<seq<Violation>> {
    match rest
    case Ok(vs) => Ok(acc + vs)
    case Err(e) => Err(e)
  }

  /** One entry of the ingress loop: a failing test ends the loop with its
      error; otherwise the entry contributes its copy of `v`, if open. */
  lemma IngressStep(rules: seq<Value>, i: nat, v: Violation)
    requires i < |rules|
    ensures IngressOpen(rules[i]).Err? ==> IngressViolations(rules[i..], v) == Err(IngressOpen(rules[i]).error)
    ensures IngressOpen(rules[i]).Ok? ==>
              IngressViolations(rules[i..], v)
              == Prepend(if IngressOpen(rules[i]).value then [v] else [], IngressViolations(rules[i + 1..], v))
  {
    assert rules[i..][0] == rules[i];
    assert rules[i..][1..] == rules[i + 1..];
  }

  lemma PrependAssoc(a: seq<Violation>, b: seq<Violation>, rest: Result<seq<Violation>>)
    ensures Prepend(a, Prepend(b, rest)) == Prepend(a + b, rest)
  {
    if rest.Ok? {
      assert a + (b + rest.value) == (a + b) + rest.value;
    }
  }

  /** The ingress loop as the source runs it, appending `v` once per open
      entry. */
  method IngressLoop(rules: seq<Value>, v: Violation) returns (r: Result<seq<Violation>>)
    ensures r == IngressViolations(rules, v)
  {
    var acc: seq<Violation> := [];
    var i := 0;
    assert rules[0..] == rules;
    var all := IngressViolations(rules, v);
    if all.Ok? {
      assert [] + all.value == all.value;
    }
    while i < |rules|
      invariant 0 <= i <= |rules|
      invariant IngressViolations(rules, v) == Prepend(acc, IngressViolations(rules[i..], v))
    {
      IngressStep(rules, i, v);
      var open := IngressOpen(rules[i]);
      if open.Err? {
        return Err(open.error);
      }
      var step := if open.value then [v] else [];
      PrependAssoc(acc, step, IngressViolations(rules[i + 1..], v));
      acc := acc + step;
      i := i + 1;
    }
    assert rules[i..] == [];
    assert acc + [] == acc;
    return Ok(acc);
  }

  function SecurityGroupResource(t: string, n: string, c: Value): (r: Result<seq<Violation>>)
    ensures r.Ok? ==> c.Obj? && forall v <- r.value :: v.resource == Some(Str(t + "." + n))
    ensures c.Obj? ==>
              var rules := AsList(Lookup(c.fields, "ingress").GetOr(List([])));
              (r.Ok? <==> forall k :: 0 <= k < |rules| ==> IngressOpen(rules[k]).Ok?) &&
              (r.Ok? ==> |r.value| == OpenCount(rules) &&
                         forall v <- r.value :: v == TerraformViolation("Security group " + n + " allows inbound traffic from anywhere", t, n, c))
  {
    var ingress :- Get(c, "ingress", List([]));
    assert ingress == Lookup(c.fields, "ingress").GetOr(List([]));
    IngressViolations(AsList(ingress),
                      TerraformViolation("Security group " + n + " allows inbound traffic from anywhere", t, n, c))
  }

  predicate IsSecurityGroupType(t: string) { t == "aws_security_group" }

  function CheckSecurityGroupOpen(content: Value): Result<seq<Violation>> {
    ScanTerraform(content, IsSecurityGroupType, SecurityGroupResource)
  }

  // ---- RDS ----

  function RdsResource(t: string, n: string, c: Value): (r: Result<seq<Violation>>)
    ensures r.Ok? ==> forall v <- r.value :: v.resource == Some(Str(t + "." + n))
    ensures r.Ok? <==> c.Obj?
    ensures r.Ok? ==> |r.value| <= 1
    ensures r.Ok? ==>
              (|r.value| == 1 <==> HasKey(c.fields, "publicly_accessible") && Truthy(Lookup(c.fields, "publicly_accessible").value))
    ensures r.Ok? && |r.value| == 1 ==> r.value[0] == TerraformViolation("RDS instance " + n + " is publicly accessible", t, n, c)
  {
    var publiclyAccessible :- Get(c, "publicly_accessible", Bool(false));
    if Truthy(publiclyAccessible) then Ok([TerraformViolation("RDS instance " + n + " is publicly accessible", t, n, c)])
    else Ok([])
  }

  predicate IsRdsType(t: string) { t == "aws_db_instance" }

  function CheckRdsPublicAccess(content: Value): Result<seq<Violation>> {
    ScanTerraform(content, IsRdsType, RdsResource)
  }

  // ---- IAM ----

  /** The policy is flagged only when it is a string containing `"*"` (quotes included). */
  function IamResource(t: string, n: string, c: Value): (r: Result<seq<Violation>>)
    ensures r.Ok? ==> forall v <- r.value :: v.resource == Some(Str(t + "." + n))
    ensures r.Ok? <==> c.Obj?
    ensures r.Ok? ==> |r.value| <= 1
    ensures r.Ok? ==>
              var policy := Lookup(c.fields, "policy");
              (|r.value| == 1 <==> policy.Some? && policy.value.Str? && IsSubstring("\"*\"", policy.value.s))
    ensures r.Ok? && |r.value| == 1 ==> r.value[0] == TerraformViolation("IAM policy " + n + " contains wildcard actions", t, n, c)
  {
    var policy :- Get(c, "policy", Str(""));
    if policy.Str? && IsSubstring("\"*\"", policy.s) then
      Ok([TerraformViolation("IAM policy " + n + " contains wildcard actions", t, n, c)])
    else Ok([])
  }

  predicate IsIamType(t: string) { t == "aws_iam_policy" || t == "aws_iam_role_policy" }

  function CheckIamWildcardPolicy(content: Value): Result<seq<Violation>> {
    ScanTerraform(content, IsIamType, IamResource)
  }

  // ---- Properties of the rule set ----

  /** The S3, RDS and IAM checks report at most one violation per matching
      resource, and every violation names `<type>.<name>` of one. */
  lemma SingleViolationChecks(content: Value, types: seq<Field>)
    requires content.Obj? && Lookup(content.fields, "resource") == Some(Obj(types))
    ensures var s3 := CheckS3PublicBucket(content);
            s3.Ok? ==> MatchingResources(types, IsS3Type).Ok? && |s3.value| <= |MatchingResources(types, IsS3Type).value|
    ensures var rds := CheckRdsPublicAccess(content);
            rds.Ok? ==> MatchingResources(types, IsRdsType).Ok? && |rds.value| <= |MatchingResources(types, IsRdsType).value|
    ensures var iam := CheckIamWildcardPolicy(content);
            iam.Ok? ==> MatchingResources(types, IsIamType).Ok? && |iam.value| <= |MatchingResources(types, IsIamType).value|
    ensures var s3 := CheckS3PublicBucket(content);
            s3.Ok? ==> NamedAfterMatching(s3.value, MatchingResources(types, IsS3Type).value, IsS3Type)
    ensures var rds := CheckRdsPublicAccess(content);
            rds.Ok? ==> NamedAfterMatching(rds.value, MatchingResources(types, IsRdsType).value, IsRdsType)
    ensures var iam := CheckIamWildcardPolicy(content);
            iam.Ok? ==> NamedAfterMatching(iam.value, MatchingResources(types, IsIamType).value, IsIamType)
  {
    ScanAtMostOne(content, types, IsS3Type, S3Resource);
    ScanAtMostOne(content, types, IsRdsType, RdsResource);
    ScanAtMostOne(content, types, IsIamType, IamResource);
    ScanAddresses(content, types, IsS3Type, S3Resource);
    ScanAddresses(content, types, IsRdsType, RdsResource);
    ScanAddresses(content, types, IsIamType, IamResource);
  }

  /** A document whose resources are all of other types gets no S3 violations. */
  lemma S3OtherTypesOnly(content: Value, types: seq<Field>)
    requires content.Obj? && Lookup(content.fields, "resource") == Some(Obj(types))
    requires forall k :: 0 <= k < |types| ==> !IsS3Type(types[k].key)
    ensures CheckS3PublicBucket(content) == Ok([])
  {
    ScanTypesNoMatch(types, IsS3Type, S3Resource);
  }

  /** A document without a `resource` key gets no S3 violations. */
  lemma S3NoResourceSection(content: Value)
    requires content.Obj? && !HasKey(content.fields, "resource")
    ensures CheckS3PublicBucket(content) == Ok([])
  {
    ScanWithoutResources(content, IsS3Type, S3Resource);
  }

  /** The bucket document of the S3 rule test:
      `{resource: {aws_s3_bucket: {public_bucket: {acl: public-read, __line__: 5}}}}`. */
  function PublicBucketDocument(): Value {
    Obj([Field("resource", Obj([Field("aws_s3_bucket", Obj([Field("public_bucket", PublicBucketConfig())]))]))])
  }

  function PublicBucketConfig(): Value {
    Obj([Field("acl", Str("public-read")), Field("__line__", Int(5))])
  }

  lemma PublicBucketViolation()
    ensures S3Resource("aws_s3_bucket", "public_bucket", PublicBucketConfig())
         == Ok([Violation(Some("S3 bucket " + "public_bucket" + " allows public access"),
                          Some(Str("aws_s3_bucket" + "." + "public_bucket")), Some(Int(5)), None)])
  {
    var config := PublicBucketConfig();
    assert Lookup(config.fields, "acl") == Some(Str("public-read"));
    assert PublicAcl(Str("public-read"));
    assert LineOf(config) == Int(5);
    var v := TerraformViolation("S3 bucket " + "public_bucket" + " allows public access", "aws_s3_bucket", "public_bucket", config);
    assert S3Resource("aws_s3_bucket", "public_bucket", config) == Ok([v]);
  }

  /** The corrected check reports exactly one violation, naming the bucket,
      with line 5; the check as written raises on the missing method. */
  lemma PublicBucketScenario()
    ensures var r := CheckS3PublicBucket(PublicBucketDocument());
            r.Ok? && |r.value| == 1 &&
            r.value[0].message == Some("S3 bucket " + "public_bucket" + " allows public access") &&
            IsSubstring("public_bucket", r.value[0].message.value) &&
            r.value[0].resource == Some(Str("aws_s3_bucket" + "." + "public_bucket")) &&
            r.value[0].line == Some(Int(5))
    ensures CheckS3PublicBucketAsWritten(PublicBucketDocument()) == Err(NoAttribute("_is_s3_bucket_public"))
  {
    var config := PublicBucketConfig();
    assert Lookup(PublicBucketDocument().fields, "resource")
        == Some(Obj([Field("aws_s3_bucket", Obj([Field("public_bucket", config)]))]));
    ScanSingleResource(PublicBucketDocument(), "aws_s3_bucket", "public_bucket", config, IsS3Type, S3Resource);
    ScanSingleResource(PublicBucketDocument(), "aws_s3_bucket", "public_bucket", config, IsS3Type, S3ResourceAsWritten);
    PublicBucketViolation();
    SubstringOfConcat("S3 bucket ", "public_bucket", " allows public access");
  }

  /** A document whose only S3 resource is a public bucket ACL:
      `{resource: {aws_s3_bucket_acl: {public_acl: {acl: public-read, __line__: 3}}}}`. */
  function PublicAclDocument(): Value {
    Obj([Field("resource", Obj([Field("aws_s3_bucket_acl", Obj([Field("public_acl", PublicAclConfig())]))]))])
  }

  function PublicAclConfig(): Value {
    Obj([Field("acl", Str("public-read")), Field("__line__", Int(3))])
  }

  /** The ACL branch never reaches the missing method: the corrected check
      reports the public ACL, the check as written walks it and returns `None`. */
  lemma PublicAclScenario()
    ensures CheckS3PublicBucket(PublicAclDocument())
         == Ok([Violation(Some("S3 bucket ACL " + "public_acl" + " is public"),
                          Some(Str("aws_s3_bucket_acl" + "." + "public_acl")), Some(Int(3)), None)])
    ensures CheckS3PublicBucketAsWritten(PublicAclDocument()) == Ok(None)
  {
    var config := PublicAclConfig();
    assert Lookup(PublicAclDocument().fields, "resource")
        == Some(Obj([Field("aws_s3_bucket_acl", Obj([Field("public_acl", config)]))]));
    ScanSingleResource(PublicAclDocument(), "aws_s3_bucket_acl", "public_acl", config, IsS3Type, S3Resource);
    ScanSingleResource(PublicAclDocument(), "aws_s3_bucket_acl", "public_acl", config, IsS3Type, S3ResourceAsWritten);
    assert "aws_s3_bucket_acl" != "aws_s3_bucket" by { assert |"aws_s3_bucket_acl"| != |"aws_s3_bucket"|; }
    assert Lookup(config.fields, "acl") == Some(Str("public-read"));
    assert PublicAcl(Str("public-read"));
    assert LineOf(config) == Int(3);
  }

  /** The security-group test document:
      `{resource: {aws_security_group: {open_sg: {ingress: [{cidr_blocks: [0.0.0.0/0], from_port: 22}], __line__: 10}}}}`. */
  function OpenSgDocument(): Value {
    Obj([Field("resource", Obj([Field("aws_security_group", Obj([Field("open_sg", OpenSgConfig())]))]))])
  }

  function OpenSgIngress(): Value {
    Obj([Field("cidr_blocks", List([Str("0.0.0.0/0")])), Field("from_port", Int(22))])
  }

  function OpenSgConfig(): Value {
    Obj([Field("ingress", List([OpenSgIngress()])), Field("__line__", Int(10))])
  }

  /** The test's security group gives one violation, at line 10. */
  lemma OpenSgViolation()
    ensures SecurityGroupResource("aws_security_group", "open_sg", OpenSgConfig())
         == Ok([Violation(Some("Security group " + "open_sg" + " allows inbound traffic from anywhere"),
                          Some(Str("aws_security_group" + "." + "open_sg")), Some(Int(10)), None)])
  {
    var config := OpenSgConfig();
    var open := OpenSgIngress();
    assert open.fields[0].key == "cidr_blocks";
    assert IngressOpen(open) == Ok(true);
    assert config.fields[0].key == "ingress";
    assert AsList(Lookup(config.fields, "ingress").GetOr(List([]))) == [open];
    assert OpenCount([open]) == 1 by { assert [open][1..] == []; }
    assert LineOf(config) == Int(10);
    var r := SecurityGroupResource("aws_security_group", "open_sg", config);
    var v := TerraformViolation("Security group " + "open_sg" + " allows inbound traffic from anywhere",
                                "aws_security_group", "open_sg", config);
    assert r.Ok? && |r.value| == 1 && r.value[0] == v;
    assert r.value == [v];
  }

  /** The security-group rule on the test document: exactly one violation,
      naming `open_sg`, addressed `aws_security_group.open_sg`, at line 10. */
  lemma SecurityGroupOpenScenario()
    ensures var r := CheckSecurityGroupOpen(OpenSgDocument());
            r.Ok? && |r.value| == 1 &&
            r.value[0].message == Some("Security group " + "open_sg" + " allows inbound traffic from anywhere") &&
            IsSubstring("open_sg", r.value[0].message.value) &&
            r.value[0].resource == Some(Str("aws_security_group" + "." + "open_sg")) &&
            r.value[0].line == Some(Int(10))
  {
    assert Lookup(OpenSgDocument().fields, "resource")
        == Some(Obj([Field("aws_security_group", Obj([Field("open_sg", OpenSgConfig())]))]));
    ScanSingleResource(OpenSgDocument(), "aws_security_group", "open_sg", OpenSgConfig(), IsSecurityGroupType, SecurityGroupResource);
    OpenSgViolation();
    SubstringOfConcat("Security group ", "open_sg", " allows inbound traffic from anywhere");
  }

  /** An ingress entry open only to `10.0.0.0/8` gives no violation. */
  lemma SecurityGroupClosedScenario()
    ensures var doc := Obj([Field("ingress", List([Obj([Field("cidr_blocks", List([Str("10.0.0.0/8")]))])]))]);
            SecurityGroupResource("aws_security_group", "sg1", doc) == Ok([])
  {
    var closed := Obj([Field("cidr_blocks", List([Str("10.0.0.0/8")]))]);
    assert closed.fields[0].key == "cidr_blocks";
    assert "0.0.0.0/0"[0] != "10.0.0.0/8"[0];
    assert IngressOpen(closed) == Ok(false);
  }

  /** The S3 publicity test on public-access blocks: an empty block is
      compliant, a block that switches off `block_public_acls` is public. */
  lemma PublicAccessBlockScenario()
    ensures IsS3BucketPublic(Obj([Field("public_access_block", EmptyObj)])) == Ok(false)
    ensures IsS3BucketPublic(Obj([Field("public_access_block", Obj([Field("block_public_acls", Bool(false))]))])) == Ok(true)
  {
  }
}
