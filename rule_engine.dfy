/** The rule engine: running one rule's predicate on a document and turning
    what it reports into findings, and filtering findings by a minimum
    severity under a fixed weight order. */
module RuleEngine {
  import opened Values
  import opened Rules
  import AwsRules
  import AzureRules
  import GcpRules

  /** `rule['evaluate'](content)`: the predicate a descriptor carries, run on
      a document, with the S3 predicate's result list returned as intended. */
  function Evaluate(check: Check, content: Value): Result<seq<Violation>> {
    match check
    case S3PublicBucket => AwsRules.CheckS3PublicBucket(content)
    case SecurityGroupOpen => AwsRules.CheckSecurityGroupOpen(content)
    case RdsPublicAccess => AwsRules.CheckRdsPublicAccess(content)
    case IamWildcardPolicy => AwsRules.CheckIamWildcardPolicy(content)
    case AzureStoragePublic => AzureRules.CheckStoragePublicAccess(content)
    case NsgOpen => AzureRules.CheckNsgOpenRules(content)
    case SqlPublic => AzureRules.CheckSqlPublicAccess(content)
    case VmNoEncryption => AzureRules.CheckVmDiskEncryption(content)
    case ComputePublicIp => GcpRules.CheckComputePublicIp(content)
    case FirewallOpen => GcpRules.CheckFirewallOpen(content)
    case GcpStoragePublic => GcpRules.CheckStoragePublicAccess(content)
    case SqlPublicIp => GcpRules.CheckSqlPublicIp(content)
  }

  /** The predicates as written: the S3 predicate hands back `None`. */
  function EvaluateAsWritten(check: Check, content: Value): Result<Option<seq<Violation>>> {
    if check == S3PublicBucket then AwsRules.CheckS3PublicBucketAsWritten(content)
    else
      var violations :- Evaluate(check, content);
      Ok(Some(violations))
  }

  /** `for violation in violations`: iterating `None` raises. */
  function Violations(returned: Result<Option<seq<Violation>>>): (r: Result<seq<Violation>>)
    ensures returned.Ok? && returned.value.Some? ==> r == Ok(returned.value.value)
    ensures returned.Ok? && returned.value.None? ==> r == Err("'NoneType' object is not iterable")
    ensures returned.Err? ==> r == Err(returned.error)
  {
    var found :- returned;
    if found.None? then Err("'NoneType' object is not iterable") else Ok(found.value)
  }

  /** The finding for one violation of a rule that ran. */
  function ToFinding(rule: Rule, v: Violation, file: string): Finding {
    Finding(
      file := Some(file),
      ruleId := rule.id,
      ruleName := rule.name,
      severity := Some(rule.severity.GetOr("medium")),
      category := rule.category,
      message := if v.message.Some? then v.message else rule.description,
      line := Some(v.line.GetOr(Int(1))),
      column := Some(v.column.GetOr(Int(1))),
      resource := v.resource,
      fixSuggestion := rule.fixSuggestion,
      references := Some(rule.references.GetOr([])),
      error := None)
  }

  /** The single finding recorded when the predicate raised `e`. */
  function ErrorFinding(rule: Rule, e: string, file: string): Finding {
    Finding(
      file := Some(file),
      ruleId := Some(rule.id.GetOr("unknown")),
      ruleName := Some(rule.name.GetOr("Unknown Rule")),
      severity := Some("medium"),
      category := Some("rule_error"),
      message := Some("Rule evaluation failed: " + e),
      line := Some(Int(1)),
      column := Some(Int(1)),
      resource := None,
      fixSuggestion := None,
      references := None,
      error := None)
  }

  /** What `evaluate_rule` returns once the predicate's outcome is known. */
  function FindingsOf(rule: Rule, outcome: Result<seq<Violation>>, file: string): seq<Finding> {
    match outcome
    case Ok(vs) => seq(|vs|, i requires 0 <= i < |vs| => ToFinding(rule, vs[i], file))
    case Err(e) => [ErrorFinding(rule, e, file)]
  }

  /** `evaluate_rule`: nothing for a rule without a predicate. */
  function EvaluateRuleSpec(rule: Rule, content: Value, file: string): seq<Finding> {
    if rule.evaluate.None? then []
    else FindingsOf(rule, Evaluate(rule.evaluate.value, content), file)
  }

  /** The loop of `evaluate_rule`: one finding appended per violation. */
  method AppendFindings(rule: Rule, violations: seq<Violation>, file: string) returns (findings: seq<Finding>)
    ensures findings == FindingsOf(rule, Ok(violations), file)
  {
    findings := [];
    var i := 0;
    while i < |violations|
      invariant 0 <= i <= |violations|
      invariant |findings| == i
      invariant forall k :: 0 <= k < i ==> findings[k] == ToFinding(rule, violations[k], file)
    {
      findings := findings + [ToFinding(rule, violations[i], file)];
      i := i + 1;
    }
  }

  /** `evaluate_rule` as the source runs it: the predicate, then one append
      per violation; a failure of the predicate appends the error finding. */
  method EvaluateRule(rule: Rule, content: Value, file: string) returns (findings: seq<Finding>)
    ensures findings == EvaluateRuleSpec(rule, content, file)
  {
    if rule.evaluate.None? {
      return [];
    }
    var outcome := Evaluate(rule.evaluate.value, content);
    if outcome.Err? {
      return [ErrorFinding(rule, outcome.error, file)];
    }
    findings := AppendFindings(rule, outcome.value, file);
  }

  // ---- Properties of evaluation ----

  /** A rule without a predicate yields no findings. */
  lemma NoPredicateNoFindings(rule: Rule, content: Value, file: string)
    requires rule.evaluate.None?
    ensures EvaluateRuleSpec(rule, content, file) == []
  {
  }

  /** On success the findings are the violations, one for one and in order,
      each carrying the file and the rule's fields with their defaults. */
  lemma SuccessIsOneToOne(rule: Rule, content: Value, file: string, vs: seq<Violation>)
    requires rule.evaluate.Some? && Evaluate(rule.evaluate.value, content) == Ok(vs)
    ensures var fs := EvaluateRuleSpec(rule, content, file);
            |fs| == |vs| &&
            forall i :: 0 <= i < |vs| ==>
              fs[i].file == Some(file) &&
              fs[i].ruleId == rule.id && fs[i].ruleName == rule.name &&
              fs[i].category == rule.category && fs[i].fixSuggestion == rule.fixSuggestion &&
              fs[i].severity == Some(rule.severity.GetOr("medium")) &&
              fs[i].references == Some(rule.references.GetOr([])) &&
              fs[i].message == (if vs[i].message.Some? then vs[i].message else rule.description) &&
              fs[i].line == Some(vs[i].line.GetOr(Int(1))) &&
              fs[i].column == Some(vs[i].column.GetOr(Int(1))) &&
              fs[i].resource == vs[i].resource
  {
  }

  /** A failing predicate yields exactly one `rule_error` finding. */
  lemma FailureIsOneErrorFinding(rule: Rule, content: Value, file: string, e: string)
    requires rule.evaluate.Some? && Evaluate(rule.evaluate.value, content) == Err(e)
    ensures var fs := EvaluateRuleSpec(rule, content, file);
            |fs| == 1 &&
            fs[0].severity == Some("medium") && fs[0].category == Some("rule_error") &&
            fs[0].message == Some("Rule evaluation failed: " + e) &&
            fs[0].line == Some(Int(1)) && fs[0].column == Some(Int(1)) &&
            fs[0].ruleId == Some(rule.id.GetOr("unknown")) &&
            fs[0].ruleName == Some(rule.name.GetOr("Unknown Rule"))
  {
  }

  /** Every finding the engine builds carries a severity. */
  lemma FindingsHaveSeverity(rule: Rule, content: Value, file: string)
    ensures forall f <- EvaluateRuleSpec(rule, content, file) :: f.severity.Some?
  {
  }

  /** The S3 rule as written never reports a violation: a walk that gets
      through ends as the error for iterating `None`, and one that raises
      (on the missing publicity test, say) ends as that error. */
  lemma S3AsWrittenIsRuleError(content: Value)
    ensures Violations(EvaluateAsWritten(S3PublicBucket, content)).Err?
    ensures AwsRules.CheckS3PublicBucketAsWritten(content).Ok? ==>
              Violations(EvaluateAsWritten(S3PublicBucket, content)) == Err("'NoneType' object is not iterable")
    ensures AwsRules.CheckS3PublicBucketAsWritten(content).Err? ==>
              Violations(EvaluateAsWritten(S3PublicBucket, content)) == Err(AwsRules.CheckS3PublicBucketAsWritten(content).error)
  {
  }

  lemma S3RuleIntended(file: string)
    ensures var fs := EvaluateRuleSpec(AwsRules.S3Rule, AwsRules.PublicBucketDocument(), file);
            |fs| == 1 && fs[0].severity == Some("high") && fs[0].ruleId == Some("aws_s3_public_bucket") &&
            fs[0].message == Some("S3 bucket " + "public_bucket" + " allows public access") &&
            IsSubstring("public_bucket", fs[0].message.value) &&
            fs[0].resource == Some(Str("aws_s3_bucket" + "." + "public_bucket")) && fs[0].line == Some(Int(5))
  {
    var rule := AwsRules.S3Rule;
    assert rule.evaluate == Some(S3PublicBucket) && rule.severity == Some("high") && rule.id == Some("aws_s3_public_bucket");
    var doc := AwsRules.PublicBucketDocument();
    AwsRules.PublicBucketScenario();
    var vs := AwsRules.CheckS3PublicBucket(doc).value;
    assert Evaluate(S3PublicBucket, doc) == Ok(vs);
    assert EvaluateRuleSpec(rule, doc, file) == FindingsOf(rule, Ok(vs), file);
  }

  lemma S3RuleAsWritten(file: string)
    ensures var fs := FindingsOf(AwsRules.S3Rule, Violations(EvaluateAsWritten(S3PublicBucket, AwsRules.PublicBucketDocument())), file);
            |fs| == 1 && fs[0].category == Some("rule_error") &&
            fs[0].message == Some("Rule evaluation failed: " + AwsRules.NoAttribute("_is_s3_bucket_public"))
  {
    var doc := AwsRules.PublicBucketDocument();
    AwsRules.PublicBucketScenario();
    S3AsWrittenIsRuleError(doc);
  }

  /** With the intended check, the S3 rule of the test bucket yields one
      `high` finding that names the bucket; as written the missing publicity
      test turns it into one `rule_error` finding. */
  lemma S3RuleScenario(file: string)
    ensures var fs := EvaluateRuleSpec(AwsRules.S3Rule, AwsRules.PublicBucketDocument(), file);
            |fs| == 1 && fs[0].severity == Some("high") && fs[0].ruleId == Some("aws_s3_public_bucket") &&
            IsSubstring("public_bucket", fs[0].message.value) &&
            fs[0].resource == Some(Str("aws_s3_bucket" + "." + "public_bucket")) && fs[0].line == Some(Int(5))
    ensures var fs := FindingsOf(AwsRules.S3Rule, Violations(EvaluateAsWritten(S3PublicBucket, AwsRules.PublicBucketDocument())), file);
            |fs| == 1 && fs[0].category == Some("rule_error") &&
            fs[0].message == Some("Rule evaluation failed: " + AwsRules.NoAttribute("_is_s3_bucket_public"))
  {
    S3RuleIntended(file);
    S3RuleAsWritten(file);
  }

  lemma S3AclRuleIntended(file: string)
    ensures var fs := EvaluateRuleSpec(AwsRules.S3Rule, AwsRules.PublicAclDocument(), file);
            |fs| == 1 && fs[0].severity == Some("high") && fs[0].ruleId == Some("aws_s3_public_bucket") &&
            fs[0].message == Some("S3 bucket ACL " + "public_acl" + " is public") &&
            fs[0].resource == Some(Str("aws_s3_bucket_acl" + "." + "public_acl")) && fs[0].line == Some(Int(3))
  {
    var rule := AwsRules.S3Rule;
    assert rule.evaluate == Some(S3PublicBucket) && rule.severity == Some("high") && rule.id == Some("aws_s3_public_bucket");
    var doc := AwsRules.PublicAclDocument();
    AwsRules.PublicAclScenario();
    var vs := AwsRules.CheckS3PublicBucket(doc).value;
    assert Evaluate(S3PublicBucket, doc) == Ok(vs);
    assert EvaluateRuleSpec(rule, doc, file) == FindingsOf(rule, Ok(vs), file);
  }

  lemma S3AclRuleAsWritten(file: string)
    ensures var fs := FindingsOf(AwsRules.S3Rule, Violations(EvaluateAsWritten(S3PublicBucket, AwsRules.PublicAclDocument())), file);
            |fs| == 1 && fs[0].category == Some("rule_error") &&
            fs[0].message == Some("Rule evaluation failed: " + "'NoneType' object is not iterable")
  {
    AwsRules.PublicAclScenario();
    S3AsWrittenIsRuleError(AwsRules.PublicAclDocument());
  }

  /** A public bucket ACL alone: the intended rule yields one `high` finding
      for it; as written the walk gets through and the bare `return` turns
      the rule into the `None`-iteration `rule_error` finding. */
  lemma S3AclRuleScenario(file: string)
    ensures var fs := EvaluateRuleSpec(AwsRules.S3Rule, AwsRules.PublicAclDocument(), file);
            |fs| == 1 && fs[0].severity == Some("high") && fs[0].ruleId == Some("aws_s3_public_bucket") &&
            fs[0].message == Some("S3 bucket ACL " + "public_acl" + " is public")
    ensures var fs := FindingsOf(AwsRules.S3Rule, Violations(EvaluateAsWritten(S3PublicBucket, AwsRules.PublicAclDocument())), file);
            |fs| == 1 && fs[0].category == Some("rule_error") &&
            fs[0].message == Some("Rule evaluation failed: " + "'NoneType' object is not iterable")
  {
    S3AclRuleIntended(file);
    S3AclRuleAsWritten(file);
  }

  // ---- Severity ----

  /** `severity_weights.get(s, 2)`. */
  function SeverityWeight(s: string): (w: int)
    ensures 1 <= w <= 4
    ensures s == "low" <==> w == 1
    ensures s == "high" <==> w == 3
    ensures s == "critical" <==> w == 4
  {
    if s == "low" then 1
    else if s == "medium" then 2
    else if s == "high" then 3
    else if s == "critical" then 4
    else 2
  }

  /** `finding.get('severity', 'medium')`, weighted. */
  function FindingWeight(f: Finding): int {
    SeverityWeight(f.severity.GetOr("medium"))
  }

  predicate Passes(f: Finding, minSeverity: string) {
    FindingWeight(f) >= SeverityWeight(minSeverity)
  }

  /** `filter_by_severity`. */
  function FilterBySeverity(findings: seq<Finding>, minSeverity: string): (r: seq<Finding>)
    ensures |r| <= |findings|
    ensures forall f <- r :: f in findings && Passes(f, minSeverity)
    ensures forall f <- findings :: Passes(f, minSeverity) ==> f in r
    decreases |findings|
  {
    if findings == [] then []
    else
      var rest := FilterBySeverity(findings[1..], minSeverity);
      assert forall f <- findings[1..] :: f in findings;
      if Passes(findings[0], minSeverity) then [findings[0]] + rest else rest
  }

  /** The filter keeps every passing finding as often as it occurs and drops
      every other one. */
  lemma {:induction false} FilterKeepsMultiplicity(findings: seq<Finding>, minSeverity: string)
    ensures var r := FilterBySeverity(findings, minSeverity);
            forall g :: multiset(r)[g] == if Passes(g, minSeverity) then multiset(findings)[g] else 0
    decreases |findings|
  {
    if findings != [] {
      FilterKeepsMultiplicity(findings[1..], minSeverity);
      assert findings == [findings[0]] + findings[1..];
      assert multiset(findings) == multiset([findings[0]]) + multiset(findings[1..]);
    }
  }

  /** `sub` is `s` with some elements removed, order kept. */
  predicate IsSubsequence(sub: seq<Finding>, s: seq<Finding>)
    decreases |s|
  {
    if sub == [] then true
    else if s == [] then false
    else if sub[0] == s[0] then IsSubsequence(sub[1..], s[1..])
    else IsSubsequence(sub, s[1..])
  }

  lemma {:induction false} FilterIsSubsequence(findings: seq<Finding>, minSeverity: string)
    ensures IsSubsequence(FilterBySeverity(findings, minSeverity), findings)
    decreases |findings|
  {
    if findings != [] {
      FilterIsSubsequence(findings[1..], minSeverity);
      var rest := FilterBySeverity(findings[1..], minSeverity);
      if Passes(findings[0], minSeverity) {
        assert ([findings[0]] + rest)[1..] == rest;
      } else {
        SubsequenceOfTail(rest, findings);
      }
    }
  }

  lemma {:induction false} SubsequenceOfTail(sub: seq<Finding>, s: seq<Finding>)
    requires s != [] && IsSubsequence(sub, s[1..])
    ensures IsSubsequence(sub, s)
    decreases |s|, 0
  {
    if sub != [] && sub[0] == s[0] {
      SubsequenceDropHead(sub, s[1..]);
    }
  }

  lemma {:induction false} SubsequenceDropHead(sub: seq<Finding>, s: seq<Finding>)
    requires sub != [] && IsSubsequence(sub, s)
    ensures IsSubsequence(sub[1..], s)
    decreases |s|, 1
  {
    if sub[0] != s[0] {
      SubsequenceDropHead(sub, s[1..]);
    }
    SubsequenceOfTail(sub[1..], s);
  }

  /** Filtering twice with the same threshold is filtering once. */
  lemma {:induction false} FilterIdempotent(findings: seq<Finding>, minSeverity: string)
    ensures FilterBySeverity(FilterBySeverity(findings, minSeverity), minSeverity) == FilterBySeverity(findings, minSeverity)
    decreases |findings|
  {
    if findings != [] {
      FilterIdempotent(findings[1..], minSeverity);
      var rest := FilterBySeverity(findings[1..], minSeverity);
      if Passes(findings[0], minSeverity) {
        assert ([findings[0]] + rest)[0] == findings[0];
        assert ([findings[0]] + rest)[1..] == rest;
      }
    }
  }

  /** A stricter threshold keeps only what a looser one keeps. */
  lemma {:induction false} FilterMonotone(findings: seq<Finding>, loose: string, strict: string)
    requires SeverityWeight(loose) <= SeverityWeight(strict)
    ensures FilterBySeverity(FilterBySeverity(findings, loose), strict) == FilterBySeverity(findings, strict)
    decreases |findings|
  {
    if findings != [] {
      FilterMonotone(findings[1..], loose, strict);
      var rest := FilterBySeverity(findings[1..], loose);
      if Passes(findings[0], loose) {
        assert ([findings[0]] + rest)[0] == findings[0];
        assert ([findings[0]] + rest)[1..] == rest;
      }
    }
  }

  /** The weights order the four severities strictly; anything else weighs
      as much as `medium`. The threshold tests follow. */
  lemma SeverityOrder(s: string)
    requires s != "low" && s != "medium" && s != "high" && s != "critical"
    ensures SeverityWeight("low") < SeverityWeight("medium") < SeverityWeight("high") < SeverityWeight("critical")
    ensures SeverityWeight(s) == SeverityWeight("medium")
    ensures SeverityWeight("critical") >= SeverityWeight("medium") && SeverityWeight("high") >= SeverityWeight("medium")
    ensures !(SeverityWeight("low") >= SeverityWeight("medium")) && !(SeverityWeight("high") >= SeverityWeight("critical"))
  {
  }

  // ---- The file's first lines ----

  /** The first three lines of the rule engine's source file: a Markdown
      heading, a Markdown code fence, and the opening of the docstring. */
  const SourceHead: seq<string> := ["### src/core/rule_engine.py", "```python", "\"\"\""]

  /** A line Python's tokenizer rejects: a backtick begins no token. */
  predicate Untokenizable(line: string) {
    |line| > 0 && line[0] == '`'
  }

  /** The index of the first rejected line, if any. */
  function FirstRejected(lines: seq<string>): (r: Option<nat>)
    ensures r.Some? ==> r.value < |lines| && Untokenizable(lines[r.value]) &&
                        forall j :: 0 <= j < r.value ==> !Untokenizable(lines[j])
    ensures r.None? ==> forall j :: 0 <= j < |lines| ==> !Untokenizable(lines[j])
    decreases |lines|
  {
    if lines == [] then None
    else if Untokenizable(lines[0]) then Some(0)
    else
      var rest := FirstRejected(lines[1..]);
      assert forall j :: 1 <= j < |lines| ==> lines[j] == lines[1..][j - 1];
      if rest.None? then None else Some(rest.value + 1)
  }

  /** As written, the file is rejected at its second line (the heading is a
      comment), so importing it fails and with it the analyzer's import of
      the engine; without the two stray lines the head is plain Python. */
  lemma SourceHeadRejected()
    ensures FirstRejected(SourceHead) == Some(1)
    ensures FirstRejected(SourceHead[2..]) == None
  {
    assert !Untokenizable(SourceHead[0]) && Untokenizable(SourceHead[1]);
    assert SourceHead[2..] == ["\"\"\""];
    assert !Untokenizable(SourceHead[2]);
  }
}
