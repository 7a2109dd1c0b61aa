# Cloud security toolkit: a verified model of the analysis core

The toolkit scans infrastructure-as-code files (Terraform, CloudFormation,
ARM templates) for insecure settings. Each cloud provider contributes a table
of four rules. Each rule names a predicate that walks the decoded document and
returns violations. The rule engine turns violations into findings and filters
them by severity. The analyzer collects the findings of every file of a path
and counts them by severity. The remediation engine rewrites a file for four
of the rules, after copying it to a timestamped backup.

This project models that core in Dafny and proves what the code promises:
- which resources each predicate flags;
- that the engine converts violations one-to-one and turns any failure into a
  single error finding;
- how the severity filter behaves;
- how the analyzer's counts relate to its findings;
- what each fix writes and what it leaves alone;
- how each parser dispatches and builds its sections;
- how configurations merge.

Modules, one per source file plus shared foundations:

- `Values` (values.dfy) holds the decoded document tree. It also defines the
  Python operations the code applies to it: `.get`, `in`, `[]`, `.items()`,
  iteration, truthiness, `str()` and `lower()`. An operation Python would
  reject returns `Err` with the exception's text, so the engine's error path
  is modelled as the code takes it.
- `Rules` (rules.dfy) defines rule descriptors, violations and findings, and
  the resource walk that every Terraform predicate repeats. The walk is
  `if 'resource' in content`, then the types, then the names. It is written
  once as the fold `ScanTerraform` and once as the method `Scan`. Both are
  proved equal to a reference definition: the matching resources are listed
  first and then checked one by one.
- `AwsRules`, `AzureRules` and `GcpRules` hold the three rule tables and their
  twelve predicates. Three of the AWS predicates, and the S3 publicity test,
  are the ones defined in src/core/analyzer.py:84-162.
- `RuleEngine` covers `evaluate_rule`, the severity weights and
  `filter_by_severity`.
- `Analyzer` covers `analyze_path`.
- `Text` and `Remediation` cover Python's `replace`, `split` and `join`, the
  four fixes, backup naming and `apply_fix`. A `Disk` object holds the files
  that the fixes edit in place.
- `Paths` models `pathlib`'s name, suffix and stem. `TerraformParser`,
  `CloudFormationParser` and `ArmParser` model the three parsers.
- `Helpers` covers `merge_configs` and `format_finding_for_console`.

src/core/rule_engine.py opens with two stray lines ahead of the module
docstring: a Markdown heading, which Python reads as a comment, and a Markdown
code fence, which Python rejects. As written, importing the module fails, and
with it the import of the engine at src/core/analyzer.py:17. The model follows
the Python after the two lines, as the authors evidently meant (see Findings).

The GCP fix is not idempotent. It comments out lines but keeps the
`access_config` and `nat_ip` it tests for, so a second run on its own output
rewrites the file again and reports the removal again. This is proved as
`Remediation.GcpFixRunsAgain`, and the model follows the code here.

## Model

| member | source | states |
|---|---|---|
| Values.Get | src/core/analyzer.py:92 | `d.get(k, default)` succeeds only on a dict, and gives the value under `k` or else the default |
| Values.Index | src/core/analyzer.py:89 | `d[k]` succeeds iff `d` is a dict holding `k`, and gives its value |
| Values.Items | src/core/analyzer.py:89 | `d.items()` succeeds only on a dict, and gives its entries in order |
| Values.Contains | src/core/analyzer.py:98 | `x in c` is key membership on a dict, element membership on a list, substring on a string, and an error otherwise |
| Values.Iter | src/core/analyzer.py:96 | a list yields its items, a dict its keys, a string its characters; other values cannot be iterated |
| Values.Lower | src/core/analyzer.py:78 | `lower()` keeps the length and folds each character |
| AwsRules.Table | src/rules/aws_rules.py:11-60 | four rules in registration order, with the ids, severities and predicates of the table |
| AwsRules.GetRulesIgnoresContent | src/rules/aws_rules.py:62-64 | `get_rules` returns the same four rules for every document, with distinct ids |
| AwsRules.FirstMissing | src/rules/aws_rules.py:22-58 | no name is missing iff every registered check is defined; a reported name is a registered one that is undefined |
| AwsRules.BuildTable | src/rules/aws_rules.py:22-58 | construction succeeds iff every `self._check_*` the table names is defined, and then yields the table |
| AwsRules.ConstructionAsWritten | src/rules/aws_rules.py:34 | as written, construction raises `AttributeError` for `_check_security_group_open` |
| AwsRules.ConstructionCorrected | src/core/analyzer.py:84-141 | with the three analyzer checks in the class, construction yields the table. The intended per-resource S3 test also uses `_is_s3_bucket_public`, the fourth analyzer method |
| AwsRules.IsS3BucketPublic | src/core/analyzer.py:143-162 | public iff the ACL is public-read or public-read-write, or a non-empty `public_access_block` has a flag off (absent flags count as on); non-dicts are errors |
| AwsRules.S3Resource | src/rules/aws_rules.py:73-90 | at most one violation per bucket, addressed `type.name`; a bucket is flagged iff it is public, an ACL resource iff its `acl` is public; other types give none |
| AwsRules.CheckS3PublicBucketAsWritten | src/rules/aws_rules.py:71-92 | as written, a walk that gets through returns `None` |
| AwsRules.S3AsWrittenSucceedsExactly | src/rules/aws_rules.py:73-75 | as written, the walk gets through iff the intended one does and no listed S3 resource is an `aws_s3_bucket`. The bucket branch calls `_is_s3_bucket_public`, which `AWSRules` does not define |
| AwsRules.IngressOpen | src/core/analyzer.py:97-98 | succeeds only on a dict entry |
| AwsRules.IngressViolations | src/core/analyzer.py:96-103 | succeeds iff every ingress entry can be tested; one copy of the violation per open entry |
| AwsRules.IngressLoop | src/core/analyzer.py:96-103 | the appending loop equals `IngressViolations` |
| Rules.AsList | src/core/analyzer.py:92-94 | a non-list `ingress` (and, in the GCP compute check, a non-list `network_interface`) is wrapped in a one-element list |
| AwsRules.SecurityGroupResource | src/core/analyzer.py:88-105 | one violation per open ingress entry of an `aws_security_group`, all addressed `type.name` |
| AwsRules.RdsResource | src/core/analyzer.py:111-123 | an `aws_db_instance` is flagged iff `publicly_accessible` is truthy (default false), with the source's message |
| AwsRules.IamResource | src/core/analyzer.py:129-141 | a policy of the two IAM types is flagged iff it is a string containing `"*"`, with the source's message |
| AwsRules.SingleViolationChecks | src/rules/aws_rules.py:71-90 | the S3, RDS and IAM checks report at most one violation per matching resource, and each violation is addressed `type.name` of a matching resource |
| AwsRules.S3OtherTypesOnly | src/rules/aws_rules.py:73-82 | a document with no S3 resource type yields no S3 violation |
| AwsRules.S3NoResourceSection | src/rules/aws_rules.py:71 | a document without `resource` yields no violation |
| AwsRules.PublicBucketViolation | tests/test_rules.py:16-34 | the public bucket of the test yields its violation, at line 5 |
| AwsRules.PublicBucketScenario | tests/test_rules.py:16-34 | with the intended check, exactly one violation whose message contains `public_bucket`, at line 5. As written, the check raises `AttributeError` for `_is_s3_bucket_public` |
| AwsRules.PublicAclScenario | src/rules/aws_rules.py:82-92 | a lone public bucket ACL gets one violation at line 3 from the intended check. As written, the check gets past line 75 and returns `None` |
| AwsRules.SecurityGroupOpenScenario | tests/test_rules.py:36-56 | the rule, run on the test's `open_sg` document, gives exactly one violation. Its message names `open_sg`, its address is `aws_security_group.open_sg` and its line is 10 |
| AwsRules.SecurityGroupClosedScenario | src/core/analyzer.py:96-98 | an ingress entry open only to 10.0.0.0/8 gives no violation |
| AwsRules.PublicAccessBlockScenario | src/core/analyzer.py:151-160 | an empty `public_access_block` is not public; one with `block_public_acls` false is |
| AzureRules.Table | src/rules/azure_rules.py:10-59 | four rules with the table's ids, severities and predicates |
| AzureRules.GetRulesIgnoresContent | src/rules/azure_rules.py:61-63 | the same four rules for every document, with distinct ids |
| AzureRules.StorageResource | src/rules/azure_rules.py:74-86 | a storage account is flagged iff `allow_blob_public_access` is truthy (default true) |
| AzureRules.ArmStorageEntry | src/rules/azure_rules.py:90-101 | an ARM resource is flagged iff it has the storage type and `properties.allowBlobPublicAccess` is truthy (default true), addressed by its name (default `unknown`) at line 1 |
| AzureRules.ScanArm | src/rules/azure_rules.py:90-101 | the loop over `resources` equals the fold `ArmStorage` |
| AzureRules.StoragePublicAccess | src/rules/azure_rules.py:65-103 | the whole check as a method equals the Terraform walk followed by the ARM section |
| AzureRules.NsgResource | src/rules/azure_rules.py:111-127 | flagged iff the source prefix is `*`, `0.0.0.0/0` or `Internet` and `access.lower()` is `allow`; a non-string access is an error |
| AzureRules.SqlResource | src/rules/azure_rules.py:135-153 | flagged iff the range is 0.0.0.0-0.0.0.0 or 0.0.0.0-255.255.255.255 |
| AzureRules.VmResource | src/rules/azure_rules.py:163-183 | a Linux or Windows VM is flagged iff its encryption settings are empty or not enabled |
| AzureRules.ArmStorageReports | src/rules/azure_rules.py:89-101 | every ARM violation comes from a storage-account entry and sits at line 1 |
| AzureRules.StorageOrder | src/rules/azure_rules.py:71-103 | the Terraform violations come before the ARM ones |
| AzureRules.NsgAccessCase | src/rules/azure_rules.py:116-118 | an `Allow` rule from `*` is flagged; one from 10.0.0.0/8 is not |
| AzureRules.VmScenario | src/rules/azure_rules.py:169-174 | a VM without `os_disk` is flagged; one with encryption enabled is not |
| AzureRules.PublicStorageViolation | tests/test_rules.py:64-81 | the test's storage account yields its violation, at line 3 |
| AzureRules.PublicStorageNoArm | src/rules/azure_rules.py:89 | the test document has no ARM `resources` section, so the ARM loop adds nothing |
| AzureRules.PublicStorageTerraform | tests/test_rules.py:64-81 | the Terraform walk over the test document yields exactly the `public_storage` violation |
| AzureRules.PublicStorageScenario | tests/test_rules.py:64-81 | exactly one violation whose message contains `public_storage` |
| GcpRules.Table | src/rules/gcp_rules.py:10-55 | four rules with the table's ids, severities and predicates |
| GcpRules.GetRulesIgnoresContent | src/rules/gcp_rules.py:57-59 | the same four rules for every document, with distinct ids |
| GcpRules.HasAccessConfig | src/rules/gcp_rules.py:76-77 | an interface is public iff its `access_config` is truthy; only dicts can be tested |
| GcpRules.AnyPublicInterfaceMeaning | src/rules/gcp_rules.py:75-85 | true iff some interface is public and every one before it is a dict without `access_config`; false iff every interface is such a dict |
| GcpRules.PublicInterfaceLoop | src/rules/gcp_rules.py:75-85 | the loop with its `break` equals `AnyPublicInterface` |
| GcpRules.ComputeResource | src/rules/gcp_rules.py:67-85 | one violation per instance with a public interface, however many there are |
| GcpRules.FirewallResource | src/rules/gcp_rules.py:95-109 | flagged iff the direction is INGRESS (default), the source ranges hold 0.0.0.0/0 and `allow` is truthy |
| GcpRules.StorageResource | src/rules/gcp_rules.py:121-131 | flagged iff `member` is `allUsers` or `allAuthenticatedUsers` |
| GcpRules.SqlResource | src/rules/gcp_rules.py:141-155 | flagged iff `ipv4_enabled` is truthy (default true) |
| GcpRules.SingleViolationChecks | src/rules/gcp_rules.py:65-155 | every GCP check reports at most one violation per matching resource, and each violation is addressed `type.name` of a matching resource |
| GcpRules.FirstInterfaceDecides | src/rules/gcp_rules.py:84-85 | a public first interface settles the instance whatever follows |
| GcpRules.EgressNeverFlagged | src/rules/gcp_rules.py:98-100 | an EGRESS rule is never flagged |
| GcpRules.SqlDefaultPublic | src/rules/gcp_rules.py:147-148 | an instance that does not set `ipv4_enabled` is flagged |
| GcpRules.PublicVmViolation | tests/test_rules.py:89-108 | the test's instance yields its violation, at line 8 |
| GcpRules.PublicVmScenario | tests/test_rules.py:89-108 | exactly one violation whose message contains `public_vm` |
| Rules.LineOf | src/rules/aws_rules.py:79 | the `__line__` value when present, else 1 |
| Rules.Scan | src/rules/aws_rules.py:71-90 | the nested loops of the walk equal the fold `ScanTerraform` |
| Rules.MatchingResources | src/rules/azure_rules.py:72-75 | every listed resource has a matching type |
| Rules.ScanIsCheckAll | src/rules/gcp_rules.py:65-68 | the walk checks exactly the matching resources, in document order |
| Rules.ScanWithoutResources | src/rules/gcp_rules.py:65 | no `resource` key, no violations |
| Rules.ScanAtMostOne | src/core/analyzer.py:111-121 | one violation at most per resource gives at most as many violations as matching resources |
| Rules.ScanAddresses | src/core/analyzer.py:101 | every violation is addressed `type.name` of a matching resource |
| Rules.ScanSingleResource | tests/test_rules.py:19-31 | a document with one matching resource yields exactly that resource's check |
| RuleEngine.Violations | src/core/rule_engine.py:32-35 | a predicate returning `None` makes the loop raise "'NoneType' object is not iterable" |
| RuleEngine.AppendFindings | src/core/rule_engine.py:35-49 | the append loop yields one `ToFinding` per violation, in order |
| RuleEngine.EvaluateRule | src/core/rule_engine.py:20-64 | the method equals `EvaluateRuleSpec` |
| RuleEngine.NoPredicateNoFindings | src/core/rule_engine.py:27-29 | a rule without `evaluate` yields no findings |
| RuleEngine.SuccessIsOneToOne | src/core/rule_engine.py:35-49 | one finding per violation, in order, carrying the file, the rule's fields and the violation's message, line, column and resource with the source's defaults |
| RuleEngine.FailureIsOneErrorFinding | src/core/rule_engine.py:51-62 | a failing predicate yields exactly one `rule_error` finding of medium severity at 1:1 whose message is prefixed "Rule evaluation failed: " |
| RuleEngine.FindingsHaveSeverity | src/core/rule_engine.py:40 | every finding has a severity |
| RuleEngine.S3AsWrittenIsRuleError | src/rules/aws_rules.py:75-92 | as written, the S3 rule never yields a violation. A walk that gets through fails as the `None` iteration error, and a walk that raises fails with that error |
| RuleEngine.S3RuleScenario | tests/test_rules.py:16-34 | the corrected S3 rule yields one high finding for the test bucket, naming `public_bucket` at line 5. As written, it yields one `rule_error` finding carrying the `AttributeError` for `_is_s3_bucket_public` |
| RuleEngine.S3AclRuleScenario | src/rules/aws_rules.py:82-92 | the corrected rule yields one high finding for a lone public bucket ACL. As written, it yields the `rule_error` finding for iterating `None` |
| RuleEngine.SeverityWeight | src/core/rule_engine.py:13-18 | weights 1 to 4 for low to critical, and 2 for any other severity |
| RuleEngine.FilterBySeverity | src/core/rule_engine.py:66-74 | keeps exactly the findings whose weight reaches the threshold's |
| RuleEngine.FilterKeepsMultiplicity | src/core/rule_engine.py:71-74 | every passing finding is kept as often as it occurs, and every other finding is dropped |
| RuleEngine.FilterIsSubsequence | src/core/rule_engine.py:71-74 | the kept findings are in their original order |
| RuleEngine.FilterIdempotent | src/core/rule_engine.py:66-74 | filtering twice equals filtering once |
| RuleEngine.FilterMonotone | src/core/rule_engine.py:66-74 | a looser filter followed by a stricter filter equals the stricter filter alone |
| RuleEngine.SeverityOrder | tests/test_analyzer.py:70-76 | low < medium < high < critical; unknown names weigh as medium; the test's threshold cases |
| RuleEngine.FirstRejected | src/core/rule_engine.py:1-3 | gives the first line Python's tokenizer rejects outright (one starting with a backtick), or none |
| RuleEngine.SourceHeadRejected | src/core/rule_engine.py:1-3 | as written, the file is rejected at line 2. Without the two stray lines, its head is accepted |
| Analyzer.FailureEntry | src/core/analyzer.py:69-73 | a failed file gives an entry with its path, "Failed to analyze: " and no severity |
| Analyzer.CollectFiles | src/core/analyzer.py:63-73 | the file loop ends in the state the fold `Collect` gives |
| Analyzer.TallyFindings | src/core/analyzer.py:76-80 | the tally loop ends in the summary the fold `Tally` gives |
| Analyzer.AnalyzePath | src/core/analyzer.py:41-80 | the format check and the two loops equal `AnalyzePathSpec` |
| Analyzer.AnalyzePathAsWritten | src/core/analyzer.py:57-59 | an unknown format raises "Unsupported format: ..." before anything else |
| Analyzer.CollectIsEntries | src/core/analyzer.py:63-73 | the file loop appends every file's findings or its failure entry, and counts only the successes |
| Analyzer.TallyCounts | src/core/analyzer.py:76-80 | each severity key rises by the findings with that lower-cased severity; `total_issues` rises by every finding with a severity, plus any whose severity is `total_issues` |
| Analyzer.TallyKeepsKeys | src/core/analyzer.py:80 | no summary key is lost |
| Analyzer.FailureEntriesHaveNoSeverity | src/core/analyzer.py:70-77 | failure entries are never counted |
| Analyzer.UnknownFormatFails | src/core/analyzer.py:57-59 | an unknown format raises "Unsupported format: ..." |
| Analyzer.FindingsAndFilesAnalyzed | src/core/analyzer.py:63-73 | the findings are all entries in file order; `files_analyzed` is the number of successes plus the number of findings whose lowercased severity is `files_analyzed`, because the severity tally at line 80 shares the summary's keys |
| Analyzer.SummaryCounts | src/core/analyzer.py:76-80 | each of the four severity counters is the number of findings of that severity |
| Analyzer.FailuresNotCounted | src/core/analyzer.py:76-79 | `total_issues` counts the successful files' findings only |
| Analyzer.NoFiles | tests/test_analyzer.py:107-116 | no files: both counters are 0 and there are no findings |
| Analyzer.AsWrittenNeverReturns | src/core/analyzer.py:82 | as written, every known-format call raises `NameError` for `violations` |
| Text.SplitOn | src/core/remediation.py:140 | `split` gives at least one part |
| Text.ReplaceIsSplitJoin | src/core/remediation.py:85 | `replace(old, new)` equals splitting on `old` and joining with `new` |
| Text.JoinSplit | src/core/remediation.py:140-160 | joining the split lines with the same separator gives the content back |
| Text.ReplaceAbsent | src/core/remediation.py:85 | content without the pattern is unchanged |
| Text.ApplyPairs | src/core/remediation.py:83-85 | the replacement loop equals applying the pairs in order (`Substitute`) |
| Text.SubstringOfJoin | src/core/remediation.py:160 | text inside one line is still inside the joined content |
| Text.SubstringInSomePart | src/core/remediation.py:140 | text without a newline that is in the content lies inside one of its lines |
| Text.SubstituteAbsent | src/core/remediation.py:84-87 | content holding none of the patterns is unchanged |
| Remediation.FixFor | src/core/remediation.py:13-18 | a fix exists iff the rule id is one of the four in the table |
| Remediation.CommentBlocks | src/core/remediation.py:140-158 | the line loop with its `skip_block` flag equals `CommentLines` |
| Remediation.CommentLinesPointwise | src/core/remediation.py:144-158 | line count kept; each output line is its input line rendered under the flag left by the lines before it |
| Remediation.CommentShape | src/core/remediation.py:145-158 | opening lines are commented and annotated, lines inside a block are commented, other lines are kept |
| Remediation.BlockExtent | src/core/remediation.py:145-152 | a block runs from its `access_config {` line to the first later `}` line, and the flag is off after it |
| Remediation.NoOpeningUnchanged | src/core/remediation.py:155-158 | without an opening line, every line is kept |
| Remediation.GcpRewriteWithoutBlock | src/core/remediation.py:138-161 | content naming both keys but without an opening line is rewritten to itself |
| Remediation.GcpRewriteKeepsMarkers | src/core/remediation.py:138-161 | the rewrite keeps `access_config` and `nat_ip`, so its output is always rewritten again |
| Remediation.GcpFixRunsAgain | src/core/remediation.py:133-164 | a second GCP fix after one that rewrote the file rewrites it again and reports the removal, never "No changes needed" |
| Remediation.BackupPath | src/core/remediation.py:65 | a backup name exists iff the path has a non-empty name |
| Remediation.BackupPathShape | src/core/remediation.py:64-65 | the backup is `dir/stem.backup_<stamp><suffix>`: next to the file, keeping its suffix, and never the file itself |
| Remediation.ReadFile | src/core/remediation.py:72 | reading succeeds iff the file exists, and gives its content |
| Remediation.WriteFile | src/core/remediation.py:88 | writing succeeds iff the path is writable, and sets exactly that file |
| Remediation.CopyFile | src/core/remediation.py:66 | copying needs the source to exist and the target to be writable, and then copies the content |
| Remediation.Disk.constructor | src/core/remediation.py:66-88 | a disk with the given files and the given write-locked paths |
| Remediation.Disk.Read | src/core/remediation.py:72 | equals `ReadFile` on the disk's files |
| Remediation.Disk.Write | src/core/remediation.py:88 | updates the files as `WriteFile` does; a refused write changes nothing |
| Remediation.Disk.Copy | src/core/remediation.py:66 | updates the files as `CopyFile` does; a refused copy changes nothing |
| Remediation.GcpFix | src/core/remediation.py:133-164 | the GCP fix on the disk matches `GcpFixModel` in its message and in the files it leaves |
| Remediation.TextFix | src/core/remediation.py:69-131 | the S3, security-group and Azure fixes on the disk match `TextFixModel`: replacements in order, written only when something changed |
| Remediation.RunFix | src/core/remediation.py:29-30 | the fix the table names, run on the disk, matches `RunFixModel` in its message and in the files it leaves |
| Remediation.ApplyFix | src/core/remediation.py:25-60 | `apply_fix` on the disk matches `ApplyFixModel` in its result and in the files it leaves |
| Remediation.NoFixLeavesFiles | src/core/remediation.py:29-36 | a rule without a fix gets "No auto-fix available for rule: ..." and no file changes |
| Remediation.RaisesOnlyWithoutFile | src/core/remediation.py:38-60 | only a fixable finding without `file` raises; every other failure is a result |
| Remediation.BackupHoldsOriginal | src/core/remediation.py:42-48 | a successful fix with backup leaves the original content at the reported backup path, which differs from the file |
| Remediation.RunFixTouchesOnlyFile | src/core/remediation.py:69-164 | a fix writes at most the file it was given |
| Remediation.FailedFixKeepsBackup | src/core/remediation.py:42-60 | a fix that fails after the backup leaves a failure result, the backup holding the original, and the file unchanged |
| Remediation.FailedBackupStopsFix | src/core/remediation.py:40-43 | a backup that cannot be made gives a failure result and changes no file |
| Remediation.NoBackupTouchesOnlyFile | src/core/remediation.py:44-45 | without a backup, `backup_path` is `None` and only the file may change |
| Remediation.TextFixNoMatch | src/core/remediation.py:83-91 | a textual fix on content holding none of its patterns reports "No changes needed" and writes nothing |
| Remediation.GcpFixNeedsBoth | src/core/remediation.py:138 | the GCP fix writes nothing unless the content has both `access_config` and `nat_ip` |
| Remediation.S3FixKeepsPrivate | src/core/remediation.py:76-81 | content without `-` or `P` is never rewritten by the S3 fix |
| Remediation.SecurityGroupFixRewrites | src/core/remediation.py:93-109 | a file holding `cidr_blocks = ["0.0.0.0/0"]` becomes `cidr_blocks = ["10.0.0.0/8"]` and the fix reports "Restricted security group CIDR blocks" |
| Remediation.SecurityGroupFixSettles | src/core/remediation.py:93-111 | a file holding the restricted line gets "No changes needed" and is not written |
| Remediation.SecurityGroupFixScenario | src/core/remediation.py:25-60 | `apply_fix` with backup on the open security group reports the restriction and its backup path, leaves the file restricted and the backup holding the open line, and a second fix changes nothing |
| Remediation.PrivateAclUnchanged | src/core/remediation.py:77-91 | an already private ACL is left byte for byte |
| Paths.LastIndexOf | src/core/remediation.py:65 | the position of the last occurrence of the character, or -1 when none |
| Paths.PathSplits | src/core/remediation.py:65 | a path is its directory part followed by its name |
| Paths.SuffixShape | src/parsers/terraform.py:17 | a suffix is empty or a final dotted segment of the name |
| Paths.NameSplits | src/core/remediation.py:65 | a name is its stem followed by its suffix |
| TerraformParser.Parse | src/parsers/terraform.py:11-25 | succeeds iff the read and the decoder chosen by the suffix both succeed |
| TerraformParser.ParseOutcome | src/parsers/terraform.py:14-25 | the result is the chosen decoder's value; any failure becomes "Failed to parse Terraform file <path>: <cause>" |
| TerraformParser.DecoderChoice | src/parsers/terraform.py:17-22 | a `.json` file never uses the HCL decoder; any other file never uses the JSON decoder |
| TerraformParser.SuffixExamples | src/parsers/terraform.py:17 | `.tf.json` is JSON; `.tf` and the upper-case `.JSON` are HCL |
| TerraformParser.JsonFileRoundTrip | tests/test_parsers.py:56-76 | a `.tf.json` file parses to the value its text encodes |
| TerraformParser.AccessorsReadTheirBlock | src/parsers/terraform.py:27-41 | each accessor gives its block, or `{}` when absent; a non-dict document is an error |
| TerraformParser.GetResourcesScenario | tests/test_parsers.py:78-87 | `get_resources` gives the resource map holding `aws_s3_bucket.test`, not the variables |
| CloudFormationParser.Parse | src/parsers/cloudformation.py:13-27 | succeeds iff the read and the decoder chosen by the lower-cased suffix both succeed |
| CloudFormationParser.ParseOutcome | src/parsers/cloudformation.py:16-27 | the result is the chosen decoder's value; any failure becomes "Failed to parse CloudFormation file <path>: <cause>" |
| CloudFormationParser.DecoderChoice | src/parsers/cloudformation.py:18-22 | a JSON template never uses YAML, any other file never uses JSON |
| CloudFormationParser.JsonSuffixes | src/parsers/cloudformation.py:18 | `.json` and `.JSON` are JSON |
| CloudFormationParser.YamlSuffixes | src/parsers/cloudformation.py:20-22 | `.yaml` and `.template` are YAML |
| CloudFormationParser.JsonTemplateRoundTrip | tests/test_parsers.py:95-115 | a JSON template parses to the value its text encodes |
| CloudFormationParser.YamlTemplateResources | tests/test_parsers.py:117-137 | a YAML template exposes `Resources.MyBucket` |
| CloudFormationParser.AccessorsReadTheirSection | src/parsers/cloudformation.py:29-43 | each accessor gives its section, or `{}`; a non-dict template is an error |
| ArmParser.Parse | src/parsers/arm.py:11-18 | the decoded JSON unchanged; any failure becomes "Failed to parse ARM template <path>: <cause>" |
| ArmParser.GetResources | src/parsers/arm.py:20-28 | the `enumerate` loop equals `GetResourcesSpec` |
| ArmParser.StoreLookup | src/parsers/arm.py:27 | after `d[k] = v`, `k` maps to `v` and every other key keeps its value |
| ArmParser.KeyedSize | src/parsers/arm.py:24-28 | at most one entry per resource, keys distinct |
| ArmParser.KeyedValues | src/parsers/arm.py:27 | every value is one of the listed resources |
| ArmParser.KeyedKeys | src/parsers/arm.py:26-27 | every resource's key is in the result |
| ArmParser.LastWriteWins | src/parsers/arm.py:27 | a resource whose key no later resource repeats is the value under that key |
| ArmParser.KeyedSucceeds | src/parsers/arm.py:25-26 | succeeds iff every resource is a dict with a hashable key |
| ArmParser.NoResourcesSection | src/parsers/arm.py:22 | a template without `resources` gives `{}` |
| ArmParser.UnnamedKeyedByPosition | src/parsers/arm.py:26 | an unnamed resource is keyed `resource_<i>` |
| ArmParser.StorageTemplateScenario | tests/test_parsers.py:145-170 | the test template parses to itself and keys its storage account by name |
| ArmParser.AccessorsReadTheirSection | src/parsers/arm.py:30-40 | each accessor gives its section, or `{}`; a non-dict template is an error |
| Helpers.MergeConfigs | src/utils/helpers.py:60-70 | the loop with its recursive call equals `Merge` |
| Helpers.MergeLookup | src/utils/helpers.py:62-68 | key by key: an override key holds the combination of both values, any other key the default's |
| Helpers.MergeKeys | src/utils/helpers.py:62-68 | the keys are the union of both sides' keys |
| Helpers.MergeDistinct | src/utils/helpers.py:62-68 | merging dicts gives a dict, each key once |
| Helpers.MergeSemantics | src/utils/helpers.py:62-68 | union of keys; the override wins unless both values are dicts; two dicts merge recursively; default-only keys are kept |
| Helpers.MergeIdentity | src/utils/helpers.py:60-70 | `merge(d, {}) == d`, and merging into `{}` gives the override |
| Helpers.NestedOverrideScenario | src/utils/helpers.py:65-66 | a nested override changes only the nested key it names |
| Helpers.ColourTable | src/utils/helpers.py:194-203 | only the four severities are coloured, each with its own colour |
| Helpers.FormatIgnoresSeverityCase | src/utils/helpers.py:202 | the severity's case does not matter, and absent means `medium` |
| Helpers.FormatShape | src/utils/helpers.py:205 | the line opens with colour and `[SEVERITY]` then reset, and ends with " - " and the message |
| Helpers.FormatDefaults | src/utils/helpers.py:202-205 | a bare finding renders blue `[MEDIUM]`, `Unknown`, `?` and `No message` |

## Left out

- Reading, writing and copying real files are left out. Remediation works on a `Disk` with a map from path to content and a set of paths it may not write. The parsers take the result of `read_text` as a parameter.
- `json.loads`, `yaml.safe_load` and `hcl2.loads` are parameters, because they are foreign libraries. Only the dispatch and the error wrapping around them are modelled.
- `datetime.now()` is a parameter: the ISO timestamp of a result, and the `%Y%m%d_%H%M%S` stamp of a backup.
- `_get_files`, `_analyze_file`, `_severity_meets_threshold` and `remediate_path` are not part of this model. The analyzer takes the file list and the per-file outcome as parameters. src/core/analyzer.py defines neither `_get_files` nor `_analyze_file`, so as written line 61 raises `AttributeError`. The model takes both as existing, and the analyzer.py:82 finding rests on that.
- src/main.py, src/utils/logger.py, setup.py, and `load_config`, `save_report` and `generate_html_report` in src/utils/helpers.py are not part of this model. They are CLI plumbing, logging, packaging and report file output.
- Paths are taken as written. `Path` normalisation (`//`, trailing `/`, `.`) is not modelled, so `str(file_path)` is the input string.
- A key holding `None` is modelled as an absent key. This covers a finding's `file`, `severity`, `message` and `line`, and a rule's fields.
- Helpers.FormatShape: `str()` of a non-string file or message is not modelled. These fields are strings in the model.
- ArmParser.Store: keys are compared as values, so Python's `True == 1` and `False == 0` key collisions are not modelled.
- `Values.Repr` does not reproduce Python's escaping inside quoted strings. It only appears in error texts.
- `Values.Lower` and `Values.Upper` fold ASCII letters only.
- Remediation.RunFixModel: a file that exists but cannot be read is not modelled. Locked paths refuse writes only.
- `Value` has no floating-point case, and dict keys are strings, except `ArmParser.Entry` keys, which are values. Python's `Truthy(0.0)`, `in` and `str()` on floats, and YAML documents with integer or boolean keys are not modelled. Every all-inputs lemma covers float-free, string-keyed documents only.
- The GCP fix has no corrected, idempotent counterpart. The code calls itself a simplified fix, so the model keeps its behaviour, and `Remediation.GcpFixRunsAgain` states it.
- Remediation.BackupPath: `with_suffix` can raise for an invalid suffix, and the model omits that check. No stamp and no file suffix the code produces can trigger it.

## Findings

Each as-written member shows one defect with the others taken as corrected.
For example, the S3 rows assume that `AWSRules()` can be constructed, which
needs the correction in the src/rules/aws_rules.py:34 row.

| source | as written | input that shows it | evidently intended | confidence | as-written member | corrected member |
|---|---|---|---|---|---|---|
| src/rules/aws_rules.py:92 | `_check_s3_public_bucket` ends in a bare `return`, so it returns `None` | a document whose only S3 resource is a public `aws_s3_bucket_acl`: the engine's `for violation in violations` raises, and the rule reports a `rule_error` finding instead of the violation | `return violations` | high, not executed | AwsRules.PublicAclScenario | RuleEngine.S3AclRuleScenario |
| src/rules/aws_rules.py:75 | the bucket branch calls `self._is_s3_bucket_public`, which is a method of the analyzer class (src/core/analyzer.py:143-162), not of `AWSRules` | the public bucket of tests/test_rules.py:16-34: `AttributeError` before any violation is built, so the test's `len(violations) == 1` cannot hold | the publicity test defined in `AWSRules` | high, not executed | AwsRules.S3AsWrittenSucceedsExactly | AwsRules.PublicBucketScenario |
| src/core/rule_engine.py:2 | a Markdown code fence before the module docstring | `from .rule_engine import RuleEngine` at src/core/analyzer.py:17: the import raises `SyntaxError`, so no analysis runs | the file without its two stray lines | high, not executed | RuleEngine.SourceHeadRejected | RuleEngine.SuccessIsOneToOne |
| src/core/analyzer.py:82 | `analyze_path` returns `violations`, a name it never defines | any known format, even with no files (tests/test_analyzer.py:107-116): `NameError` after the summary is built. This assumes that `_get_files` and `_analyze_file` (called at lines 61 and 65) exist. The file defines neither, so without them line 61 raises `AttributeError` first | `return results` | high, not executed | Analyzer.AsWrittenNeverReturns | Analyzer.NoFiles |
| src/rules/aws_rules.py:34 | the AWS table registers `self._check_security_group_open`, `_check_rds_public_access` and `_check_iam_wildcard_policy`, which are methods of the analyzer class (src/core/analyzer.py:84-141), not of `AWSRules` | `AWSRules()`: `AttributeError` on the second entry | the three checks, and `_is_s3_bucket_public`, defined in `AWSRules` | high, not executed | AwsRules.ConstructionAsWritten | AwsRules.ConstructionCorrected |
