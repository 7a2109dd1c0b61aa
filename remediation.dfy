/** The remediation engine: which rules can be fixed automatically, the
    four textual fixes, the backup naming, and `apply_fix`, which backs the
    file up when asked, runs the fix, and reports what happened without
    raising. Files are a map from path to content held by a `Disk`. */
module Remediation {
  import opened Values
  import opened Rules
  import opened Text
  import opened Paths

  // ---- The fix table ----

  datatype Fix = S3Fix | SecurityGroupFix | AzureStorageFix | GcpComputeFix

  /** `auto_fixable_rules.get(rule_id)`. */
  function FixFor(ruleId: Option<string>): (r: Option<Fix>)
    ensures r.Some? <==> ruleId.Some? && ruleId.value in FixableIds()
  {
    if ruleId == Some("aws_s3_public_bucket") then Some(S3Fix)
    else if ruleId == Some("aws_security_group_open") then Some(SecurityGroupFix)
    else if ruleId == Some("azure_storage_public") then Some(AzureStorageFix)
    else if ruleId == Some("gcp_compute_public_ip") then Some(GcpComputeFix)
    else None
  }

  function FixableIds(): set<string> {
    {"aws_s3_public_bucket", "aws_security_group_open", "azure_storage_public", "gcp_compute_public_ip"}
  }

  /** `can_auto_fix`: the finding's rule has an entry in the fix table. */
  predicate CanAutoFix(finding: Finding) {
    FixFor(finding.ruleId).Some?
  }

  /** The (old, new) replacements of the three textual fixes. */
  function Pairs(fix: Fix): seq<(string, string)>
    requires fix != GcpComputeFix
  {
    match fix
    case S3Fix =>
      [("acl = \"public-read\"", "acl = \"private\""),
       ("acl = \"public-read-write\"", "acl = \"private\""),
       ("\"PublicRead\"", "\"Private\""),
       ("\"PublicReadWrite\"", "\"Private\"")]
    case SecurityGroupFix => [(OpenCidr, RestrictedCidr), (OpenRange, RestrictedRange)]
    case AzureStorageFix =>
      [("allow_blob_public_access = true", "allow_blob_public_access = false"),
       ("\"publicAccess\": \"blob\"", "\"publicAccess\": \"none\""),
       ("\"publicAccess\": \"container\"", "\"publicAccess\": \"none\"")]
  }

  /** The two replacements of the security-group fix. */
  const OpenCidr: string := "cidr_blocks = [\"0.0.0.0/0\"]"
  const RestrictedCidr: string := "cidr_blocks = [\"10.0.0.0/8\"]"
  const OpenRange: string := "\"0.0.0.0/0\""
  const RestrictedRange: string := "\"10.0.0.0/8\""

  /** What a fix reports when it rewrote the file. */
  function Applied(fix: Fix): string {
    match fix
    case S3Fix => "Removed public ACL from S3 bucket"
    case SecurityGroupFix => "Restricted security group CIDR blocks"
    case AzureStorageFix => "Disabled public access on Azure storage"
    case GcpComputeFix => "Removed public IP from GCP compute instance"
  }

  const NoChanges: string := "No changes needed"

  // ---- Commenting out `access_config` blocks ----

  predicate Opens(line: string) {
    IsSubstring("access_config", line) && IsSubstring("{", line)
  }

  predicate Closes(line: string) {
    IsSubstring("}", line)
  }

  /** The `skip_block` flag after one line. */
  function NextSkip(skip: bool, line: string): bool {
    if Opens(line) then true else if skip && Closes(line) then false else skip
  }

  /** The line written for `line` while the flag is `skip`. */
  function LineOut(skip: bool, line: string): string {
    if Opens(line) then "  # " + line + " # Removed public IP for security"
    else if skip then "  # " + line
    else line
  }

  /** The loop over the lines, run from flag `skip`. */
  function CommentLines(lines: seq<string>, skip: bool): seq<string>
    decreases |lines|
  {
    if lines == [] then []
    else [LineOut(skip, lines[0])] + CommentLines(lines[1..], NextSkip(skip, lines[0]))
  }

  /** The flag after a run of lines. */
  function SkipAfter(skip: bool, lines: seq<string>): bool
    decreases |lines|
  {
    if lines == [] then skip else SkipAfter(NextSkip(skip, lines[0]), lines[1..])
  }

  /** The line loop as the source runs it: a flag and a growing list. */
  method CommentBlocks(lines: seq<string>) returns (fixed: seq<string>)
    ensures fixed == CommentLines(lines, false)
  {
    fixed := [];
    var skip := false;
    var i := 0;
    assert lines[0..] == lines;
    while i < |lines|
      invariant 0 <= i <= |lines|
      invariant CommentLines(lines, false) == fixed + CommentLines(lines[i..], skip)
    {
      assert lines[i..][1..] == lines[i + 1..];
      var line := lines[i];
      ghost var out := LineOut(skip, line);
      ghost var rest := CommentLines(lines[i + 1..], NextSkip(skip, line));
      assert CommentLines(lines[i..], skip) == [out] + rest;
      assert fixed + ([out] + rest) == (fixed + [out]) + rest;
      if Opens(line) {
        skip := true;
        fixed := fixed + ["  # " + line + " # Removed public IP for security"];
      } else if skip && Closes(line) {
        skip := false;
        fixed := fixed + ["  # " + line];
      } else if skip {
        fixed := fixed + ["  # " + line];
      } else {
        fixed := fixed + [line];
      }
      i := i + 1;
    }
    assert lines[|lines|..] == [];
    assert fixed + [] == fixed;
  }

  lemma {:induction false} SkipAfterSnoc(skip: bool, lines: seq<string>, line: string)
    ensures SkipAfter(skip, lines + [line]) == NextSkip(SkipAfter(skip, lines), line)
    decreases |lines|
  {
    if lines == [] {
      assert [] + [line] == [line];
      assert [line][1..] == [];
    } else {
      assert (lines + [line])[1..] == lines[1..] + [line];
      SkipAfterSnoc(NextSkip(skip, lines[0]), lines[1..], line);
    }
  }

  /** Line by line: the i-th output line is the i-th input line rendered
      under the flag left by the lines before it. */
  lemma {:induction false} CommentLinesPointwise(lines: seq<string>, skip: bool)
    ensures |CommentLines(lines, skip)| == |lines|
    ensures forall i :: 0 <= i < |lines| ==> CommentLines(lines, skip)[i] == LineOut(SkipAfter(skip, lines[..i]), lines[i])
    decreases |lines|
  {
    if lines != [] {
      var next := NextSkip(skip, lines[0]);
      var rest := lines[1..];
      CommentLinesPointwise(rest, next);
      assert CommentLines(lines, skip) == [LineOut(skip, lines[0])] + CommentLines(rest, next);
      forall i | 0 <= i < |lines|
        ensures CommentLines(lines, skip)[i] == LineOut(SkipAfter(skip, lines[..i]), lines[i])
      {
        if i == 0 {
          assert lines[..0] == [];
        } else {
          assert lines[..i][0] == lines[0];
          assert lines[..i][1..] == rest[..i - 1];
          assert SkipAfter(skip, lines[..i]) == SkipAfter(next, rest[..i - 1]);
          assert rest[i - 1] == lines[i];
          assert CommentLines(lines, skip)[i] == CommentLines(rest, next)[i - 1];
        }
      }
    }
  }

  /** The skip flag before line `i`. */
  function SkipBefore(lines: seq<string>, i: int): bool
    requires 0 <= i <= |lines|
  {
    SkipAfter(false, lines[..i])
  }

  /** The block transform keeps the line count; a line outside every block
      is kept; an opening line is commented and annotated; a line inside a
      block is commented. */
  lemma CommentShape(lines: seq<string>)
    ensures var out := CommentLines(lines, false);
            |out| == |lines| &&
            (forall i :: 0 <= i < |lines| && !SkipBefore(lines, i) && !Opens(lines[i]) ==> out[i] == lines[i]) &&
            (forall i :: 0 <= i < |lines| && Opens(lines[i]) ==>
               out[i] == "  # " + lines[i] + " # Removed public IP for security") &&
            (forall i :: 0 <= i < |lines| && SkipBefore(lines, i) && !Opens(lines[i]) ==> out[i] == "  # " + lines[i])
  {
    CommentLinesPointwise(lines, false);
  }

  /** After an opening line, every later line is inside the block up to and
      including the first later line with `}` (not itself an opening line). */
  lemma {:induction false} BlockExtent(lines: seq<string>, open: int, k: int)
    requires 0 <= open < k < |lines| && Opens(lines[open])
    requires forall j :: open < j < k ==> Opens(lines[j]) || !Closes(lines[j])
    ensures SkipBefore(lines, k)
    ensures Closes(lines[k]) && !Opens(lines[k]) && k + 1 <= |lines| ==> !SkipBefore(lines, k + 1)
    decreases k - open
  {
    assert lines[..k] == lines[..k - 1] + [lines[k - 1]];
    SkipAfterSnoc(false, lines[..k - 1], lines[k - 1]);
    if k - 1 > open {
      BlockExtent(lines, open, k - 1);
    }
    assert lines[..k + 1] == lines[..k] + [lines[k]];
    SkipAfterSnoc(false, lines[..k], lines[k]);
  }

  /** No opening line, no change. */
  lemma {:induction false} NoOpeningUnchanged(lines: seq<string>, skip: bool)
    requires !skip && forall k :: 0 <= k < |lines| ==> !Opens(lines[k])
    ensures CommentLines(lines, skip) == lines
    decreases |lines|
  {
    if lines != [] {
      assert forall k :: 0 <= k < |lines[1..]| ==> lines[1..][k] == lines[k + 1];
      NoOpeningUnchanged(lines[1..], NextSkip(skip, lines[0]));
      assert [lines[0]] + lines[1..] == lines;
    }
  }

  /** The GCP fix's new content; `None` when it does not apply. */
  function GcpRewrite(content: string): Option<string> {
    if IsSubstring("access_config", content) && IsSubstring("nat_ip", content) then
      Some(JoinWith(CommentLines(SplitOn(content, "\n"), false), "\n"))
    else None
  }

  /** A GCP rewrite of content without an opening line gives it back unchanged
      (it is still written). */
  lemma GcpRewriteWithoutBlock(content: string)
    requires IsSubstring("access_config", content) && IsSubstring("nat_ip", content)
    requires forall line <- SplitOn(content, "\n") :: !Opens(line)
    ensures GcpRewrite(content) == Some(content)
  {
    var lines := SplitOn(content, "\n");
    NoOpeningUnchanged(lines, false);
    JoinSplit(content, "\n");
  }

  /** Rendering a line keeps every text the line holds. */
  lemma LineOutKeeps(skip: bool, line: string, sub: string)
    requires IsSubstring(sub, line)
    ensures IsSubstring(sub, LineOut(skip, line))
  {
    if Opens(line) {
      SubstringWithin(sub, "  # ", line, " # Removed public IP for security");
    } else if skip {
      SubstringWithin(sub, "  # ", line, "");
      assert "  # " + line + "" == "  # " + line;
    }
  }

  /** Commenting out blocks keeps every single-line text of the content. */
  lemma RewriteKeeps(content: string, sub: string)
    requires '\n' !in sub && IsSubstring(sub, content)
    ensures IsSubstring(sub, JoinWith(CommentLines(SplitOn(content, "\n"), false), "\n"))
  {
    var lines := SplitOn(content, "\n");
    assert "\n" == ['\n'];
    JoinSplit(content, "\n");
    SplitPartsExcludeSeparator(content, '\n');
    var k := SubstringInSomePart(sub, lines, '\n');
    CommentLinesPointwise(lines, false);
    LineOutKeeps(SkipAfter(false, lines[..k]), lines[k], sub);
    SubstringOfJoin(sub, CommentLines(lines, false), "\n", k);
  }

  /** The rewrite keeps both markers it looks for, so rewritten content is
      always rewritten again. */
  lemma GcpRewriteKeepsMarkers(content: string)
    requires GcpRewrite(content).Some?
    ensures var r := GcpRewrite(content).value;
            IsSubstring("access_config", r) && IsSubstring("nat_ip", r) && GcpRewrite(r).Some?
  {
    assert "access_config"[0] != '\n' && "access_config"[1..] == "ccess_config";
    RewriteKeeps(content, "access_config");
    RewriteKeeps(content, "nat_ip");
  }

  // ---- Backup naming ----

  /** `file_path.with_suffix('.backup_<stamp>' + file_path.suffix)`; a path
      with an empty name is rejected. */
  function BackupPath(path: string, stamp: string): (r: Result<string>)
    ensures r.Ok? <==> PathName(path) != ""
  {
    var name := PathName(path);
    if name == [] then Err("PosixPath('" + path + "') has an empty name")
    else Ok(PathDir(path) + Stem(name) + ".backup_" + stamp + Suffix(name))
  }

  /** The backup lives next to the file, keeps its stem and suffix around
      the stamp, and is never the file itself. */
  lemma BackupPathShape(path: string, stamp: string)
    requires PathName(path) != ""
    ensures var b := BackupPath(path, stamp).value;
            var name := PathName(path);
            b == PathDir(path) + Stem(name) + ".backup_" + stamp + Suffix(name) &&
            path == PathDir(path) + Stem(name) + Suffix(name) &&
            |b| == |path| + 8 + |stamp| &&
            b != path
  {
    var name := PathName(path);
    PathSplits(path);
    NameSplits(name);
    var dir, stem, suffix := PathDir(path), Stem(name), Suffix(name);
    assert path == dir + stem + suffix;
    assert |path| == |dir| + |stem| + |suffix|;
  }

  // ---- The file system ----

  function NotFound(path: string): string {
    "[Errno 2] No such file or directory: '" + path + "'"
  }

  function Denied(path: string): string {
    "[Errno 13] Permission denied: '" + path + "'"
  }

  /** `read_text`. */
  function ReadFile(files: map<string, string>, path: string): (r: Result<string>)
    ensures r.Ok? <==> path in files
    ensures r.Ok? ==> r.value == files[path]
  {
    if path in files then Ok(files[path]) else Err(NotFound(path))
  }

  /** `write_text`: refused for a locked path. */
  function WriteFile(files: map<string, string>, locked: set<string>, path: string, content: string): (r: Result<map<string, string>>)
    ensures r.Ok? <==> path !in locked
    ensures r.Ok? ==> r.value == files[path := content]
  {
    if path in locked then Err(Denied(path)) else Ok(files[path := content])
  }

  /** `shutil.copy2`: the source must exist and the target be writable. */
  function CopyFile(files: map<string, string>, locked: set<string>, src: string, dst: string): (r: Result<map<string, string>>)
    ensures r.Ok? <==> src in files && dst !in locked
    ensures r.Ok? ==> r.value == files[dst := files[src]]
  {
    var content :- ReadFile(files, src);
    WriteFile(files, locked, dst, content)
  }

  /** The files a fix works on. Paths in `locked` cannot be written. */
  class Disk {
    var files: map<string, string>
    const locked: set<string>

    constructor (files: map<string, string>, locked: set<string>)
      ensures this.files == files && this.locked == locked
    {
      this.files := files;
      this.locked := locked;
    }

    method Read(path: string) returns (r: Result<string>)
      ensures r == ReadFile(files, path)
    {
      if path in files {
        r := Ok(files[path]);
      } else {
        r := Err(NotFound(path));
      }
    }

    method Write(path: string, content: string) returns (r: Result<()>)
      modifies this
      ensures var w := WriteFile(old(files), locked, path, content);
              (r.Ok? <==> w.Ok?) && (w.Ok? ==> files == w.value) &&
              (w.Err? ==> r == Err(w.error) && files == old(files))
    {
      if path in locked {
        r := Err(Denied(path));
      } else {
        files := files[path := content];
        r := Ok(());
      }
    }

    method Copy(src: string, dst: string) returns (r: Result<()>)
      modifies this
      ensures var c := CopyFile(old(files), locked, src, dst);
              (r.Ok? <==> c.Ok?) && (c.Ok? ==> files == c.value) &&
              (c.Err? ==> r == Err(c.error) && files == old(files))
    {
      var content := Read(src);
      if content.Err? {
        return Err(content.error);
      }
      r := Write(dst, content.value);
    }
  }

  // ---- The fixes ----

  /** What a fix returns and the files after it. */
  datatype Fixed = Fixed(message: string, files: map<string, string>)

  /** `_fix_gcp_compute_public_ip`: read, comment out the NAT blocks, and
      write back when the file has both markers. */
  function GcpFixModel(files: map<string, string>, locked: set<string>, path: string): Result<Fixed> {
    var content :- ReadFile(files, path);
    match GcpRewrite(content)
    case None => Ok(Fixed(NoChanges, files))
    case Some(rewritten) =>
      var written :- WriteFile(files, locked, path, rewritten);
      Ok(Fixed(Applied(GcpComputeFix), written))
  }

  /** A textual fix: read, apply the replacements, and write back only when
      they changed something. */
  function TextFixModel(files: map<string, string>, locked: set<string>, fix: Fix, path: string): Result<Fixed>
    requires fix != GcpComputeFix
  {
    var content :- ReadFile(files, path);
    var rewritten := Substitute(content, Pairs(fix));
    if rewritten == content then Ok(Fixed(NoChanges, files))
    else
      var written :- WriteFile(files, locked, path, rewritten);
      Ok(Fixed(Applied(fix), written))
  }

  /** One `_fix_*` function, chosen by the fix. */
  function RunFixModel(files: map<string, string>, locked: set<string>, fix: Fix, path: string): Result<Fixed> {
    if fix == GcpComputeFix then GcpFixModel(files, locked, path) else TextFixModel(files, locked, fix, path)
  }

  /** `_fix_gcp_compute_public_ip` on a disk. */
  method GcpFix(disk: Disk, path: string) returns (r: Result<string>)
    modifies disk
    ensures var m := GcpFixModel(old(disk.files), disk.locked, path);
            (r.Ok? <==> m.Ok?) &&
            (m.Ok? ==> r.value == m.value.message && disk.files == m.value.files) &&
            (m.Err? ==> r == Err(m.error) && disk.files == old(disk.files))
  {
    ghost var before := disk.files;
    var content := disk.Read(path);
    if content.Err? {
      return Err(content.error);
    }
    var text := content.value;
    if IsSubstring("access_config", text) && IsSubstring("nat_ip", text) {
      var lines := SplitOn(text, "\n");
      var fixedLines := CommentBlocks(lines);
      var rewritten := JoinWith(fixedLines, "\n");
      assert GcpRewrite(text) == Some(rewritten);
      var written := disk.Write(path, rewritten);
      if written.Err? {
        return Err(written.error);
      }
      return Ok(Applied(GcpComputeFix));
    }
    assert GcpRewrite(text) == None;
    return Ok(NoChanges);
  }

  /** `_fix_s3_public_bucket`, `_fix_security_group_open` and
      `_fix_azure_storage_public` on a disk: the replacements, and a write
      only when they changed something. */
  method TextFix(disk: Disk, fix: Fix, path: string) returns (r: Result<string>)
    requires fix != GcpComputeFix
    modifies disk
    ensures var m := TextFixModel(old(disk.files), disk.locked, fix, path);
            (r.Ok? <==> m.Ok?) &&
            (m.Ok? ==> r.value == m.value.message && disk.files == m.value.files) &&
            (m.Err? ==> r == Err(m.error) && disk.files == old(disk.files))
  {
    ghost var files := disk.files;
    var content := disk.Read(path);
    if content.Err? {
      return Err(content.error);
    }
    var text := content.value;
    var rewritten := ApplyPairs(text, Pairs(fix));
    ghost var m := TextFixModel(files, disk.locked, fix, path);
    if rewritten != text {
      assert m == (var w :- WriteFile(files, disk.locked, path, rewritten); Ok(Fixed(Applied(fix), w)));
      var written := disk.Write(path, rewritten);
      if written.Err? {
        return Err(written.error);
      }
      return Ok(Applied(fix));
    }
    assert m == Ok(Fixed(NoChanges, files));
    return Ok(NoChanges);
  }

  /** The fix function the table names, run on a disk. */
  method RunFix(disk: Disk, fix: Fix, path: string) returns (r: Result<string>)
    modifies disk
    ensures var m := RunFixModel(old(disk.files), disk.locked, fix, path);
            (r.Ok? <==> m.Ok?) &&
            (m.Ok? ==> r.value == m.value.message && disk.files == m.value.files) &&
            (m.Err? ==> r == Err(m.error) && disk.files == old(disk.files))
  {
    if fix == GcpComputeFix {
      r := GcpFix(disk, path);
    } else {
      r := TextFix(disk, fix, path);
    }
  }

  // ---- `apply_fix` ----

  /** The dict `apply_fix` returns: no fix for the rule, a fix that raised,
      or a fix that ran. */
  datatype FixResult =
    | NoAutoFix(error: string)
    | FixFailed(ruleId: Option<string>, file: string, error: string)
    | FixApplied(ruleId: Option<string>, file: string, backupPath: Option<string>, fixApplied: string, timestamp: string)
  {
    predicate Success() { FixApplied? }
  }

  datatype Outcome = Outcome(result: FixResult, files: map<string, string>)

  /** `apply_fix` on the files: `stamp` is the backup's `%Y%m%d_%H%M%S`
      clock reading and `now` the ISO timestamp of the result. The only
      exception that escapes is the `KeyError` of a finding without a file. */
  function ApplyFixModel(files: map<string, string>, locked: set<string>, finding: Finding, createBackup: bool,
                         stamp: string, now: string): Result<Outcome>
  {
    var ruleId := finding.ruleId;
    var fix := FixFor(ruleId);
    if fix.None? then Ok(Outcome(NoAutoFix("No auto-fix available for rule: " + DisplayOpt(ruleId)), files))
    else if finding.file.None? then Err("'file'")
    else
      var path := finding.file.value;
      var backup := if createBackup then BackupPath(path, stamp) else Ok("");
      if backup.Err? then Ok(Outcome(FixFailed(ruleId, path, backup.error), files))
      else
        var copied := if createBackup then CopyFile(files, locked, path, backup.value) else Ok(files);
        if copied.Err? then Ok(Outcome(FixFailed(ruleId, path, copied.error), files))
        else
          var fixed := RunFixModel(copied.value, locked, fix.value, path);
          if fixed.Err? then Ok(Outcome(FixFailed(ruleId, path, fixed.error), copied.value))
          else
            Ok(Outcome(FixApplied(ruleId, path, if createBackup then Some(backup.value) else None,
                                  fixed.value.message, now),
                       fixed.value.files))
  }

  /** `apply_fix` as the source runs it, on a disk. */
  method ApplyFix(disk: Disk, finding: Finding, createBackup: bool, stamp: string, now: string)
    returns (r: Result<FixResult>)
    modifies disk
    ensures var m := ApplyFixModel(old(disk.files), disk.locked, finding, createBackup, stamp, now);
            (r.Ok? <==> m.Ok?) &&
            (m.Ok? ==> r.value == m.value.result && disk.files == m.value.files) &&
            (m.Err? ==> r == Err(m.error) && disk.files == old(disk.files))
  {
    var ruleId := finding.ruleId;
    var fix := FixFor(ruleId);
    if fix.None? {
      return Ok(NoAutoFix("No auto-fix available for rule: " + DisplayOpt(ruleId)));
    }
    if finding.file.None? {
      return Err("'file'");
    }
    var path := finding.file.value;
    var backupPath: Option<string> := None;
    if createBackup {
      var backup := BackupPath(path, stamp);
      if backup.Err? {
        return Ok(FixFailed(ruleId, path, backup.error));
      }
      var copied := disk.Copy(path, backup.value);
      if copied.Err? {
        return Ok(FixFailed(ruleId, path, copied.error));
      }
      backupPath := Some(backup.value);
    }
    var fixed := RunFix(disk, fix.value, path);
    if fixed.Err? {
      return Ok(FixFailed(ruleId, path, fixed.error));
    }
    return Ok(FixApplied(ruleId, path, backupPath, fixed.value, now));
  }

  // ---- Properties of `apply_fix` ----

  /** A rule without a fix gets an error result and the files are untouched. */
  lemma NoFixLeavesFiles(files: map<string, string>, locked: set<string>, finding: Finding, createBackup: bool,
                         stamp: string, now: string)
    requires !CanAutoFix(finding)
    ensures var m := ApplyFixModel(files, locked, finding, createBackup, stamp, now);
            m.Ok? && m.value.result.NoAutoFix? && m.value.files == files &&
            m.value.result.error == "No auto-fix available for rule: " + DisplayOpt(finding.ruleId)
  {
  }

  /** `apply_fix` raises only for a fixable finding without a file. */
  lemma RaisesOnlyWithoutFile(files: map<string, string>, locked: set<string>, finding: Finding, createBackup: bool,
                              stamp: string, now: string)
    ensures ApplyFixModel(files, locked, finding, createBackup, stamp, now).Err? <==>
            CanAutoFix(finding) && finding.file.None?
  {
  }

  /** With a backup requested, a successful fix leaves a copy of the
      original content at the backup path, which differs from the file. */
  lemma BackupHoldsOriginal(files: map<string, string>, locked: set<string>, finding: Finding,
                            stamp: string, now: string)
    requires var m := ApplyFixModel(files, locked, finding, true, stamp, now);
             m.Ok? && m.value.result.FixApplied?
    ensures var m := ApplyFixModel(files, locked, finding, true, stamp, now);
            var path := finding.file.value;
            var b := m.value.result.backupPath;
            path in files && b.Some? && b.value != path &&
            b == Some(BackupPath(path, stamp).value) &&
            b.value in m.value.files && m.value.files[b.value] == files[path]
  {
    var path := finding.file.value;
    BackupPathShape(path, stamp);
    var b := BackupPath(path, stamp).value;
    var copied := CopyFile(files, locked, path, b);
    assert copied.Ok? && b in copied.value && copied.value[b] == files[path];
    RunFixTouchesOnlyFile(copied.value, locked, FixFor(finding.ruleId).value, path);
  }

  /** `after` differs from `before` at most in `path`, which it holds. */
  predicate TouchesOnly(before: map<string, string>, after: map<string, string>, path: string) {
    after.Keys == before.Keys + {path} && forall p <- before :: p != path ==> after[p] == before[p]
  }

  /** Leaving the files alone, or writing `path` once, touches only `path`. */
  lemma WriteTouchesOnly(files: map<string, string>, path: string, content: string)
    requires path in files
    ensures TouchesOnly(files, files, path) && TouchesOnly(files, files[path := content], path)
  {
  }

  lemma GcpFixTouchesOnlyFile(files: map<string, string>, locked: set<string>, path: string)
    ensures var r := GcpFixModel(files, locked, path);
            r.Ok? ==> TouchesOnly(files, r.value.files, path)
  {
    if path in files {
      var rewritten := GcpRewrite(files[path]);
      WriteTouchesOnly(files, path, if rewritten.Some? then rewritten.value else files[path]);
    }
  }

  lemma TextFixTouchesOnlyFile(files: map<string, string>, locked: set<string>, fix: Fix, path: string)
    requires fix != GcpComputeFix
    ensures var r := TextFixModel(files, locked, fix, path);
            r.Ok? ==> TouchesOnly(files, r.value.files, path)
  {
    if path in files {
      WriteTouchesOnly(files, path, Substitute(files[path], Pairs(fix)));
    }
  }

  /** A fix writes at most the one file it was given. */
  lemma RunFixTouchesOnlyFile(files: map<string, string>, locked: set<string>, fix: Fix, path: string)
    ensures var r := RunFixModel(files, locked, fix, path);
            r.Ok? ==> r.value.files.Keys == files.Keys + {path} &&
                      forall p <- files :: p != path ==> r.value.files[p] == files[p]
  {
    if fix == GcpComputeFix {
      GcpFixTouchesOnlyFile(files, locked, path);
    } else {
      TextFixTouchesOnlyFile(files, locked, fix, path);
    }
  }

  /** A backup that cannot be made stops the fix: an error result, files unchanged. */
  lemma FailedBackupStopsFix(files: map<string, string>, locked: set<string>, finding: Finding,
                             stamp: string, now: string)
    requires CanAutoFix(finding) && finding.file.Some?
    requires var path := finding.file.value;
             var b := BackupPath(path, stamp);
             b.Err? || path !in files || b.value in locked
    ensures var m := ApplyFixModel(files, locked, finding, true, stamp, now);
            m.Ok? && m.value.result.FixFailed? && m.value.files == files
  {
  }

  /** A fix that fails after the backup was taken leaves the backup holding
      the original and the file itself as it was. */
  lemma FailedFixKeepsBackup(files: map<string, string>, locked: set<string>, finding: Finding,
                             stamp: string, now: string)
    requires CanAutoFix(finding) && finding.file.Some?
    requires var path := finding.file.value;
             var b := BackupPath(path, stamp);
             b.Ok? && path in files && b.value !in locked &&
             RunFixModel(files[b.value := files[path]], locked, FixFor(finding.ruleId).value, path).Err?
    ensures var m := ApplyFixModel(files, locked, finding, true, stamp, now);
            var path := finding.file.value;
            var b := BackupPath(path, stamp).value;
            m.Ok? && m.value.result.FixFailed? && b != path &&
            m.value.files == files[b := files[path]] &&
            m.value.files[b] == files[path] && m.value.files[path] == files[path]
  {
    BackupPathShape(finding.file.value, stamp);
  }

  /** Without a backup, `backup_path` is `None` and only the file itself
      may change. */
  lemma NoBackupTouchesOnlyFile(files: map<string, string>, locked: set<string>, finding: Finding,
                                stamp: string, now: string)
    requires CanAutoFix(finding) && finding.file.Some?
    ensures var m := ApplyFixModel(files, locked, finding, false, stamp, now);
            var path := finding.file.value;
            m.Ok? &&
            (m.value.result.FixApplied? ==> m.value.result.backupPath.None?) &&
            forall p <- files :: p != path ==> p in m.value.files && m.value.files[p] == files[p]
  {
    RunFixTouchesOnlyFile(files, locked, FixFor(finding.ruleId).value, finding.file.value);
  }

  /** A textual fix on content holding none of its patterns reports
      "No changes needed" and writes nothing. */
  lemma TextFixNoMatch(files: map<string, string>, locked: set<string>, fix: Fix, path: string)
    requires fix != GcpComputeFix && path in files
    requires forall k :: 0 <= k < |Pairs(fix)| ==> !IsSubstring(Pairs(fix)[k].0, files[path])
    ensures RunFixModel(files, locked, fix, path) == Ok(Fixed(NoChanges, files))
  {
    SubstituteAbsent(files[path], Pairs(fix));
  }

  /** The GCP fix needs both `access_config` and `nat_ip` in the file. */
  lemma GcpFixNeedsBoth(files: map<string, string>, locked: set<string>, path: string)
    requires path in files
    requires !IsSubstring("access_config", files[path]) || !IsSubstring("nat_ip", files[path])
    ensures RunFixModel(files, locked, GcpComputeFix, path) == Ok(Fixed(NoChanges, files))
  {
  }

  /** A second GCP fix of a file the first one rewrote rewrites it again and
      reports the removal again, never "No changes needed". */
  lemma GcpFixRunsAgain(files: map<string, string>, locked: set<string>, path: string)
    requires GcpFixModel(files, locked, path).Ok? && GcpFixModel(files, locked, path).value.message == Applied(GcpComputeFix)
    ensures var first := GcpFixModel(files, locked, path).value;
            var second := GcpFixModel(first.files, locked, path);
            second.Ok? && second.value.message == Applied(GcpComputeFix) && second.value.message != NoChanges
  {
    assert Applied(GcpComputeFix) != NoChanges by { assert |Applied(GcpComputeFix)| != |NoChanges|; }
    GcpRewriteKeepsMarkers(files[path]);
  }


  /** The two sides of the only `1` of the restricted line. */
  const RestrictedBefore: string := "cidr_blocks = [\""
  const RestrictedAfter: string := "0.0.0.0/8\"]"

  lemma RestrictedCidrSplits()
    ensures RestrictedCidr == JoinWith([RestrictedBefore, RestrictedAfter], ['1'])
    ensures '1' !in RestrictedBefore && '1' !in RestrictedAfter
  {
  }

  /** The whole open line does not occur in the restricted one. */
  lemma RestrictedCidrLacksOpenLine()
    ensures !IsSubstring(OpenCidr, RestrictedCidr)
  {
    RestrictedCidrSplits();
    assert '1' !in OpenCidr;
    LongerNotSubstring(OpenCidr, RestrictedBefore);
    LongerNotSubstring(OpenCidr, RestrictedAfter);
    NotAcrossSeparator(OpenCidr, RestrictedBefore, RestrictedAfter, '1');
  }

  /** The quoted open range does not occur in the restricted line. */
  lemma RestrictedCidrLacksOpenRange()
    ensures !IsSubstring(OpenRange, RestrictedCidr)
  {
    RestrictedCidrSplits();
    assert '1' !in OpenRange;
    assert '0' in OpenRange && '0' !in RestrictedBefore;
    AbsentCharNotSubstring(OpenRange, RestrictedBefore, '0');
    SameLengthNotSubstring(OpenRange, RestrictedAfter);
    NotAcrossSeparator(OpenRange, RestrictedBefore, RestrictedAfter, '1');
  }

  /** The security-group fix leaves the restricted line as it is. */
  lemma RestrictedCidrIsFixed()
    ensures Substitute(RestrictedCidr, Pairs(SecurityGroupFix)) == RestrictedCidr
  {
    SubstituteTwo(RestrictedCidr, OpenCidr, RestrictedCidr, OpenRange, RestrictedRange);
    RestrictedCidrLacksOpenLine();
    ReplaceAbsent(RestrictedCidr, OpenCidr, RestrictedCidr);
    RestrictedCidrLacksOpenRange();
    ReplaceAbsent(RestrictedCidr, OpenRange, RestrictedRange);
  }

  /** The security-group fix turns the open line into the restricted one. */
  lemma SecurityGroupRewrite()
    ensures Substitute(OpenCidr, Pairs(SecurityGroupFix)) == RestrictedCidr
  {
    SubstituteTwo(OpenCidr, OpenCidr, RestrictedCidr, OpenRange, RestrictedRange);
    assert |OpenCidr| > 0;
    ReplaceWhole(OpenCidr, RestrictedCidr);
    RestrictedCidrLacksOpenRange();
    ReplaceAbsent(RestrictedCidr, OpenRange, RestrictedRange);
  }

  /** The security-group fix rewrites a file holding the open line. */
  lemma SecurityGroupFixRewrites(files: map<string, string>, locked: set<string>, path: string)
    requires path in files && files[path] == OpenCidr && path !in locked
    ensures RunFixModel(files, locked, SecurityGroupFix, path)
         == Ok(Fixed("Restricted security group CIDR blocks", files[path := RestrictedCidr]))
  {
    SecurityGroupRewrite();
    assert OpenCidr != RestrictedCidr by { assert |OpenCidr| != |RestrictedCidr|; }
  }

  /** The security-group fix leaves a file holding the restricted line alone. */
  lemma SecurityGroupFixSettles(files: map<string, string>, locked: set<string>, path: string)
    requires path in files && files[path] == RestrictedCidr
    ensures RunFixModel(files, locked, SecurityGroupFix, path) == Ok(Fixed(NoChanges, files))
  {
    RestrictedCidrIsFixed();
  }

  /** The remediation scenario: fixing an open security group with a backup
      reports the restriction, leaves the file restricted and the backup
      holding the open line; fixing it again changes nothing. */
  lemma SecurityGroupFixScenario(files: map<string, string>, locked: set<string>, finding: Finding,
                                 stamp: string, now: string)
    requires finding.ruleId == Some("aws_security_group_open") && finding.file.Some?
    requires var path := finding.file.value;
             path in files && files[path] == OpenCidr && path !in locked &&
             BackupPath(path, stamp).Ok? && BackupPath(path, stamp).value !in locked
    ensures var m := ApplyFixModel(files, locked, finding, true, stamp, now);
            var path := finding.file.value;
            var b := BackupPath(path, stamp).value;
            m.Ok? &&
            m.value.result == FixApplied(finding.ruleId, path, Some(b), "Restricted security group CIDR blocks", now) &&
            m.value.files == files[b := OpenCidr][path := RestrictedCidr] &&
            RunFixModel(m.value.files, locked, SecurityGroupFix, path) == Ok(Fixed(NoChanges, m.value.files))
  {
    var path := finding.file.value;
    BackupPathShape(path, stamp);
    var b := BackupPath(path, stamp).value;
    var copied := files[b := OpenCidr];
    assert CopyFile(files, locked, path, b) == Ok(copied);
    SecurityGroupFixRewrites(copied, locked, path);
    var fixedFiles := copied[path := RestrictedCidr];
    SecurityGroupFixSettles(fixedFiles, locked, path);
  }

  /** Content with no `-` and no `P` holds none of the public ACL patterns,
      so the S3 fix leaves it byte for byte. */
  lemma S3FixKeepsPrivate(files: map<string, string>, locked: set<string>, path: string)
    requires path in files && '-' !in files[path] && 'P' !in files[path]
    ensures RunFixModel(files, locked, S3Fix, path) == Ok(Fixed(NoChanges, files))
  {
    var content := files[path];
    var pairs := Pairs(S3Fix);
    assert '-' in pairs[0].0 && '-' in pairs[1].0 && 'P' in pairs[2].0 && 'P' in pairs[3].0;
    AbsentCharNotSubstring(pairs[0].0, content, '-');
    AbsentCharNotSubstring(pairs[1].0, content, '-');
    AbsentCharNotSubstring(pairs[2].0, content, 'P');
    AbsentCharNotSubstring(pairs[3].0, content, 'P');
    TextFixNoMatch(files, locked, S3Fix, path);
  }

  /** An already private bucket ACL is not rewritten. */
  lemma PrivateAclUnchanged(files: map<string, string>, locked: set<string>, path: string)
    requires path in files && files[path] == "acl = \"private\""
    ensures RunFixModel(files, locked, S3Fix, path) == Ok(Fixed(NoChanges, files))
  {
    S3FixKeepsPrivate(files, locked, path);
  }
}
