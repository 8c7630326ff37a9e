/**
 The Checkov normaliser: one high-severity finding per failed check, each mapped to a control of
 the Well-Architected security pillar by the prefix of its check id and the cloud it runs for.
 */
module Checkov {
  import opened Wrappers
  import Text
  import opened Json
  import JsonText
  import Findings

  const Protection := "WAF-SEC: Infrastructure Protection"
  const Generic := "WAF-SEC: Security"

  /** `WAF_MAPPING.get(cloud, {})`, as (prefix, control) pairs in the order listed. */
  function PrefixMap(cloud: string): (r: seq<(string, string)>)
    ensures forall i :: 0 <= i < |r| ==> r[i].1 == Protection
  {
    if cloud == "aws" then [("CKV_AWS_", Protection), ("CKV2_AWS_", Protection)]
    else if cloud == "azure" then [("CKV_AZURE_", Protection)]
    else if cloud == "gcp" then [("CKV_GCP_", Protection)]
    else []
  }

  predicate MatchesAt(id: string, m: seq<(string, string)>, i: nat)
    requires i < |m|
  {
    Text.StartsWith(id, m[i].0)
  }

  /** Where the loop of `get_waf_control` stops: the first prefix the id starts with, or the
      end of the map when it starts with none. */
  function FirstMatch(id: string, m: seq<(string, string)>): (i: nat)
    ensures i <= |m|
    ensures i < |m| ==> MatchesAt(id, m, i)
    ensures forall n :: 0 <= n < i ==> !MatchesAt(id, m, n)
  {
    if |m| == 0 then 0
    else if MatchesAt(id, m, 0) then 0
    else
      var i := FirstMatch(id, m[1..]);
      assert forall n :: 1 <= n < i + 1 ==> MatchesAt(id, m, n) == MatchesAt(id, m[1..], n - 1);
      i + 1
  }

  /** The loop of `get_waf_control`: the control of the first prefix that matches, or the
      generic control. */
  function Scan(id: string, m: seq<(string, string)>): string {
    var i := FirstMatch(id, m);
    if i < |m| then m[i].1 else Generic
  }

  /** `get_waf_control`. A cloud without prefixes never looks at the id; otherwise the id must be
      a string to have `startswith` (`AttributeError`). */
  function WafControl(checkId: Json, cloud: string): (r: Result<string, PyError>)
    ensures r.Err? <==> |PrefixMap(cloud)| > 0 && !checkId.JStr?
    ensures r.Err? ==> r.error == AttributeError
    ensures r.Ok? ==> r.value == Protection || r.value == Generic
    ensures checkId.JStr? ==> (r == Ok(Protection) <==> exists i :: 0 <= i < |PrefixMap(cloud)| && MatchesAt(checkId.s, PrefixMap(cloud), i))
  {
    var m := PrefixMap(cloud);
    if |m| == 0 then Ok(Generic)
    else if !checkId.JStr? then Err(AttributeError)
    else Ok(Scan(checkId.s, m))
  }

  /** On AWS, exactly the `CKV_AWS_` and `CKV2_AWS_` checks protect infrastructure. */
  lemma AwsControl(id: string)
    ensures WafControl(JStr(id), "aws") == Ok(Protection) <==>
      Text.StartsWith(id, "CKV_AWS_") || Text.StartsWith(id, "CKV2_AWS_")
    ensures WafControl(JStr(id), "aws").Ok?
  {
    var m := PrefixMap("aws");
    assert MatchesAt(id, m, 0) == Text.StartsWith(id, "CKV_AWS_");
    assert MatchesAt(id, m, 1) == Text.StartsWith(id, "CKV2_AWS_");
  }

  /** On Azure and on GCP, exactly the checks of that cloud's prefix protect infrastructure. */
  lemma AzureAndGcpControl(id: string)
    ensures WafControl(JStr(id), "azure") == Ok(Protection) <==> Text.StartsWith(id, "CKV_AZURE_")
    ensures WafControl(JStr(id), "gcp") == Ok(Protection) <==> Text.StartsWith(id, "CKV_GCP_")
  {
    assert MatchesAt(id, PrefixMap("azure"), 0) == Text.StartsWith(id, "CKV_AZURE_");
    assert MatchesAt(id, PrefixMap("gcp"), 0) == Text.StartsWith(id, "CKV_GCP_");
  }

  /** Any other cloud maps every check, whatever its id, to the generic control. */
  lemma UnknownCloudIsGeneric(checkId: Json, cloud: string)
    requires cloud != "aws" && cloud != "azure" && cloud != "gcp"
    ensures WafControl(checkId, cloud) == Ok(Generic)
  {
  }

  /** The cloud argument, `aws` when it is not given. */
  function Cloud(arg: Option<string>): string {
    arg.GetOr("aws")
  }

  /** `r.get("results", {}).get("failed_checks", [])`, iterated: the report and its `results`
      must be dicts, and the failed checks iterable. */
  function FailedChecks(r: Json): (x: Result<seq<Json>, PyError>)
    ensures !r.JObj? ==> x == Err(AttributeError)
    ensures r.JObj? && !HasKey(r.fields, "results") ==> x == Ok([])
  {
    var results := Get(r, "results", JObj([]));
    if results.Err? then Err(results.error)
    else
      var failed := Get(results.value, "failed_checks", JArr([]));
      if failed.Err? then Err(failed.error) else Iterate(failed.value)
  }

  /** The checks a report holds: a list of reports (one per framework) contributes the failed
      checks of each in turn, a single report its own. */
  function Checks(raw: Json): (r: Result<seq<Json>, PyError>)
    ensures raw.JArr? ==> (var each := MapAll(FailedChecks, raw.items);
      && (r.Ok? <==> each.Ok?)
      && (r.Ok? ==> |r.value| == TotalLength(each.value)))
    ensures !raw.JArr? ==> r == FailedChecks(raw)
  {
    if raw.JArr? then
      var each := MapAll(FailedChecks, raw.items);
      if each.Err? then Err(each.error)
      else
        ConcatLength(each.value);
        Ok(Concat(each.value))
    else FailedChecks(raw)
  }

  /** A list of reports yields the failed checks of report `i` after those of the reports before
      it, each in its own order. */
  lemma ChecksInReportOrder(raw: Json, i: nat, j: nat)
    requires raw.JArr? && Checks(raw).Ok?
    requires i < |raw.items| && j < |MapAll(FailedChecks, raw.items).value[i]|
    ensures var each := MapAll(FailedChecks, raw.items).value;
      && TotalLength(each[..i]) + j < |Checks(raw).value|
      && Checks(raw).value[TotalLength(each[..i]) + j] == each[i][j]
      && Ok(each[i]) == FailedChecks(raw.items[i])
  {
    var each := MapAll(FailedChecks, raw.items).value;
    assert Checks(raw).value == Concat(each);
    ConcatAt(each, i, j);
  }

  /** `check.get("check", {})`, which is where the name and guideline live. */
  function Meta(check: Json): Json
    requires check.JObj?
  {
    GetOr(check.fields, "check", JObj([]))
  }

  /** The finding's members, once the line and the control are known. */
  function Built(check: Json, line: Json, waf: string): (f: Findings.Finding)
    requires check.JObj? && Meta(check).JObj?
    ensures f.tool == "checkov" && f.severity == "high" && f.line == line && f.wafControl == Some(waf)
    ensures f.id == GetOr(check.fields, "check_id", JStr("unknown")) && f.cvss.None?
    ensures f.file == GetOr(check.fields, "repo_file_path", GetOr(check.fields, "file_path", JStr("")))
    ensures f.title == GetOr(Meta(check).fields, "name", f.id)
    ensures f.description == GetOr(Meta(check).fields, "name", JStr("IaC misconfiguration detected"))
    ensures f.fix == GetOr(Meta(check).fields, "guideline", JStr("Review Checkov documentation for remediation."))
    ensures Ok(f.code) == Prefix(JStr(JsonText.Dumps(JsonText.Pretty, GetOr(check.fields, "code_block", JArr([])))), 500)
    ensures f.code.JStr? && |f.code.s| <= 500 && Text.IsAscii(f.code.s)
    ensures f.references.JArr? && |f.references.items| <= 1
  {
    var meta := Meta(check);
    var checkId := GetOr(check.fields, "check_id", JStr("unknown"));
    var dumped := JsonText.Dumps(JsonText.Pretty, GetOr(check.fields, "code_block", JArr([])));
    var code := Prefix(JStr(dumped), 500).value;
    assert Text.IsAscii(code.s) by {
      assert forall k :: 0 <= k < |code.s| ==> code.s[k] == dumped[k];
    }
    Findings.Finding(
      id := checkId,
      tool := "checkov",
      severity := "high",
      title := GetOr(meta.fields, "name", checkId),
      description := GetOr(meta.fields, "name", JStr("IaC misconfiguration detected")),
      file := GetOr(check.fields, "repo_file_path", GetOr(check.fields, "file_path", JStr(""))),
      line := line,
      code := code,
      cwe := JArr([]),
      owasp := JArr([]),
      wafControl := Some(waf),
      fix := GetOr(meta.fields, "guideline", JStr("Review Checkov documentation for remediation.")),
      references := if Truthy(GetOr(meta.fields, "guideline", JNull))
                    then JArr([GetOr(meta.fields, "guideline", JStr(""))]) else JArr([]),
      cvss := None)
  }

  /** The finding for one failed check. The members are computed in the order written: the
      `check` member must be a dict (`AttributeError`), then `file_line_range[0]` must exist, then
      the WAF control must be found. */
  function Record(check: Json, cloud: string): (x: Result<Findings.Finding, PyError>)
    ensures x.Ok? <==> (&& check.JObj? && Meta(check).JObj?
      && First(GetOr(check.fields, "file_line_range", JArr([JInt(0)]))).Ok?
      && WafControl(GetOr(check.fields, "check_id", JStr("unknown")), cloud).Ok?)
    ensures !check.JObj? || (check.JObj? && !Meta(check).JObj?) ==> x == Err(AttributeError)
    ensures x.Ok? ==> (&& x.value.tool == "checkov" && x.value.severity == "high"
      && x.value.id == GetOr(check.fields, "check_id", JStr("unknown"))
      && Ok(x.value.line) == First(GetOr(check.fields, "file_line_range", JArr([JInt(0)])))
      && x.value.wafControl.Some? && Ok(x.value.wafControl.value) == WafControl(x.value.id, cloud)
      && x.value.cvss.None?)
    ensures x.Ok? ==> x.value.file == GetOr(check.fields, "repo_file_path", GetOr(check.fields, "file_path", JStr("")))
    ensures x.Ok? ==> (&& x.value.title == GetOr(Meta(check).fields, "name", x.value.id)
      && x.value.description == GetOr(Meta(check).fields, "name", JStr("IaC misconfiguration detected"))
      && x.value.fix == GetOr(Meta(check).fields, "guideline", JStr("Review Checkov documentation for remediation.")))
    ensures x.Ok? ==> Ok(x.value.code) == Prefix(JStr(JsonText.Dumps(JsonText.Pretty, GetOr(check.fields, "code_block", JArr([])))), 500)
    ensures x.Ok? ==> x.value.code.JStr? && |x.value.code.s| <= 500 && Text.IsAscii(x.value.code.s)
    ensures x.Ok? ==> x.value.references.JArr? && |x.value.references.items| <= 1
  {
    if !check.JObj? then Err(AttributeError)
    else
      var meta := Meta(check);
      if !meta.JObj? then Err(AttributeError)
      else
        var checkId := GetOr(check.fields, "check_id", JStr("unknown"));
        var line := First(GetOr(check.fields, "file_line_range", JArr([JInt(0)])));
        if line.Err? then Err(line.error)
        else
          var waf := WafControl(checkId, cloud);
          if waf.Err? then Err(waf.error)
          else
            Ok(Built(check, line.value, waf.value))
  }


  /** A guideline, when it is truthy, is both the fix and the one reference. */
  lemma GuidelineIsReference(check: Json, cloud: string)
    requires Record(check, cloud).Ok?
    ensures var g := GetOr(Meta(check).fields, "guideline", JNull);
      var f := Record(check, cloud).value;
      && (Truthy(g) ==> f.references == JArr([g]) && f.fix == g)
      && (!Truthy(g) ==> f.references == JArr([]))
  {
  }

  /** `normalise`: one finding per check, none for a missing report. */
  function Normalise(file: JsonFile, cloud: string): (r: Result<seq<Findings.Finding>, PyError>)
    ensures file.Missing? ==> r == Ok([])
    ensures r.Ok? <==> (file.Missing? || (file.Parsed? && Checks(file.doc).Ok?
      && forall k :: 0 <= k < |Checks(file.doc).value| ==> Record(Checks(file.doc).value[k], cloud).Ok?))
    ensures r.Ok? && file.Parsed? ==> (var checks := Checks(file.doc).value;
      && |r.value| == |checks|
      && forall k :: 0 <= k < |checks| ==> Ok(r.value[k]) == Record(checks[k], cloud))
    ensures r.Ok? ==> forall k :: 0 <= k < |r.value| ==> r.value[k].tool == "checkov" && r.value[k].severity == "high"
  {
    if file.Missing? then Ok([])
    else
      var raw := Load(file);
      if raw.Err? then Err(raw.error)
      else
        var checks := Checks(raw.value);
        if checks.Err? then Err(checks.error)
        else MapAll((c: Json) => Record(c, cloud), checks.value)
  }

  /** The file written back: `"[]"` for a missing report, else the findings. */
  function Written(file: JsonFile, cloud: string): (r: Result<string, PyError>)
    ensures r.Ok? <==> Normalise(file, cloud).Ok?
    ensures r.Ok? ==> r.value == Findings.Written(Normalise(file, cloud).value)
  {
    if file.Missing? then
      Findings.NothingWritten();
      Ok("[]")
    else
      var fs := Normalise(file, cloud);
      if fs.Err? then Err(fs.error) else Ok(Findings.Written(fs.value))
  }
}
