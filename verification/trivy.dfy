/**
 The Trivy normaliser: one unified finding per vulnerability of every scanned target, ordered by
 target and then by vulnerability, tagged with the kind of scan.
 */
module Trivy {
  import opened Wrappers
  import Text
  import opened Json
  import Findings

  /** `SEVERITY_MAP.get(raw.upper(), "low")`; `UNKNOWN` and any other name give low. */
  function SeverityFor(raw: string): (r: string)
    ensures r in Findings.Severities
  {
    var up := Text.Upper(raw);
    if up == "CRITICAL" then "critical"
    else if up == "HIGH" then "high"
    else if up == "MEDIUM" then "medium"
    else "low"
  }

  /** The table, with case ignored: CRITICAL, HIGH, MEDIUM and LOW in any ASCII case give their
      own severity; UNKNOWN, and anything that upper-cases to none of the four, gives low. */
  lemma SeverityIgnoresCase(raw: string)
    ensures Text.EqualsIgnoringCase(raw, "CRITICAL") ==> SeverityFor(raw) == "critical"
    ensures Text.EqualsIgnoringCase(raw, "HIGH") ==> SeverityFor(raw) == "high"
    ensures Text.EqualsIgnoringCase(raw, "MEDIUM") ==> SeverityFor(raw) == "medium"
    ensures Text.EqualsIgnoringCase(raw, "LOW") ==> SeverityFor(raw) == "low"
    ensures Text.EqualsIgnoringCase(raw, "UNKNOWN") ==> SeverityFor(raw) == "low"
    ensures Text.Upper(raw) !in {"CRITICAL", "HIGH", "MEDIUM", "LOW"} ==> SeverityFor(raw) == "low"
  {
    if Text.EqualsIgnoringCase(raw, "CRITICAL") { Text.UpperOfVariant(raw, "CRITICAL"); }
    if Text.EqualsIgnoringCase(raw, "HIGH") { Text.UpperOfVariant(raw, "HIGH"); }
    if Text.EqualsIgnoringCase(raw, "MEDIUM") { Text.UpperOfVariant(raw, "MEDIUM"); }
    if Text.EqualsIgnoringCase(raw, "LOW") { Text.UpperOfVariant(raw, "LOW"); }
    if Text.EqualsIgnoringCase(raw, "UNKNOWN") { Text.UpperOfVariant(raw, "UNKNOWN"); }
  }

  /** The scan type argument, `sca` when it is not given. */
  function ScanType(arg: Option<string>): string {
    arg.GetOr("sca")
  }

  /** `vuln.get("Severity", "UNKNOWN").upper()` and the mapping: a vulnerability that is not a
      dict has no `get`, a severity that is not a string no `upper`. */
  function Severity(v: Json): (r: Result<string, PyError>)
    ensures r.Ok? <==> v.JObj? && GetOr(v.fields, "Severity", JStr("UNKNOWN")).JStr?
    ensures r.Err? ==> r.error == AttributeError
    ensures r.Ok? ==> r.value == SeverityFor(GetOr(v.fields, "Severity", JStr("UNKNOWN")).s)
    ensures v.JObj? && Lookup(v.fields, "Severity").Some? && Lookup(v.fields, "Severity").value.JStr? ==>
      r == Ok(SeverityFor(Lookup(v.fields, "Severity").value.s))
  {
    var sev := Get(v, "Severity", JStr("UNKNOWN"));
    if sev.Err? then Err(sev.error)
    else if !sev.value.JStr? then Err(AttributeError)
    else Ok(SeverityFor(sev.value.s))
  }

  /** A vulnerability without a severity counts as low. */
  lemma MissingSeverityIsLow(v: Json)
    requires v.JObj? && !HasKey(v.fields, "Severity")
    ensures Severity(v) == Ok("low")
  {
    Text.UpperOfCapitals("UNKNOWN");
    assert SeverityFor("UNKNOWN") == "low";
    assert Get(v, "Severity", JStr("UNKNOWN")) == Ok(JStr("UNKNOWN"));
  }

  /** The finding for one vulnerability of the target `target`. The severity is read first;
      then `vuln.get("References", [])[:3]`, which only a list or a string allows (`TypeError`). */
  function Record(scanType: string, target: Json, v: Json): (r: Result<Findings.Finding, PyError>)
    ensures r.Ok? <==> (Severity(v).Ok? && Prefix(GetOr(v.fields, "References", JArr([])), 3).Ok?)
    ensures r.Ok? ==> (&& r.value.tool == "trivy-" + scanType && Ok(r.value.severity) == Severity(v)
      && r.value.id == GetOr(v.fields, "VulnerabilityID", JStr("unknown"))
      && r.value.file == target && r.value.line == JInt(0)
      && r.value.cvss == Some(GetOr(v.fields, "CVSS", JObj([]))))
    ensures r.Ok? ==> ((r.value.references.JArr? && |r.value.references.items| <= 3)
      || (r.value.references.JStr? && |r.value.references.s| <= 3))
  {
    var sev := Severity(v);
    if sev.Err? then Err(sev.error)
    else
      var refs := Prefix(GetOr(v.fields, "References", JArr([])), 3);
      if refs.Err? then Err(refs.error)
      else
        var pkg := Str(GetOr(v.fields, "PkgName", JNull));
        Ok(Findings.Finding(
          id := GetOr(v.fields, "VulnerabilityID", JStr("unknown")),
          tool := "trivy-" + scanType,
          severity := sev.value,
          title := JStr(Str(GetOr(v.fields, "VulnerabilityID", JNull)) + " in "
                        + Str(GetOr(v.fields, "PkgName", JStr("unknown")))),
          description := GetOr(v.fields, "Description", JStr("")),
          file := target,
          line := JInt(0),
          code := JStr("Package: " + pkg + " @ " + Str(GetOr(v.fields, "InstalledVersion", JNull))
                       + " (fixed in " + Str(GetOr(v.fields, "FixedVersion", JStr("no fix available"))) + ")"),
          cwe := GetOr(v.fields, "CweIDs", JArr([])),
          owasp := JArr([]),
          wafControl := None,
          fix := JStr("Upgrade " + pkg + " to " + Str(GetOr(v.fields, "FixedVersion", JStr("latest")))),
          references := refs.value,
          cvss := Some(GetOr(v.fields, "CVSS", JObj([])))))
  }

  /** `result.get("Vulnerabilities", [])`, iterated; only a dict has `get`. */
  function Vulnerabilities(result: Json): (r: Result<seq<Json>, PyError>)
    ensures !result.JObj? ==> r == Err(AttributeError)
    ensures result.JObj? && !HasKey(result.fields, "Vulnerabilities") ==> r == Ok([])
  {
    var vulns := Get(result, "Vulnerabilities", JArr([]));
    if vulns.Err? then Err(vulns.error) else Iterate(vulns.value)
  }

  /** The findings of one entry of `Results`: `Target` (default `""`) is read first, then one
      finding per vulnerability, in order. */
  function ResultFindings(scanType: string, result: Json): (r: Result<seq<Findings.Finding>, PyError>)
    ensures r.Ok? <==> (Vulnerabilities(result).Ok?
      && forall k :: 0 <= k < |Vulnerabilities(result).value| ==>
        Record(scanType, GetOr(result.fields, "Target", JStr("")), Vulnerabilities(result).value[k]).Ok?)
    ensures r.Ok? ==> (&& |r.value| == |Vulnerabilities(result).value|
      && forall k :: 0 <= k < |r.value| ==>
        Ok(r.value[k]) == Record(scanType, GetOr(result.fields, "Target", JStr("")), Vulnerabilities(result).value[k]))
  {
    var target := Get(result, "Target", JStr(""));
    if target.Err? then Err(target.error)
    else
      var vulns := Vulnerabilities(result);
      if vulns.Err? then Err(vulns.error)
      else MapAll((v: Json) => Record(scanType, target.value, v), vulns.value)
  }

  /** `raw.get("Results", [])`, iterated. */
  function Results(raw: Json): (r: Result<seq<Json>, PyError>)
    ensures !raw.JObj? ==> r == Err(AttributeError)
    ensures raw.JObj? && !HasKey(raw.fields, "Results") ==> r == Ok([])
  {
    var results := Get(raw, "Results", JArr([]));
    if results.Err? then Err(results.error) else Iterate(results.value)
  }

  /** The findings of every entry of `Results`, one list per entry. */
  function PerResult(scanType: string, file: JsonFile): (r: Result<seq<seq<Findings.Finding>>, PyError>)
    requires !file.Missing?
    ensures r.Ok? ==> (&& file.Parsed? && Results(file.doc).Ok?
      && |r.value| == |Results(file.doc).value|
      && forall i :: 0 <= i < |r.value| ==> Ok(r.value[i]) == ResultFindings(scanType, Results(file.doc).value[i]))
  {
    var raw := Load(file);
    if raw.Err? then Err(raw.error)
    else
      var results := Results(raw.value);
      if results.Err? then Err(results.error)
      else MapAll((result: Json) => ResultFindings(scanType, result), results.value)
  }

  /** `normalise`: the findings of the nested loops, none for a missing report. */
  function Normalise(file: JsonFile, scanType: string): (r: Result<seq<Findings.Finding>, PyError>)
    ensures file.Missing? ==> r == Ok([])
    ensures !file.Missing? ==> (r.Ok? <==> PerResult(scanType, file).Ok?)
    ensures r.Ok? && !file.Missing? ==> r.value == Concat(PerResult(scanType, file).value)
  {
    if file.Missing? then Ok([])
    else
      var lists := PerResult(scanType, file);
      if lists.Err? then Err(lists.error) else Ok(Concat(lists.value))
  }

  lemma {:induction false} ConcatTools(xss: seq<seq<Findings.Finding>>, tool: string)
    requires forall i, k :: 0 <= i < |xss| && 0 <= k < |xss[i]| ==> xss[i][k].tool == tool
    ensures forall k :: 0 <= k < |Concat(xss)| ==> Concat(xss)[k].tool == tool
  {
    if |xss| > 0 {
      ConcatTools(xss[..|xss| - 1], tool);
    }
  }

  /** Every finding is tagged with the scan type. */
  lemma ToolIsScanType(file: JsonFile, scanType: string)
    requires Normalise(file, scanType).Ok?
    ensures forall k :: 0 <= k < |Normalise(file, scanType).value| ==>
      Normalise(file, scanType).value[k].tool == "trivy-" + scanType
  {
    if !file.Missing? {
      var results := Results(file.doc).value;
      var lists: seq<seq<Findings.Finding>> := PerResult(scanType, file).value;
      forall i: nat, k: nat | i < |lists| && k < |lists[i]| ensures lists[i][k].tool == "trivy-" + scanType {
        assert Ok(lists[i]) == ResultFindings(scanType, results[i]);
      }
      ConcatTools(lists, "trivy-" + scanType);
    }
  }

  /** The vulnerabilities of each entry of `Results`, for entries that have them. */
  function VulnLists(results: seq<Json>): (r: seq<seq<Json>>)
    ensures |r| == |results|
  {
    seq(|results|, n requires 0 <= n < |results| => (var v := Vulnerabilities(results[n]); if v.Ok? then v.value else []))
  }

  /** The per-entry lists of findings have the shape of the per-entry lists of vulnerabilities. */
  lemma FindingsShapedLikeVulnerabilities(file: JsonFile, scanType: string)
    requires !file.Missing? && PerResult(scanType, file).Ok?
    ensures var lists := PerResult(scanType, file).value;
      var vulns := VulnLists(Results(file.doc).value);
      && |lists| == |vulns|
      && forall n :: 0 <= n < |lists| ==> |lists[n]| == |vulns[n]|
  {
    var results := Results(file.doc).value;
    var lists := PerResult(scanType, file).value;
    forall n | 0 <= n < |lists| ensures |lists[n]| == |VulnLists(results)[n]| {
      assert Ok(lists[n]) == ResultFindings(scanType, results[n]);
    }
  }

  /** One finding per vulnerability: as many findings as there are vulnerabilities in all the
      targets. */
  lemma OneFindingPerVulnerability(file: JsonFile, scanType: string)
    requires file.Parsed? && Normalise(file, scanType).Ok?
    ensures |Normalise(file, scanType).value| == TotalLength(VulnLists(Results(file.doc).value))
  {
    FindingsShapedLikeVulnerabilities(file, scanType);
    ConcatShaped(PerResult(scanType, file).value, VulnLists(Results(file.doc).value), 0, 0);
  }

  /** Vulnerability `j` of target `i` is found after every vulnerability of the targets before
      it, with that target's name as its file. */
  lemma FindingsInTargetOrder(file: JsonFile, scanType: string, i: nat, j: nat)
    requires file.Parsed? && Normalise(file, scanType).Ok?
    requires i < |Results(file.doc).value| && j < |VulnLists(Results(file.doc).value)[i]|
    ensures var results := Results(file.doc).value;
      var vulns := VulnLists(results);
      && TotalLength(vulns[..i]) + j < |Normalise(file, scanType).value|
      && Ok(Normalise(file, scanType).value[TotalLength(vulns[..i]) + j])
        == Record(scanType, GetOr(results[i].fields, "Target", JStr("")), vulns[i][j])
  {
    var results := Results(file.doc).value;
    var lists := PerResult(scanType, file).value;
    FindingAtPosition(file, scanType, i, j);
    assert Ok(lists[i]) == ResultFindings(scanType, results[i]);
    RecordAt(scanType, results[i], lists[i], j);
  }

  /** The finding at the nested-loop position of vulnerability `j` of target `i` is item `j` of
      that target's list. */
  lemma FindingAtPosition(file: JsonFile, scanType: string, i: nat, j: nat)
    requires file.Parsed? && Normalise(file, scanType).Ok?
    requires i < |Results(file.doc).value| && j < |VulnLists(Results(file.doc).value)[i]|
    ensures var vulns := VulnLists(Results(file.doc).value);
      var lists := PerResult(scanType, file).value;
      && i < |lists| && j < |lists[i]|
      && TotalLength(vulns[..i]) + j < |Normalise(file, scanType).value|
      && Normalise(file, scanType).value[TotalLength(vulns[..i]) + j] == lists[i][j]
  {
    var lists := PerResult(scanType, file).value;
    FindingsShapedLikeVulnerabilities(file, scanType);
    ConcatShaped(lists, VulnLists(Results(file.doc).value), i, j);
  }

  /** Item `j` of an entry's findings is the record of its vulnerability `j`. */
  lemma RecordAt(scanType: string, result: Json, fs: seq<Findings.Finding>, j: nat)
    requires Ok(fs) == ResultFindings(scanType, result) && j < |fs|
    ensures Vulnerabilities(result).Ok? && j < |Vulnerabilities(result).value|
    ensures Ok(fs[j]) == Record(scanType, GetOr(result.fields, "Target", JStr("")), Vulnerabilities(result).value[j])
  {
  }

  /** The file written back: `"[]"` for a missing report, else the findings. */
  function Written(file: JsonFile, scanType: string): (r: Result<string, PyError>)
    ensures r.Ok? <==> Normalise(file, scanType).Ok?
    ensures r.Ok? ==> r.value == Findings.Written(Normalise(file, scanType).value)
  {
    if file.Missing? then
      Findings.NothingWritten();
      Ok("[]")
    else
      var fs := Normalise(file, scanType);
      if fs.Err? then Err(fs.error) else Ok(Findings.Written(fs.value))
  }
}
