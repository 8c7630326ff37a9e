/**
 The Semgrep normaliser: one unified finding per entry of the report's `results`, in order, with
 Semgrep's severity names mapped to the four severities regardless of case.
 */
module Semgrep {
  import opened Wrappers
  import Text
  import opened Json
  import Findings

  /** `SEVERITY_MAP.get(raw.upper(), "low")`. */
  function SeverityFor(raw: string): (r: string)
    ensures r in Findings.Severities
  {
    var up := Text.Upper(raw);
    if up == "ERROR" then "critical"
    else if up == "WARNING" then "high"
    else if up == "INFO" then "medium"
    else "low"
  }

  /** The table, with case ignored: ERROR, WARNING, INFO and HINT in any ASCII case give critical,
      high, medium and low; a severity that upper-cases to none of them gives low. */
  lemma SeverityIgnoresCase(raw: string)
    ensures Text.EqualsIgnoringCase(raw, "ERROR") ==> SeverityFor(raw) == "critical"
    ensures Text.EqualsIgnoringCase(raw, "WARNING") ==> SeverityFor(raw) == "high"
    ensures Text.EqualsIgnoringCase(raw, "INFO") ==> SeverityFor(raw) == "medium"
    ensures Text.EqualsIgnoringCase(raw, "HINT") ==> SeverityFor(raw) == "low"
    ensures Text.Upper(raw) !in {"ERROR", "WARNING", "INFO"} ==> SeverityFor(raw) == "low"
  {
    if Text.EqualsIgnoringCase(raw, "ERROR") { Text.UpperOfVariant(raw, "ERROR"); }
    if Text.EqualsIgnoringCase(raw, "WARNING") { Text.UpperOfVariant(raw, "WARNING"); }
    if Text.EqualsIgnoringCase(raw, "INFO") { Text.UpperOfVariant(raw, "INFO"); }
    if Text.EqualsIgnoringCase(raw, "HINT") { Text.UpperOfVariant(raw, "HINT"); }
  }

  /** Only the ASCII-case variants of ERROR are critical. */
  lemma OnlyErrorIsCritical(raw: string)
    ensures SeverityFor(raw) == "critical" <==> Text.EqualsIgnoringCase(raw, "ERROR")
  {
    if SeverityFor(raw) == "critical" {
      Text.UpperIsVariant(raw, "ERROR");
    }
    SeverityIgnoresCase(raw);
  }

  /** `r.get("extra", {}).get("severity", "INFO").upper()` and the mapping: a result or an
      `extra` that is not a dict has no `get`, a severity that is not a string no `upper`. */
  function Severity(r: Json): (x: Result<string, PyError>)
    ensures x.Ok? <==> (&& r.JObj? && GetOr(r.fields, "extra", JObj([])).JObj?
      && GetOr(GetOr(r.fields, "extra", JObj([])).fields, "severity", JStr("INFO")).JStr?)
    ensures x.Err? ==> x.error == AttributeError
  {
    var extra := Get(r, "extra", JObj([]));
    if extra.Err? then Err(extra.error)
    else
      var sev := Get(extra.value, "severity", JStr("INFO"));
      if sev.Err? then Err(sev.error)
      else if !sev.value.JStr? then Err(AttributeError)
      else Ok(SeverityFor(sev.value.s))
  }

  /** A result without a severity counts as medium, whether `extra` is missing or lacks it. */
  lemma MissingSeverityIsMedium(r: Json)
    requires r.JObj? && GetOr(r.fields, "extra", JObj([])).JObj?
    requires !HasKey(GetOr(r.fields, "extra", JObj([])).fields, "severity")
    ensures Severity(r) == Ok("medium")
  {
    Text.UpperOfVariant("INFO", "INFO");
  }

  /** The finding for one entry of `results`. Every lookup in it is a `get` on a dict the
      report may not have: on `r`, `extra`, `start` and `extra.metadata`. */
  function Record(r: Json): (x: Result<Findings.Finding, PyError>)
    ensures x.Ok? <==> (Severity(r).Ok?
      && Get(r, "start", JObj([])).value.JObj? && GetOr(r.fields, "extra", JObj([])).JObj?
      && GetOr(GetOr(r.fields, "extra", JObj([])).fields, "metadata", JObj([])).JObj?)
    ensures x.Err? ==> x.error == AttributeError
    ensures x.Ok? ==> (&& x.value.tool == "semgrep" && Ok(x.value.severity) == Severity(r)
      && x.value.id == GetOr(r.fields, "check_id", JStr("unknown"))
      && x.value.title == GetOr(r.fields, "check_id", JStr("Semgrep finding"))
      && x.value.line == GetOr(GetOr(r.fields, "start", JObj([])).fields, "line", JInt(0))
      && x.value.file == GetOr(r.fields, "path", JStr("")))
    ensures x.Ok? ==> x.value.wafControl.None? && x.value.cvss.None?
  {
    var sev := Severity(r);
    if sev.Err? then Err(sev.error)
    else
      var extra := GetOr(r.fields, "extra", JObj([]));
      var start := GetOr(r.fields, "start", JObj([]));
      if !start.JObj? then Err(AttributeError)
      else
        var metadata := GetOr(extra.fields, "metadata", JObj([]));
        if !metadata.JObj? then Err(AttributeError)
        else
          Ok(Findings.Finding(
            id := GetOr(r.fields, "check_id", JStr("unknown")),
            tool := "semgrep",
            severity := sev.value,
            title := GetOr(r.fields, "check_id", JStr("Semgrep finding")),
            description := GetOr(extra.fields, "message", JStr("")),
            file := GetOr(r.fields, "path", JStr("")),
            line := GetOr(start.fields, "line", JInt(0)),
            code := GetOr(extra.fields, "lines", JStr("")),
            cwe := GetOr(metadata.fields, "cwe", JArr([])),
            owasp := GetOr(metadata.fields, "owasp", JArr([])),
            wafControl := None,
            fix := GetOr(extra.fields, "fix", JStr("")),
            references := GetOr(metadata.fields, "references", JArr([])),
            cvss := None))
  }

  /** `raw.get("results", [])`, iterated: a report that is not a dict has no `get`, and results
      that cannot be iterated raise `TypeError`. */
  function Results(raw: Json): (r: Result<seq<Json>, PyError>)
    ensures raw.JObj? && !HasKey(raw.fields, "results") ==> r == Ok([])
    ensures raw.JObj? && Lookup(raw.fields, "results").Some? && Lookup(raw.fields, "results").value.JArr? ==>
      r == Ok(Lookup(raw.fields, "results").value.items)
    ensures !raw.JObj? ==> r == Err(AttributeError)
  {
    var results := Get(raw, "results", JArr([]));
    if results.Err? then Err(results.error) else Iterate(results.value)
  }

  /** `normalise`: the findings, none for a missing report. */
  function Normalise(file: JsonFile): (r: Result<seq<Findings.Finding>, PyError>)
    ensures file.Missing? ==> r == Ok([])
    ensures r.Ok? <==> (file.Missing? || (file.Parsed? && Results(file.doc).Ok?
      && forall k :: 0 <= k < |Results(file.doc).value| ==> Record(Results(file.doc).value[k]).Ok?))
    ensures r.Ok? && file.Parsed? ==> (var results := Results(file.doc).value;
      && |r.value| == |results|
      && forall k :: 0 <= k < |results| ==> Ok(r.value[k]) == Record(results[k]))
    ensures r.Ok? ==> forall k :: 0 <= k < |r.value| ==> r.value[k].tool == "semgrep"
  {
    if file.Missing? then Ok([])
    else
      var raw := Load(file);
      if raw.Err? then Err(raw.error)
      else
        var results := Results(raw.value);
        if results.Err? then Err(results.error) else MapAll(Record, results.value)
  }

  /** The file written back: `"[]"` for a missing report, else the findings. */
  function Written(file: JsonFile): (r: Result<string, PyError>)
    ensures r.Ok? <==> Normalise(file).Ok?
    ensures r.Ok? ==> r.value == Findings.Written(Normalise(file).value)
  {
    if file.Missing? then
      Findings.NothingWritten();
      Ok("[]")
    else
      var fs := Normalise(file);
      if fs.Err? then Err(fs.error) else Ok(Findings.Written(fs.value))
  }
}
