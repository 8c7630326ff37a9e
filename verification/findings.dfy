/**
 The unified finding that every scanner normaliser writes and every reporter reads: one JSON
 object per finding, with `id`, `tool` and `severity` as its first three members. The severity is
 always one of the four names below.
 */
module Findings {
  import opened Wrappers
  import opened Json
  import Text
  import JsonText

  /** The severities, most severe first. */
  const Severities: seq<string> := ["critical", "high", "medium", "low"]

  /** The members of a unified finding. Only the Checkov normaliser writes `waf_control`
      (between `owasp` and `fix`), and only the Trivy normaliser writes `cvss` (last). */
  datatype Finding = Finding(
    id: Json, tool: string, severity: string, title: Json, description: Json, file: Json,
    line: Json, code: Json, cwe: Json, owasp: Json, wafControl: Option<string>, fix: Json,
    references: Json, cvss: Option<Json>)

  /** The object a finding is written as, members in the order the normalisers list them. */
  function Fields(f: Finding): seq<(string, Json)> {
    Leading(f) + Trailing(f)
  }

  /** The members from the optional `waf_control` on. */
  function Trailing(f: Finding): seq<(string, Json)> {
    (if f.wafControl.Some? then [("waf_control", JStr(f.wafControl.value))] else [])
    + [("fix", f.fix), ("references", f.references)]
    + (if f.cvss.Some? then [("cvss", f.cvss.value)] else [])
  }

  /** The members every finding has before the optional `waf_control`. */
  function Leading(f: Finding): seq<(string, Json)> {
    [("id", f.id), ("tool", JStr(f.tool)), ("severity", JStr(f.severity)), ("title", f.title),
     ("description", f.description), ("file", f.file), ("line", f.line), ("code", f.code),
     ("cwe", f.cwe), ("owasp", f.owasp)]
  }

  function ToJson(f: Finding): Json {
    JObj(Fields(f))
  }

  function AllToJson(fs: seq<Finding>): (r: seq<Json>)
    ensures |r| == |fs|
    ensures forall k :: 0 <= k < |fs| ==> r[k] == ToJson(fs[k])
  {
    seq(|fs|, k requires 0 <= k < |fs| => ToJson(fs[k]))
  }

  /** A reporter reading a written finding gets back its id. */
  lemma IdReadBack(f: Finding)
    ensures Lookup(Fields(f), "id") == Some(f.id)
  {
    LeadingAt(f, "id", 0);
  }

  /** A reporter reading a written finding gets back its tool. */
  lemma ToolReadBack(f: Finding)
    ensures Lookup(Fields(f), "tool") == Some(JStr(f.tool))
  {
    LeadingAt(f, "tool", 1);
  }

  /** A reporter reading a written finding gets back its severity. */
  lemma SeverityReadBack(f: Finding)
    ensures Lookup(Fields(f), "severity") == Some(JStr(f.severity))
  {
    LeadingAt(f, "severity", 2);
  }

  /** A member among the first three is what its key looks up. */
  lemma LeadingAt(f: Finding, key: string, n: nat)
    requires n < 3 && Leading(f)[n].0 == key
    requires forall j :: 0 <= j < n ==> Leading(f)[j].0 != key
    ensures Lookup(Fields(f), key) == Some(Leading(f)[n].1)
  {
    var fs := Fields(f);
    assert forall j :: 0 <= j <= n ==> fs[j] == Leading(f)[j];
    LookupFirstAt(fs, key, n);
  }

  /** `json.loads(path.read_text()) if path.exists() else []` followed by `for f in findings`:
      the values the loop visits. A value that cannot be iterated raises `TypeError`. */
  function Read(file: JsonFile): (r: Result<seq<Json>, PyError>)
    ensures file.Missing? ==> r == Ok([])
    ensures file.Parsed? && file.doc.JArr? ==> r == Ok(file.doc.items)
    ensures r.Ok? ==> file.Missing? || file.Parsed?
  {
    if file.Missing? then Ok([])
    else
      match Load(file)
      case Err(e) => Err(e)
      case Ok(doc) => Iterate(doc)
  }

  /** `json.dumps(findings, indent=2)`: the text a normaliser writes. */
  function Written(fs: seq<Finding>): (r: string)
    ensures Text.IsAscii(r)
  {
    JsonText.Dumps(JsonText.Pretty, JArr(AllToJson(fs)))
  }

  /** With nothing to normalise, the `"[]"` a normaliser writes directly is what it would have
      written for an empty list. */
  lemma NothingWritten()
    ensures Written([]) == "[]"
  {
  }
}

