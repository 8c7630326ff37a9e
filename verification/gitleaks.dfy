/**
 The Gitleaks normaliser: one critical finding per reported secret. Gitleaks writes an empty
 file, `null` or a non-list when it finds nothing; each of those normalises to no findings.
 */
module Gitleaks {
  import opened Wrappers
  import Text
  import opened Json
  import Findings

  /** What `path.read_text()` meets: no file, a read failure, bytes that are not text, or the
      text. */
  datatype TextFile = Absent | Unreadable | Undecodable | Contents(text: string)

  const Cwe: Json := JArr([JStr("CWE-798")])
  const Owasp: Json := JArr([JStr("A07:2021 \U{2013} Identification and Authentication Failures")])
  const Fix: Json := JStr("Revoke this credential immediately, rotate it, and remove it from git history.")
  const References: Json := JArr([JStr("https://docs.github.com/en/authentication/keeping-your-account-and-data-secure/removing-sensitive-data-from-a-repository")])

  /** The finding for one reported secret. Each member is a `get` on the entry, which only a
      dict has. */
  function Record(r: Json): (x: Result<Findings.Finding, PyError>)
    ensures x.Ok? <==> r.JObj?
    ensures !r.JObj? ==> x == Err(AttributeError)
    ensures x.Ok? ==> (&& x.value.tool == "gitleaks" && x.value.severity == "critical"
      && x.value.cwe == Cwe && x.value.owasp == Owasp && x.value.wafControl.None? && x.value.cvss.None?)
    ensures x.Ok? ==> (&& x.value.id.JStr? && Text.StartsWith(x.value.id.s, "gitleaks-")
      && x.value.file == GetOr(r.fields, "File", JStr("")) && x.value.line == GetOr(r.fields, "StartLine", JInt(0))
      && x.value.code == GetOr(r.fields, "Match", JStr("")))
    ensures x.Ok? ==> x.value.id == Id(r)
  {
    if !r.JObj? then Err(AttributeError)
    else
      var rule := GetOr(r.fields, "RuleID", JNull);
      Ok(Findings.Finding(
        id := Id(r),
        tool := "gitleaks",
        severity := "critical",
        title := JStr("Secret detected: " + Str(GetOr(r.fields, "Description", GetOr(r.fields, "RuleID", JStr("Secret"))))),
        description := JStr("A secret matching rule '" + Str(rule) + "' was found. Commit: "
                            + Str(GetOr(r.fields, "Commit", JStr("N/A")))),
        file := GetOr(r.fields, "File", JStr("")),
        line := GetOr(r.fields, "StartLine", JInt(0)),
        code := GetOr(r.fields, "Match", JStr("")),
        cwe := Cwe,
        owasp := Owasp,
        wafControl := None,
        fix := Fix,
        references := References,
        cvss := None))
  }

  /** `f"gitleaks-{r.get('RuleID', 'unknown')}"`. */
  function Id(r: Json): (id: Json)
    requires r.JObj?
    ensures id.JStr? && Text.StartsWith(id.s, "gitleaks-")
  {
    JStr("gitleaks-" + Str(GetOr(r.fields, "RuleID", JStr("unknown"))))
  }

  /** The id names the rule: `gitleaks-` followed by the rule id, or by `unknown` without one. */
  lemma IdNamesRule(r: Json)
    requires r.JObj?
    ensures Lookup(r.fields, "RuleID").Some? && Lookup(r.fields, "RuleID").value.JStr? ==>
      Id(r) == JStr("gitleaks-" + Lookup(r.fields, "RuleID").value.s)
    ensures !HasKey(r.fields, "RuleID") ==> Id(r) == JStr("gitleaks-unknown")
  {
    var v := GetOr(r.fields, "RuleID", JStr("unknown"));
    if !HasKey(r.fields, "RuleID") {
      assert v == JStr("unknown");
    }
  }

  /** Text that says there is nothing: empty once stripped, or `null`. */
  predicate NothingFound(text: string) {
    var t := Text.Strip(text);
    t == "" || t == "null"
  }

  /** `normalise`: no findings for a missing file, for text that is empty or `null`, or for a
      document that is not a list; otherwise one finding per entry. `parse` is `json.loads`,
      with the failure where it raises. */
  function Normalise(file: TextFile, parse: string -> Result<Json, ParseFailure>): (r: Result<seq<Findings.Finding>, PyError>)
    ensures file.Absent? || (file.Contents? && NothingFound(file.text)) ==> r == Ok([])
    ensures file.Unreadable? ==> r == Err(OSError)
    ensures file.Undecodable? ==> r == Err(UnicodeDecodeError)
    ensures file.Contents? && !NothingFound(file.text) ==> (
      var doc := parse(Text.Strip(file.text));
      && (doc.Err? ==> r == Err(Raised(doc.error)))
      && (doc.Ok? && !doc.value.JArr? ==> r == Ok([]))
      && (doc.Ok? && doc.value.JArr? ==> (
        && (r.Ok? <==> forall k :: 0 <= k < |doc.value.items| ==> doc.value.items[k].JObj?)
        && (r.Ok? ==> (&& |r.value| == |doc.value.items|
              && forall k :: 0 <= k < |r.value| ==> Ok(r.value[k]) == Record(doc.value.items[k]))))))
    ensures r.Ok? ==> forall k :: 0 <= k < |r.value| ==> r.value[k].tool == "gitleaks" && r.value[k].severity == "critical"
  {
    match file
    case Absent => Ok([])
    case Unreadable => Err(OSError)
    case Undecodable => Err(UnicodeDecodeError)
    case Contents(text) =>
      if NothingFound(text) then Ok([])
      else FromDocument(parse(Text.Strip(text)))
  }

  /** What `normalise` makes of `json.loads`' outcome: its exception, no findings for a
      non-list, and one finding per entry of a list. */
  function FromDocument(doc: Result<Json, ParseFailure>): (r: Result<seq<Findings.Finding>, PyError>)
    ensures doc.Err? ==> r == Err(Raised(doc.error))
    ensures doc.Ok? && !doc.value.JArr? ==> r == Ok([])
    ensures doc.Ok? && doc.value.JArr? ==> (
      && (r.Ok? <==> forall k :: 0 <= k < |doc.value.items| ==> doc.value.items[k].JObj?)
      && (r.Ok? ==> (&& |r.value| == |doc.value.items|
            && forall k :: 0 <= k < |r.value| ==> Ok(r.value[k]) == Record(doc.value.items[k]))))
    ensures r.Ok? ==> forall k :: 0 <= k < |r.value| ==> r.value[k].tool == "gitleaks" && r.value[k].severity == "critical"
  {
    match doc
    case Err(why) => Err(Raised(why))
    case Ok(raw) => if raw.JArr? then MapAll(Record, raw.items) else Ok([])
  }

  /** Whitespace around `null` is stripped before the comparison. */
  lemma NullWithNewline(parse: string -> Result<Json, ParseFailure>)
    ensures Normalise(Contents(" null\n"), parse) == Ok([])
  {
    SpacedNull();
  }

  lemma SpacedNull()
    ensures NothingFound(" null\n")
  {
    SpacedNullL();
    SpacedNullR();
    assert Text.Strip(" null\n") == "null";
  }

  lemma SpacedNullL()
    ensures Text.LStrip(" null\n") == "null\n"
  {
    var t := " null\n";
    assert !Text.IsSpace('n');
    assert Text.LStrip(t[1..]) == t[1..];
    assert t[1..] == "null\n";
  }

  lemma SpacedNullR()
    ensures Text.RStrip("null\n") == "null"
  {
    assert "null\n"[..4] == "null";
  }

  /** The file written back: `"[]"` where nothing was found, else the findings. */
  function Written(file: TextFile, parse: string -> Result<Json, ParseFailure>): (r: Result<string, PyError>)
    ensures r.Ok? <==> Normalise(file, parse).Ok?
    ensures r.Ok? ==> r.value == Findings.Written(Normalise(file, parse).value)
  {
    var fs := Normalise(file, parse);
    if fs.Err? then Err(fs.error)
    else if fs.value == [] then
      Findings.NothingWritten();
      Ok("[]")
    else Ok(Findings.Written(fs.value))
  }
}
