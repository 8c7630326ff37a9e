/**
 The SARIF 2.1.0 reporter: findings grouped into one run per tool, in the order the tools first
 appear; in each run one rule per distinct finding id, defined by the first finding with that id,
 and one result per finding, in order, located at a line that is at least 1 (section 3.30.5 of
 SARIF 2.1.0) in a file whose path has no leading `/`.
 */
module Sarif {
  import opened Wrappers
  import Text
  import opened Json
  import JsonText
  import Findings
  import Dedup

  type Fields = seq<(string, Json)>

  /** `SEVERITY_SARIF.get(sev, "note")`. Looking up a list or a dict raises `TypeError`. */
  function Level(sev: Json): (r: Result<string, PyError>)
    ensures r.Ok? <==> Hashable(sev)
    ensures r.Err? ==> r.error == TypeError
  {
    if !Hashable(sev) then Err(TypeError)
    else if sev == JStr("critical") || sev == JStr("high") then Ok("error")
    else if sev == JStr("medium") then Ok("warning")
    else Ok("note")
  }

  /** The `security-severity` table, looked up the same way, `2.0` for any other severity. */
  function SecuritySeverity(sev: Json): (r: Result<string, PyError>)
    ensures r.Ok? <==> Hashable(sev)
    ensures r.Err? ==> r.error == TypeError
  {
    if !Hashable(sev) then Err(TypeError)
    else if sev == JStr("critical") then Ok("9.5")
    else if sev == JStr("high") then Ok("7.5")
    else if sev == JStr("medium") then Ok("5.0")
    else Ok("2.0")
  }

  /** The two tables: critical and high are errors, medium a warning, anything else a note; the
      security severity is 9.5, 7.5, 5.0, and 2.0 for low and anything else. */
  lemma SeverityTables(sev: Json)
    requires Hashable(sev)
    ensures Level(JStr("critical")) == Ok("error") && SecuritySeverity(JStr("critical")) == Ok("9.5")
    ensures Level(JStr("high")) == Ok("error") && SecuritySeverity(JStr("high")) == Ok("7.5")
    ensures Level(JStr("medium")) == Ok("warning") && SecuritySeverity(JStr("medium")) == Ok("5.0")
    ensures Level(JStr("low")) == Ok("note") && SecuritySeverity(JStr("low")) == Ok("2.0")
    ensures !sev.JStr? || sev.s !in Findings.Severities ==> Level(sev) == Ok("note") && SecuritySeverity(sev) == Ok("2.0")
  {
  }

  /** The level and the security severity agree: an error is rated 7.5 or more, a warning 5.0 and
      a note 2.0. */
  lemma LevelMatchesSecuritySeverity(sev: Json)
    requires Hashable(sev)
    ensures Level(sev).value == "error" <==> SecuritySeverity(sev).value in {"9.5", "7.5"}
    ensures Level(sev).value == "warning" <==> SecuritySeverity(sev).value == "5.0"
    ensures Level(sev).value == "note" <==> SecuritySeverity(sev).value == "2.0"
  {
  }

  /** `f.get("severity", "low")`. */
  function SeverityIn(f: Fields): Json {
    GetOr(f, "severity", JStr("low"))
  }

  /** `f.get("description", f.get("title", ""))`. */
  function DescriptionIn(f: Fields): Json {
    GetOr(f, "description", GetOr(f, "title", JStr("")))
  }

  /** One entry of a run's `rules`. The name and the short description are the same value. */
  datatype Rule = Rule(id: Json, title: Json, description: Json, helpUri: Json, level: string,
                       tags: Json, securitySeverity: string)

  /** `f.get("references", [""])[0] if f.get("references") else ""`: the first reference when
      there are any, `""` otherwise. */
  function HelpUri(f: Fields): (r: Result<Json, PyError>)
    ensures !Truthy(GetOr(f, "references", JNull)) ==> r == Ok(JStr(""))
    ensures (var refs := GetOr(f, "references", JNull); refs.JArr? && |refs.items| > 0 ==> r == Ok(refs.items[0]))
  {
    if Truthy(GetOr(f, "references", JNull)) then First(GetOr(f, "references", JArr([JStr("")]))) else Ok(JStr(""))
  }

  /** The rule the first finding with id `id` defines. Its members are computed in the order
      written, so the first failure among the help URI, the level and the tags is the one raised. */
  function MakeRule(f: Fields, id: Json): (r: Result<Rule, PyError>)
    ensures r.Ok? <==> (HelpUri(f).Ok? && Hashable(SeverityIn(f))
      && Addable(GetOr(f, "cwe", JArr([])), GetOr(f, "owasp", JArr([]))))
    ensures r.Ok? ==> (&& r.value.id == id && r.value.title == GetOr(f, "title", id)
      && r.value.description == DescriptionIn(f) && r.value.helpUri == HelpUri(f).value
      && Ok(r.value.level) == Level(SeverityIn(f)) && Ok(r.value.securitySeverity) == SecuritySeverity(SeverityIn(f)))
    ensures r.Ok? ==> Ok(r.value.tags) == Add(GetOr(f, "cwe", JArr([])), GetOr(f, "owasp", JArr([])))
  {
    var help := HelpUri(f);
    var level := Level(SeverityIn(f));
    var tags := Add(GetOr(f, "cwe", JArr([])), GetOr(f, "owasp", JArr([])));
    if help.Err? then Err(help.error)
    else if level.Err? then Err(level.error)
    else if tags.Err? then Err(tags.error)
    else
      var secsev := SecuritySeverity(SeverityIn(f));
      Ok(Rule(id, GetOr(f, "title", id), DescriptionIn(f), help.value, level.value, tags.value, secsev.value))
  }

  /** `max(1, line)`: the line when it is greater than 1, else 1. A boolean compares as 0 or 1 and
      gives 1; any other value cannot be compared with an integer and raises `TypeError`. */
  function StartLine(line: Json): (r: Result<int, PyError>)
    ensures r.Ok? <==> line.JInt? || line.JBool?
    ensures r.Ok? ==> r.value >= 1
    ensures line.JInt? && line.i >= 1 ==> r == Ok(line.i)
    ensures r.Err? ==> r.error == TypeError
  {
    match line
    case JInt(i) => Ok(if i > 1 then i else 1)
    case JBool(_) => Ok(1)
    case _ => Err(TypeError)
  }

  /** One entry of a run's `results`. */
  datatype SarifResult = SarifResult(ruleId: Json, level: string, message: Json, uri: string,
                                     startLine: int, snippet: Json, severity: Json, tool: Json)

  /** The result for one finding. The line is computed first; then, in the order written, the
      level, the path (`file_path.lstrip("/")`, which only a string has: `AttributeError`) and the
      snippet (`f.get("code", "")[:200]`). */
  function MakeResult(f: Fields, id: Json, tool: Json): (r: Result<SarifResult, PyError>)
    ensures r.Ok? <==> (StartLine(GetOr(f, "line", JInt(1))).Ok? && Hashable(SeverityIn(f))
      && GetOr(f, "file", JStr("")).JStr? && Prefix(GetOr(f, "code", JStr("")), 200).Ok?)
    ensures r.Ok? ==> (&& r.value.ruleId == id && r.value.tool == tool && r.value.severity == SeverityIn(f)
      && Ok(r.value.level) == Level(SeverityIn(f)) && r.value.message == DescriptionIn(f))
    ensures r.Ok? ==> r.value.startLine >= 1 && Ok(r.value.startLine) == StartLine(GetOr(f, "line", JInt(1)))
    ensures r.Ok? ==> (var path := GetOr(f, "file", JStr("")).s;
      && |r.value.uri| <= |path| && r.value.uri == path[|path| - |r.value.uri|..]
      && (|r.value.uri| > 0 ==> r.value.uri[0] != '/')
      && forall k :: 0 <= k < |path| - |r.value.uri| ==> path[k] == '/')
    ensures r.Ok? ==> Ok(r.value.snippet) == Prefix(GetOr(f, "code", JStr("")), 200)
  {
    var line := StartLine(GetOr(f, "line", JInt(1)));
    var level := Level(SeverityIn(f));
    var file := GetOr(f, "file", JStr(""));
    var snippet := Prefix(GetOr(f, "code", JStr("")), 200);
    if line.Err? then Err(line.error)
    else if level.Err? then Err(level.error)
    else if !file.JStr? then Err(AttributeError)
    else if snippet.Err? then Err(snippet.error)
    else
      Ok(SarifResult(id, level.value, DescriptionIn(f), Text.LStripChar(file.s, '/'), line.value,
                     snippet.value, SeverityIn(f), tool))
  }

  /** A snippet holds at most 200 characters (or items, for a list). */
  lemma SnippetBounded(f: Fields, id: Json, tool: Json)
    requires MakeResult(f, id, tool).Ok?
    ensures var s := MakeResult(f, id, tool).value.snippet;
      (s.JStr? && |s.s| <= 200) || (s.JArr? && |s.items| <= 200)
  {
  }

  /** A missing line, line 0 and a negative line all start at line 1. */
  lemma LineClamped(f: Fields, id: Json, tool: Json)
    requires MakeResult(f, id, tool).Ok?
    requires !HasKey(f, "line") || (Lookup(f, "line").value.JInt? && Lookup(f, "line").value.i <= 1)
    ensures MakeResult(f, id, tool).value.startLine == 1
  {
  }

  /** `f.get("id", "unknown")`. */
  function RuleIdOf(f: Fields): Json {
    GetOr(f, "id", JStr("unknown"))
  }

  /** The result built for a finding of the run for `tool`. */
  function ResultFor(tool: Json): (Fields, Json) -> Result<SarifResult, PyError> {
    (f: Fields, id: Json) => MakeResult(f, id, tool)
  }

  /** The loop over a run's findings, in order: `rules` keyed by finding id, one rule for each
      new id, and one result per finding. */
  function Process(tool: Json, members: seq<Fields>): Result<Dedup.Acc<Rule, SarifResult>, PyError> {
    Dedup.Collect(RuleIdOf, MakeRule, ResultFor(tool), members)
  }

  /** The values of a dict, in insertion order. */
  function Values<V>(table: seq<(Json, V)>): (r: seq<V>)
    ensures |r| == |table|
    ensures forall j :: 0 <= j < |table| ==> r[j] == table[j].1
  {
    seq(|table|, j requires 0 <= j < |table| => table[j].1)
  }

  /** One run: the tool, `list(rules.values())`, and the results. */
  datatype Run = Run(tool: Json, rules: seq<Rule>, results: seq<SarifResult>)

  /** The run for one tool and the findings filed under it. */
  function RunOf(bin: Dedup.Bin<Fields>): Result<Run, PyError> {
    var p := Process(bin.key, bin.members);
    if p.Err? then Err(p.error) else Ok(Run(bin.key, Values(p.value.table), p.value.list))
  }

  /** A run is built when every finding's id is hashable and its result can be built, and the
      first finding with each id can build the rule. */
  lemma RunBuilt(bin: Dedup.Bin<Fields>)
    ensures RunOf(bin).Ok? ==> forall k :: 0 <= k < |bin.members| ==>
      Hashable(RuleIdOf(bin.members[k])) && MakeResult(bin.members[k], RuleIdOf(bin.members[k]), bin.key).Ok?
    ensures var ids := Dedup.KeysOf(RuleIdOf, bin.members);
      RunOf(bin).Ok? ==> forall j :: 0 <= j < |Dedup.Firsts(ids)| ==>
        MakeRule(bin.members[Dedup.Firsts(ids)[j]], ids[Dedup.Firsts(ids)[j]]).Ok?
    ensures var ids := Dedup.KeysOf(RuleIdOf, bin.members);
      (&& (forall k :: 0 <= k < |bin.members| ==>
            Hashable(RuleIdOf(bin.members[k])) && MakeResult(bin.members[k], RuleIdOf(bin.members[k]), bin.key).Ok?)
       && (forall j :: 0 <= j < |Dedup.Firsts(ids)| ==> MakeRule(bin.members[Dedup.Firsts(ids)[j]], ids[Dedup.Firsts(ids)[j]]).Ok?))
      ==> RunOf(bin).Ok?
  {
    Dedup.CollectOk(RuleIdOf, MakeRule, ResultFor(bin.key), bin.members);
    var ids := Dedup.KeysOf(RuleIdOf, bin.members);
    forall k | 0 <= k < |bin.members|
      ensures ResultFor(bin.key)(bin.members[k], ids[k]) == MakeResult(bin.members[k], RuleIdOf(bin.members[k]), bin.key)
    {
    }
  }

  /** A run holds one result per finding, in order. */
  lemma RunResults(bin: Dedup.Bin<Fields>)
    requires RunOf(bin).Ok?
    ensures var run := RunOf(bin).value;
      && run.tool == bin.key
      && |run.results| == |bin.members|
      && (forall k :: 0 <= k < |bin.members| ==> Ok(run.results[k]) == MakeResult(bin.members[k], RuleIdOf(bin.members[k]), bin.key))
  {
    Dedup.CollectSpec(RuleIdOf, MakeRule, ResultFor(bin.key), bin.members);
  }

  /** A run holds one rule per first occurrence of an id, under that id, defined by that finding. */
  lemma RunRules(bin: Dedup.Bin<Fields>)
    requires RunOf(bin).Ok?
    ensures var run := RunOf(bin).value;
      var ids := Dedup.KeysOf(RuleIdOf, bin.members);
      var firsts := Dedup.Firsts(ids);
      && |run.rules| == |firsts|
      && forall j :: 0 <= j < |firsts| ==>
        (&& firsts[j] < |bin.members| && !Dedup.SeenBefore(ids, firsts[j])
         && run.rules[j].id == ids[firsts[j]] && Ok(run.rules[j]) == MakeRule(bin.members[firsts[j]], ids[firsts[j]]))
  {
    Dedup.CollectSpec(RuleIdOf, MakeRule, ResultFor(bin.key), bin.members);
    Dedup.FirstsFresh(Dedup.KeysOf(RuleIdOf, bin.members));
  }

  /** Rule ids are distinct within a run. */
  lemma RuleIdsDistinct(bin: Dedup.Bin<Fields>, i: nat, j: nat)
    requires RunOf(bin).Ok? && i < j < |RunOf(bin).value.rules|
    ensures !Dedup.SameKey(RunOf(bin).value.rules[i].id, RunOf(bin).value.rules[j].id)
  {
    var p := Process(bin.key, bin.members).value;
    Dedup.CollectSpec(RuleIdOf, MakeRule, ResultFor(bin.key), bin.members);
    Dedup.TableKeysDistinct(RuleIdOf, MakeRule, p.table, bin.members, i, j);
    RunRules(bin);
  }

  /** Every result's `ruleId` is the id of one of its run's rules. */
  lemma ResultHasRule(bin: Dedup.Bin<Fields>, k: nat)
    requires RunOf(bin).Ok? && k < |RunOf(bin).value.results|
    ensures var run := RunOf(bin).value;
      exists j :: 0 <= j < |run.rules| && Dedup.SameKey(run.rules[j].id, run.results[k].ruleId)
  {
    var run := RunOf(bin).value;
    var p := Process(bin.key, bin.members).value;
    Dedup.CollectSpec(RuleIdOf, MakeRule, ResultFor(bin.key), bin.members);
    RunResults(bin);
    RunRules(bin);
    Dedup.EveryKeyKnown(RuleIdOf, MakeRule, p.table, bin.members, k);
    var j :| 0 <= j < |p.table| && Dedup.SameKey(p.table[j].0, RuleIdOf(bin.members[k]));
    assert run.rules[j].id == p.table[j].0;
  }

  /** `f.get("tool", "unknown")` in the grouping loop: only a dict has `get` (`AttributeError`),
      and the tool must be hashable to be a dict key (`TypeError`). */
  function Filed(f: Json): (r: Result<(Json, Fields), PyError>)
    ensures r.Ok? <==> (f.JObj? && Hashable(GetOr(f.fields, "tool", JStr("unknown"))))
    ensures r.Ok? ==> r.value == (GetOr(f.fields, "tool", JStr("unknown")), f.fields)
    ensures !f.JObj? ==> r == Err(AttributeError)
  {
    if !f.JObj? then Err(AttributeError)
    else
      var tool := GetOr(f.fields, "tool", JStr("unknown"));
      if Hashable(tool) then Ok((tool, f.fields)) else Err(TypeError)
  }

  function ToolsOf(pairs: seq<(Json, Fields)>): (r: seq<Json>)
    ensures |r| == |pairs|
    ensures forall k :: 0 <= k < |pairs| ==> r[k] == pairs[k].0
  {
    seq(|pairs|, k requires 0 <= k < |pairs| => pairs[k].0)
  }

  function MembersOf(pairs: seq<(Json, Fields)>): (r: seq<Fields>)
    ensures |r| == |pairs|
    ensures forall k :: 0 <= k < |pairs| ==> r[k] == pairs[k].1
  {
    seq(|pairs|, k requires 0 <= k < |pairs| => pairs[k].1)
  }

  /** The grouping loop: `tools.setdefault(tool, []).append(f)` for every finding. */
  function Group(findings: seq<Json>): Result<seq<Dedup.Bin<Fields>>, PyError> {
    var filed := MapAll(Filed, findings);
    if filed.Err? then Err(filed.error)
    else Ok(Dedup.FileAll(ToolsOf(filed.value), MembersOf(filed.value)))
  }

  /** The loop builds its groups when every finding is a dict with a hashable tool, and then
      they are the classes of the tools: one per distinct tool, in order of first appearance,
      under the tool first seen, each holding the findings with that tool in order. */
  lemma GroupSpec(findings: seq<Json>)
    ensures Group(findings).Ok? <==> forall k :: 0 <= k < |findings| ==> Filed(findings[k]).Ok?
    ensures Group(findings).Ok? ==> (
      && MapAll(Filed, findings).Ok?
      && Group(findings).value == Dedup.Classes(ToolsOf(MapAll(Filed, findings).value), MembersOf(MapAll(Filed, findings).value)))
  {
    var filed := MapAll(Filed, findings);
    if filed.Ok? {
      Dedup.FileAllIsClasses(ToolsOf(filed.value), MembersOf(filed.value));
    }
  }

  /** The runs, one per group, in order. */
  function Runs(findings: seq<Json>): Result<seq<Run>, PyError> {
    var groups := Group(findings);
    if groups.Err? then Err(groups.error) else MapAll(RunOf, groups.value)
  }

  /** Results across all runs: one per finding. */
  lemma ResultsPerFinding(findings: seq<Json>)
    requires Runs(findings).Ok?
    ensures var runs := Runs(findings).value;
      Dedup.Sum(seq(|runs|, i requires 0 <= i < |runs| => |runs[i].results|)) == |findings|
  {
    var bins := Group(findings).value;
    GroupSpec(findings);
    var pairs := MapAll(Filed, findings).value;
    Dedup.ClassesHoldAll(ToolsOf(pairs), MembersOf(pairs));
    RunSizes(bins);
  }

  /** Each run holds as many results as its group has findings. */
  lemma RunSizes(bins: seq<Dedup.Bin<Fields>>)
    requires MapAll(RunOf, bins).Ok?
    ensures var runs := MapAll(RunOf, bins).value;
      seq(|runs|, i requires 0 <= i < |runs| => |runs[i].results|)
        == seq(|bins|, i requires 0 <= i < |bins| => |bins[i].members|)
  {
    var runs := MapAll(RunOf, bins).value;
    forall i | 0 <= i < |runs|
      ensures |runs[i].results| == |bins[i].members|
    {
      RunResults(bins[i]);
    }
  }

  /** `main` up to the document: the findings read, grouped, and turned into runs. */
  function Report(file: JsonFile): Result<seq<Run>, PyError> {
    var findings := Findings.Read(file);
    if findings.Err? then Err(findings.error) else Runs(findings.value)
  }

  const Schema := "https://raw.githubusercontent.com/oasis-tcs/sarif-spec/master/Documents/CommitteeSpecifications/2.1.0/sarif-schema-2.1.0.json"

  function TextOf(t: Json): Json {
    JObj([("text", t)])
  }

  function RuleJson(r: Rule): Json {
    JObj([("id", r.id), ("name", r.title), ("shortDescription", TextOf(r.title)),
          ("fullDescription", TextOf(r.description)), ("helpUri", r.helpUri),
          ("defaultConfiguration", JObj([("level", JStr(r.level))])),
          ("properties", JObj([("tags", r.tags), ("security-severity", JStr(r.securitySeverity))]))])
  }

  function Location(x: SarifResult): Json {
    JObj([("physicalLocation", JObj([
      ("artifactLocation", JObj([("uri", JStr(x.uri)), ("uriBaseId", JStr("%SRCROOT%"))])),
      ("region", JObj([("startLine", JInt(x.startLine)), ("snippet", TextOf(x.snippet))]))]))])
  }

  function ResultJson(x: SarifResult): Json {
    JObj([("ruleId", x.ruleId), ("level", JStr(x.level)), ("message", TextOf(x.message)),
          ("locations", JArr([Location(x)])),
          ("properties", JObj([("severity", x.severity), ("tool", x.tool)]))])
  }

  function RunJson(run: Run): Json {
    JObj([("tool", JObj([("driver", JObj([
            ("name", JStr("AI-SSDLC / " + Str(run.tool))), ("version", JStr("1.0.0")),
            ("informationUri", JStr("https://github.com/subzone/ssdlc-action")),
            ("rules", JArr(seq(|run.rules|, j requires 0 <= j < |run.rules| => RuleJson(run.rules[j]))))]))])),
          ("results", JArr(seq(|run.results|, k requires 0 <= k < |run.results| => ResultJson(run.results[k]))))])
  }

  /** The SARIF log: schema, version 2.1.0, and the runs. */
  function Document(runs: seq<Run>): Json {
    JObj([("$schema", JStr(Schema)), ("version", JStr("2.1.0")),
          ("runs", JArr(seq(|runs|, i requires 0 <= i < |runs| => RunJson(runs[i]))))])
  }

  /** The log is version 2.1.0 and holds one run per tool. */
  lemma DocumentShape(runs: seq<Run>)
    ensures Lookup(Document(runs).fields, "version") == Some(JStr("2.1.0"))
    ensures Lookup(Document(runs).fields, "runs").Some? && Lookup(Document(runs).fields, "runs").value.JArr?
    ensures |Lookup(Document(runs).fields, "runs").value.items| == |runs|
  {
    var fs := Document(runs).fields;
    assert fs[1..][1..][0] == fs[2];
  }

  /** `sarif_path.write_text(json.dumps(sarif, indent=2))`: the text written. */
  function Written(file: JsonFile): (r: Result<string, PyError>)
    ensures r.Ok? <==> Report(file).Ok?
    ensures r.Ok? ==> Text.IsAscii(r.value)
  {
    var runs := Report(file);
    if runs.Err? then Err(runs.error) else Ok(JsonText.Dumps(JsonText.Pretty, Document(runs.value)))
  }
}
