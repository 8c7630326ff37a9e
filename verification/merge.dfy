/**
 The merge step of the findings reporter: the new findings of one tool, each tagged with the
 tool's name unless it already carries one, appended to the master list, which is written back.
 */
module Merge {
  import opened Wrappers
  import Text
  import opened Json
  import JsonText

  /** `json.loads(path.read_text()) if path.exists() else []`, with anything but a list replaced
      by `[]`. A file that exists but cannot be read or parsed raises. */
  function ListIn(file: JsonFile): (r: Result<seq<Json>, PyError>)
    ensures r.Ok? <==> file.Missing? || file.Parsed?
    ensures file.Parsed? && file.doc.JArr? ==> r == Ok(file.doc.items)
    ensures file.Missing? || (file.Parsed? && !file.doc.JArr?) ==> r == Ok([])
  {
    if file.Missing? then Ok([])
    else
      match Load(file)
      case Err(e) => Err(e)
      case Ok(doc) => Ok(if doc.JArr? then doc.items else [])
  }

  /** `if "tool" not in f: f["tool"] = tool_name`. On a dict the test looks for the key and the
      assignment adds it last. A list or a string that holds `"tool"` passes untouched, but one
      that does not cannot take the assignment (`TypeError`); a number, a boolean or `None`
      cannot be searched at all (`TypeError`). */
  function Tag(tool: string, f: Json): (r: Result<Json, PyError>)
    ensures r.Ok? <==> f.JObj? || (f.JArr? && JStr("tool") in f.items) || (f.JStr? && Text.HasRun(f.s, "tool"))
    ensures r.Ok? && !f.JObj? ==> r.value == f
    ensures f.JObj? ==> r.Ok? && r.value.JObj? && |r.value.fields| >= |f.fields| && r.value.fields[..|f.fields|] == f.fields
    ensures f.JObj? ==> Lookup(r.value.fields, "tool") == Some(Lookup(f.fields, "tool").GetOr(JStr(tool)))
    ensures f.JObj? ==> forall k :: k != "tool" ==> Lookup(r.value.fields, k) == Lookup(f.fields, k)
  {
    match f
    case JObj(fields) => if HasKey(fields, "tool") then Ok(f) else Ok(JObj(Put(fields, "tool", JStr(tool))))
    case JArr(items) => if JStr("tool") in items then Ok(f) else Err(TypeError)
    case JStr(s) => if Text.HasRun(s, "tool") then Ok(f) else Err(TypeError)
    case _ => Err(TypeError)
  }

  /** The tool name argument, `unknown` when it is not given. */
  function ToolName(arg: Option<string>): string {
    arg.GetOr("unknown")
  }

  /** `main`: the master list followed by the tagged new findings. Reading the master file comes
      first, then the new file, then the tagging loop; the first exception ends the run. */
  function Merge(master: JsonFile, incoming: JsonFile, toolArg: Option<string>): (r: Result<seq<Json>, PyError>)
    ensures r.Ok? <==> (ListIn(master).Ok? && ListIn(incoming).Ok?
      && forall k :: 0 <= k < |ListIn(incoming).value| ==> Tag(ToolName(toolArg), ListIn(incoming).value[k]).Ok?)
    ensures r.Ok? ==> |r.value| == |ListIn(master).value| + |ListIn(incoming).value|
    ensures r.Ok? ==> r.value[..|ListIn(master).value|] == ListIn(master).value
    ensures r.Ok? ==> forall k :: 0 <= k < |ListIn(incoming).value| ==>
      r.value[|ListIn(master).value| + k] == Tag(ToolName(toolArg), ListIn(incoming).value[k]).value
  {
    var tool := ToolName(toolArg);
    match ListIn(master)
    case Err(e) => Err(e)
    case Ok(m) =>
      match ListIn(incoming)
      case Err(e) => Err(e)
      case Ok(n) =>
        match MapAll((f: Json) => Tag(tool, f), n)
        case Err(e) => Err(e)
        case Ok(tagged) => Ok(m + tagged)
  }

  /** Tagging is idempotent: a finding tagged once is left as it is by a second merge. */
  lemma TagTwice(tool: string, f: Json)
    requires Tag(tool, f).Ok?
    ensures Tag(tool, Tag(tool, f).value) == Tag(tool, f)
  {
    if f.JObj? {
      var g := Tag(tool, f).value;
      assert Lookup(g.fields, "tool").Some?;
      assert HasKey(g.fields, "tool");
    }
  }

  /** A dict among the new findings comes out with its own tool, or with the tool name when it
      had none, and with every other member as it was. */
  lemma MergedDictsAreTagged(master: JsonFile, incoming: JsonFile, toolArg: Option<string>, k: nat)
    requires Merge(master, incoming, toolArg).Ok? && k < |ListIn(incoming).value| && ListIn(incoming).value[k].JObj?
    ensures var f := ListIn(incoming).value[k];
      var g := Merge(master, incoming, toolArg).value[|ListIn(master).value| + k];
      && g.JObj?
      && Lookup(g.fields, "tool") == Some(Lookup(f.fields, "tool").GetOr(JStr(ToolName(toolArg))))
      && forall key :: key != "tool" ==> Lookup(g.fields, key) == Lookup(f.fields, key)
  {
  }

  /** Merging from a missing or non-list file leaves the master list as it was. */
  lemma NothingNew(master: JsonFile, incoming: JsonFile, toolArg: Option<string>)
    requires master.Missing? || master.Parsed?
    requires incoming.Missing? || (incoming.Parsed? && !incoming.doc.JArr?)
    ensures Merge(master, incoming, toolArg) == ListIn(master)
  {
    var m := ListIn(master).value;
    assert m + [] == m;
  }

  /** The text written back to the master file: `json.dumps(master, indent=2)`. */
  function Written(master: JsonFile, incoming: JsonFile, toolArg: Option<string>): (r: Result<string, PyError>)
    ensures r.Ok? <==> Merge(master, incoming, toolArg).Ok?
    ensures r.Ok? ==> Text.IsAscii(r.value)
  {
    var merged := Merge(master, incoming, toolArg);
    if merged.Err? then Err(merged.error) else Ok(JsonText.Dumps(JsonText.Pretty, JArr(merged.value)))
  }
}
