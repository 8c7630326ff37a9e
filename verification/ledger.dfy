/**
 The revocation ledger: adding a jti to the `revoked_jti` list of the revocations file, kept
 sorted and free of duplicates, every other key of the file left as it was.
 */
module Ledger {
  import opened Wrappers
  import Text
  import Order
  import opened Json
  import JsonText

  const ListKey := "revoked_jti"

  /** The document a missing file starts from: `{"revoked_jti": []}`. */
  const Fresh := JObj([(ListKey, JArr([]))])

  predicate AllStrings(items: seq<Json>) {
    forall k :: 0 <= k < |items| ==> items[k].JStr?
  }

  /** The strings of a list of strings. */
  function StringsOf(items: seq<Json>): (r: seq<string>)
    requires AllStrings(items)
    ensures |r| == |items|
    ensures forall k :: 0 <= k < |items| ==> items[k] == JStr(r[k])
  {
    seq(|items|, k requires 0 <= k < |items| => items[k].s)
  }

  lemma StringsOfStrings(xs: seq<string>)
    ensures AllStrings(Strings(xs)) && StringsOf(Strings(xs)) == xs
  {
  }

  lemma InStringsOf(items: seq<Json>, y: string)
    requires AllStrings(items)
    ensures y in StringsOf(items) <==> JStr(y) in items
  {
    var r := StringsOf(items);
    if JStr(y) in items {
      var k :| 0 <= k < |items| && items[k] == JStr(y);
      assert r[k] == y;
    }
  }

  /** The revoked ids a document lists: `None` unless it is a dict whose `revoked_jti` is absent
      (no ids) or a list of strings. */
  function Ids(doc: Json): (r: Option<seq<string>>)
    ensures r.Some? ==> doc.JObj?
  {
    if !doc.JObj? then None
    else
      var v := GetOr(doc.fields, ListKey, JArr([]));
      if v.JArr? && AllStrings(v.items) then Some(StringsOf(v.items)) else None
  }

  /** The document the update starts from: the file's, or `Fresh` when there is no file. */
  function Start(f: JsonFile): Result<Json, PyError> {
    if f.Missing? then Ok(Fresh) else Load(f)
  }

  /** The updated document: `data["revoked_jti"] = sorted(set(ids))`. */
  function Store(fields: seq<(string, Json)>, ids: seq<string>): Json {
    JObj(Put(fields, ListKey, JArr(Strings(ids))))
  }

  /** `main` as written. `jti not in revoked` and `revoked.append` act on whatever `revoked_jti`
      holds: a string is searched for the jti as a substring and a dict for it as a key, and when
      it is found there `sorted(set(...))` writes the string's characters or the dict's keys. A
      list with anything but strings cannot be sorted once the jti is in it (`TypeError`). */
  function RevokeAsWritten(f: JsonFile, jti: string): (r: Result<Json, PyError>)
    ensures r.Ok? ==> r.value.JObj? && Ids(r.value).Some?
  {
    match Start(f)
    case Err(e) => Err(e)
    case Ok(data) =>
      if !data.JObj? then Err(AttributeError)
      else
        match GetOr(data.fields, ListKey, JArr([]))
        case JArr(items) =>
          var list := if JStr(jti) in items then items else items + [JStr(jti)];
          if AllStrings(list) then Ok(Written(data.fields, Order.SortedDistinct(StringsOf(list))))
          else Err(TypeError)
        case JStr(s) =>
          if Text.HasRun(s, jti) then Ok(Written(data.fields, Order.SortedDistinct(Singles(s))))
          else Err(AttributeError)
        case JObj(members) =>
          if HasKey(members, jti) then Ok(Written(data.fields, Order.SortedDistinct(Keys(members))))
          else Err(AttributeError)
        case _ => Err(TypeError)
  }

  /** `Store` with the fact that the stored list reads back. */
  function Written(fields: seq<(string, Json)>, ids: seq<string>): (r: Json)
    ensures r == Store(fields, ids) && Ids(r) == Some(ids)
  {
    var r := Store(fields, ids);
    StringsOfStrings(ids);
    r
  }

  /** The characters of a string, each as a string of its own. */
  function Singles(s: string): (r: seq<string>)
    ensures |r| == |s|
    ensures forall k :: 0 <= k < |s| ==> r[k] == [s[k]]
  {
    seq(|s|, k requires 0 <= k < |s| => [s[k]])
  }

  /** A `revoked_jti` string that merely contains the jti is replaced by its characters, so a jti
      of two characters or more is reported revoked but is not in the list written. */
  lemma StringListLosesTheJti()
    ensures RevokeAsWritten(Parsed(JObj([(ListKey, JStr("abc"))])), "ab") == Ok(Store([(ListKey, JStr("abc"))], ["a", "b", "c"]))
    ensures "ab" !in Ids(Store([(ListKey, JStr("abc"))], ["a", "b", "c"])).value
  {
    var fields := [(ListKey, JStr("abc"))];
    assert Lookup(fields, ListKey) == Some(JStr("abc"));
    assert Text.RunAt("abc", "ab", 0);
    SinglesOfAbc();
    var w := Written(fields, ["a", "b", "c"]);
  }

  /** The sorted distinct characters of `"abc"`. */
  lemma SinglesOfAbc()
    ensures Order.SortedDistinct(Singles("abc")) == ["a", "b", "c"]
  {
    assert Singles("abc") == ["a", "b", "c"];
    var sorted := ["a", "b", "c"];
    assert Order.StrictlySorted(sorted) by {
      assert Order.Below("a", "b") && Order.Below("b", "c") && Order.Below("a", "c");
    }
    Order.SortedUnique(Order.SortedDistinct(Singles("abc")), sorted);
  }

  /** `main` as intended: the jti is added to a list of ids, and a `revoked_jti` that is not a
      list is refused (`TypeError`) rather than rewritten. The ids written are the old ids and the
      jti, in strictly ascending order, and every other key keeps its value. */
  function Revoke(f: JsonFile, jti: string): (r: Result<Json, PyError>)
    ensures r.Ok? <==> Start(f).Ok? && Ids(Start(f).value).Some?
    ensures r.Ok? ==> r.value.JObj? && Ids(r.value).Some?
    ensures r.Ok? ==> jti in Ids(r.value).value
    ensures r.Ok? ==> Order.StrictlySorted(Ids(r.value).value)
    ensures r.Ok? ==> forall y :: y in Ids(r.value).value <==> y == jti || y in Ids(Start(f).value).value
    ensures r.Ok? ==> forall k :: k != ListKey ==> Lookup(r.value.fields, k) == Lookup(Start(f).value.fields, k)
  {
    match Start(f)
    case Err(e) => Err(e)
    case Ok(data) =>
      if !data.JObj? then Err(AttributeError)
      else
        match GetOr(data.fields, ListKey, JArr([]))
        case JArr(items) =>
          var list := if JStr(jti) in items then items else items + [JStr(jti)];
          if AllStrings(list) then
            assert forall k :: 0 <= k < |items| ==> items[k] == list[k];
            assert AllStrings(items);
            var ids := Order.SortedDistinct(StringsOf(list));
            forall y
              ensures y in ids <==> y == jti || y in StringsOf(items)
            {
              InStringsOf(list, y);
              InStringsOf(items, y);
            }
            Ok(Written(data.fields, ids))
          else Err(TypeError)
        case _ => Err(TypeError)
  }

  /** Revoking grows the set of ids by at most one. */
  lemma RevokeGrowsByOne(f: JsonFile, jti: string)
    requires Revoke(f, jti).Ok?
    ensures |Ids(Revoke(f, jti).value).value| <= |Order.SortedDistinct(Ids(Start(f).value).value)| + 1
  {
    var before := Ids(Start(f).value).value;
    var ids := Ids(Revoke(f, jti).value).value;
    var grown := Order.Insert(jti, Order.SortedDistinct(before));
    forall y
      ensures y in ids <==> y in grown
    {
    }
    Order.SortedUnique(ids, grown);
  }

  /** Revoking the same jti again writes the same document. */
  lemma RevokeIdempotent(f: JsonFile, jti: string)
    requires Revoke(f, jti).Ok?
    ensures Revoke(Parsed(Revoke(f, jti).value), jti) == Revoke(f, jti)
  {
    var data := Start(f).value;
    var doc := Revoke(f, jti).value;
    var ids := Ids(doc).value;
    var value := JArr(Strings(ids));
    assert doc == Store(data.fields, ids);
    assert Lookup(doc.fields, ListKey) == Some(value);
    StringsOfStrings(ids);
    InStringsOf(Strings(ids), jti);
    assert JStr(jti) in value.items;
    Order.SortedUnique(Order.SortedDistinct(StringsOf(value.items)), ids);
    PutTwice(data.fields, ListKey, value);
  }

  /** A missing file, or one without `revoked_jti`, ends up listing the jti alone. */
  lemma RevokeFromNothing(f: JsonFile, jti: string)
    requires f.Missing? || (f.Parsed? && f.doc.JObj? && !HasKey(f.doc.fields, ListKey))
    ensures Revoke(f, jti).Ok? && Ids(Revoke(f, jti).value) == Some([jti])
  {
    var data := Start(f).value;
    assert Lookup(Fresh.fields, ListKey) == Some(JArr([]));
    assert GetOr(data.fields, ListKey, JArr([])) == JArr([]);
    var ids := Ids(Revoke(f, jti).value).value;
    assert Order.StrictlySorted([jti]);
    Order.SortedUnique(ids, [jti]);
  }

  /** Where the code as written succeeds on a list, the intended update writes the same. */
  lemma RevokeAgreesOnLists(f: JsonFile, jti: string)
    requires Start(f).Ok? && Start(f).value.JObj?
    requires GetOr(Start(f).value.fields, ListKey, JArr([])).JArr?
    ensures RevokeAsWritten(f, jti) == Revoke(f, jti)
  {
  }

  /** The text written back: `json.dumps(data, indent=2) + "\n"`. */
  function FileText(doc: Json): (r: string)
    ensures Text.IsAscii(r) && |r| > 0 && r[|r| - 1] == '\n'
  {
    JsonText.Dumps(JsonText.Pretty, doc) + "\n"
  }
}
