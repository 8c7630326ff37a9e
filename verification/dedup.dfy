/**
 Dict keys as Python compares them, and what a dict built by a loop of insertions keeps: one
 entry per distinct key, in the order each key first appeared, under the key object inserted
 first.
 */
module Dedup {
  import opened Wrappers
  import opened Json

  /** `a == b` for hashable JSON values: the same value, or two numbers that are equal, where a
      boolean counts as 0 or 1 (`1 == True`). */
  predicate SameKey(a: Json, b: Json) {
    a == b || ((a.JInt? || a.JBool?) && (b.JInt? || b.JBool?) && NumberOf(a) == NumberOf(b))
  }

  /** Some key before position `n` is the same key as the one at `n`. */
  predicate SeenBefore(keys: seq<Json>, n: nat)
    requires n < |keys|
  {
    exists j :: 0 <= j < n && SameKey(keys[j], keys[n])
  }

  /** The positions at which a key appears for the first time, in increasing order. */
  function Firsts(keys: seq<Json>): (r: seq<nat>)
    ensures forall i :: 0 <= i < |r| ==> r[i] < |keys|
    ensures forall i, j :: 0 <= i < j < |r| ==> r[i] < r[j]
    decreases |keys|
  {
    if |keys| == 0 then []
    else
      var n := |keys| - 1;
      if SeenBefore(keys, n) then Firsts(keys[..n]) else Firsts(keys[..n]) + [n]
  }

  /** Each first position holds a key not seen before it. */
  lemma {:induction false} FirstsFresh(keys: seq<Json>)
    ensures forall i :: 0 <= i < |Firsts(keys)| ==> !SeenBefore(keys, Firsts(keys)[i])
    decreases |keys|
  {
    if |keys| > 0 {
      var n := |keys| - 1;
      var init := keys[..n];
      var f := Firsts(init);
      FirstsFresh(init);
      forall i | 0 <= i < |f|
        ensures !SeenBefore(keys, f[i])
      {
        assert !SeenBefore(init, f[i]);
        assert forall j :: 0 <= j <= f[i] ==> init[j] == keys[j];
      }
    }
  }

  lemma SameKeyTransitive(a: Json, b: Json, c: Json)
    requires SameKey(a, b) && SameKey(b, c)
    ensures SameKey(a, c)
  {
  }

  /** Every key is the same key as the one at some first position at or before it. */
  lemma FirstsCover(keys: seq<Json>, k: nat)
    requires k < |keys|
    ensures exists i :: 0 <= i < |Firsts(keys)| && Firsts(keys)[i] <= k && SameKey(keys[Firsts(keys)[i]], keys[k])
  {
    var i := FirstCovering(keys, k);
  }

  /** The first position that covers `k`, found by induction on the keys. */
  lemma {:induction false} FirstCovering(keys: seq<Json>, k: nat) returns (i: nat)
    requires k < |keys|
    ensures i < |Firsts(keys)| && Firsts(keys)[i] <= k && SameKey(keys[Firsts(keys)[i]], keys[k])
    decreases |keys|
  {
    var n := |keys| - 1;
    var init := keys[..n];
    var f := Firsts(init);
    var r := Firsts(keys);
    FirstsExtend(keys);
    if k < n {
      i := FirstCovering(init, k);
      assert init[f[i]] == keys[r[i]] && init[k] == keys[k];
    } else if SeenBefore(keys, n) {
      var j :| 0 <= j < n && SameKey(keys[j], keys[n]);
      i := FirstCovering(init, j);
      assert init[f[i]] == keys[r[i]] && init[j] == keys[j];
      SameKeyTransitive(keys[r[i]], keys[j], keys[n]);
    } else {
      i := |f|;
    }
  }

  /** A last key seen before is the same key as the one at a first position of the keys
      before it. */
  lemma OldKeyClass(keys: seq<Json>) returns (i: nat)
    requires |keys| > 0 && SeenBefore(keys, |keys| - 1)
    ensures var f := Firsts(keys[..|keys| - 1]);
      i < |f| && f[i] < |keys| - 1 && SameKey(keys[f[i]], keys[|keys| - 1])
  {
    var n := |keys| - 1;
    var init := keys[..n];
    var k :| 0 <= k < n && SameKey(keys[k], keys[n]);
    i := FirstCovering(init, k);
    var f := Firsts(init);
    assert init[f[i]] == keys[f[i]] && init[k] == keys[k];
    SameKeyTransitive(keys[f[i]], keys[k], keys[n]);
  }

  /** The first positions of a sequence extend those of its prefix without the last key, by that
      last position when its key is new. */
  lemma FirstsExtend(keys: seq<Json>)
    requires |keys| > 0
    ensures var f := Firsts(keys[..|keys| - 1]);
      && |f| <= |Firsts(keys)| && (forall i :: 0 <= i < |f| ==> Firsts(keys)[i] == f[i])
      && (!SeenBefore(keys, |keys| - 1) ==> |Firsts(keys)| == |f| + 1 && Firsts(keys)[|f|] == |keys| - 1)
  {
  }

  /** The first-seen keys are pairwise different keys. */
  lemma FirstsDistinct(keys: seq<Json>, i: nat, j: nat)
    requires i < j < |Firsts(keys)|
    ensures !SameKey(keys[Firsts(keys)[i]], keys[Firsts(keys)[j]])
  {
    FirstsFresh(keys);
    assert !SeenBefore(keys, Firsts(keys)[j]);
  }

  /** The members whose key is the same key as `key`, in order. */
  function Filter<T>(keys: seq<Json>, members: seq<T>, key: Json): (r: seq<T>)
    requires |keys| == |members|
    decreases |keys|
  {
    if |keys| == 0 then []
    else
      var n := |keys| - 1;
      Filter(keys[..n], members[..n], key) + (if SameKey(keys[n], key) then [members[n]] else [])
  }

  /** How many keys are the same key as `key`. */
  function CountSame(keys: seq<Json>, key: Json): nat
    decreases |keys|
  {
    if |keys| == 0 then 0
    else
      var n := |keys| - 1;
      CountSame(keys[..n], key) + (if SameKey(keys[n], key) then 1 else 0)
  }

  lemma {:induction false} FilterSize<T>(keys: seq<Json>, members: seq<T>, key: Json)
    requires |keys| == |members|
    ensures |Filter(keys, members, key)| == CountSame(keys, key)
    decreases |keys|
  {
    if |keys| > 0 {
      var n := |keys| - 1;
      FilterSize(keys[..n], members[..n], key);
    }
  }

  function Sum(xs: seq<nat>): nat {
    if |xs| == 0 then 0 else Sum(xs[..|xs| - 1]) + xs[|xs| - 1]
  }

  /** The size of each first-seen key's class. */
  function ClassSizes(keys: seq<Json>): (r: seq<nat>)
    ensures |r| == |Firsts(keys)|
  {
    seq(|Firsts(keys)|, i requires 0 <= i < |Firsts(keys)| => CountSame(keys, keys[Firsts(keys)[i]]))
  }

  lemma {:induction false} SumBumpOne(xs: seq<nat>, ys: seq<nat>, i0: nat)
    requires |xs| == |ys| && i0 < |xs|
    requires forall i :: 0 <= i < |xs| ==> ys[i] == xs[i] + (if i == i0 then 1 else 0)
    ensures Sum(ys) == Sum(xs) + 1
    decreases |xs|
  {
    var n := |xs| - 1;
    if i0 < n {
      SumBumpOne(xs[..n], ys[..n], i0);
    } else {
      assert xs[..n] == ys[..n];
    }
  }

  /** The classes partition the keys: their sizes add up to the number of keys. */
  lemma {:induction false} ClassesPartition(keys: seq<Json>)
    ensures Sum(ClassSizes(keys)) == |keys|
    decreases |keys|
  {
    if |keys| > 0 {
      var n := |keys| - 1;
      ClassesPartition(keys[..n]);
      if SeenBefore(keys, n) {
        OldKeyGrowsItsClass(keys);
      } else {
        NewKeyOpensAClass(keys);
      }
    }
  }

  /** A key seen before adds one to the size of its class. */
  lemma OldKeyGrowsItsClass(keys: seq<Json>)
    requires |keys| > 0 && SeenBefore(keys, |keys| - 1)
    ensures Sum(ClassSizes(keys)) == Sum(ClassSizes(keys[..|keys| - 1])) + 1
  {
    var n := |keys| - 1;
    var init := keys[..n];
    var f := Firsts(init);
    var before := ClassSizes(init);
    var after := ClassSizes(keys);
    var i0 := OldKeyClass(keys);
    forall i | 0 <= i < |f|
      ensures after[i] == before[i] + (if i == i0 then 1 else 0)
    {
      assert init[f[i]] == keys[f[i]];
      if i != i0 && SameKey(keys[n], keys[f[i]]) {
        assert init[f[i0]] == keys[f[i0]];
        SameKeyTransitive(keys[f[i0]], keys[n], keys[f[i]]);
        if i < i0 { FirstsDistinct(init, i, i0); } else { FirstsDistinct(init, i0, i); }
      }
    }
    SumBumpOne(before, after, i0);
  }

  /** A key not seen before opens a class of its own, of size one. */
  lemma NewKeyOpensAClass(keys: seq<Json>)
    requires |keys| > 0 && !SeenBefore(keys, |keys| - 1)
    ensures Sum(ClassSizes(keys)) == Sum(ClassSizes(keys[..|keys| - 1])) + 1
  {
    var n := |keys| - 1;
    var init := keys[..n];
    var f := Firsts(init);
    var before := ClassSizes(init);
    var after := ClassSizes(keys);
    forall i | 0 <= i < |f|
      ensures after[i] == before[i]
    {
      assert init[f[i]] == keys[f[i]];
      assert !SameKey(keys[f[i]], keys[n]);
    }
    assert after[..|f|] == before;
    assert forall j :: 0 <= j < n ==> init[j] == keys[j];
    CountNone(init, keys[n]);
  }

  /** A key that is the same as none of `keys` is counted zero times. */
  lemma {:induction false} CountNone(keys: seq<Json>, key: Json)
    requires forall j :: 0 <= j < |keys| ==> !SameKey(keys[j], key)
    ensures CountSame(keys, key) == 0
    decreases |keys|
  {
    if |keys| > 0 {
      CountNone(keys[..|keys| - 1], key);
    }
  }

  /** A dict built by inserting under each key only when it is new, together with a list that
      gets one entry per visit: what a loop of `if k not in d: d[k] = ...` and
      `results.append(...)` holds. */
  datatype Acc<R, S> = Acc(table: seq<(Json, R)>, list: seq<S>)

  /** `key in d`. */
  predicate Known<R>(table: seq<(Json, R)>, key: Json) {
    exists j :: 0 <= j < |table| && SameKey(table[j].0, key)
  }

  /** The key of every member. */
  function KeysOf<T>(keyOf: T -> Json, members: seq<T>): (r: seq<Json>)
    ensures |r| == |members|
    ensures forall k :: 0 <= k < |members| ==> r[k] == keyOf(members[k])
  {
    seq(|members|, k requires 0 <= k < |members| => keyOf(members[k]))
  }

  /** One turn of the loop: look the key up (an unhashable key raises `TypeError`), insert a new
      entry for a new key, then append the member's list entry. The first exception ends the loop. */
  function Visit<T, R, S>(keyOf: T -> Json, entry: (T, Json) -> Result<R, PyError>,
                          item: (T, Json) -> Result<S, PyError>, acc: Acc<R, S>, m: T): Result<Acc<R, S>, PyError> {
    var key := keyOf(m);
    if !Hashable(key) then Err(TypeError)
    else
      var e := if Known(acc.table, key) then Ok(None) else
        (var made := entry(m, key); if made.Err? then Err(made.error) else Ok(Some(made.value)));
      if e.Err? then Err(e.error)
      else
        var x := item(m, key);
        if x.Err? then Err(x.error)
        else
          var table := if e.value.Some? then acc.table + [(key, e.value.value)] else acc.table;
          Ok(Acc(table, acc.list + [x.value]))
  }

  /** The loop over all members. */
  function Collect<T, R, S>(keyOf: T -> Json, entry: (T, Json) -> Result<R, PyError>,
                            item: (T, Json) -> Result<S, PyError>, members: seq<T>): Result<Acc<R, S>, PyError>
    decreases |members|
  {
    if |members| == 0 then Ok(Acc([], []))
    else
      var prev := Collect(keyOf, entry, item, members[..|members| - 1]);
      if prev.Err? then prev else Visit(keyOf, entry, item, prev.value, members[|members| - 1])
  }

  /** When the loop gets through: every key is hashable, every member has its list entry and
      every first occurrence of a key its table entry. */
  ghost predicate Succeeds<T, R, S>(keyOf: T -> Json, entry: (T, Json) -> Result<R, PyError>,
                                    item: (T, Json) -> Result<S, PyError>, members: seq<T>) {
    var keys := KeysOf(keyOf, members);
    var firsts := Firsts(keys);
    && (forall k :: 0 <= k < |members| ==> Hashable(keys[k]) && item(members[k], keys[k]).Ok?)
    && (forall j :: 0 <= j < |firsts| ==> entry(members[firsts[j]], keys[firsts[j]]).Ok?)
  }

  /** The table: one entry per first occurrence of a key, made from that member, under its key. */
  ghost predicate TableIs<T, R>(keyOf: T -> Json, entry: (T, Json) -> Result<R, PyError>,
                                table: seq<(Json, R)>, members: seq<T>) {
    var keys := KeysOf(keyOf, members);
    var firsts := Firsts(keys);
    && |table| == |firsts|
    && forall j :: 0 <= j < |firsts| ==>
      table[j].0 == keys[firsts[j]] && Ok(table[j].1) == entry(members[firsts[j]], keys[firsts[j]])
  }

  /** The list: one entry per member, in order. */
  ghost predicate ListIs<T, S>(keyOf: T -> Json, item: (T, Json) -> Result<S, PyError>,
                               list: seq<S>, members: seq<T>) {
    && |list| == |members|
    && forall k :: 0 <= k < |members| ==> Ok(list[k]) == item(members[k], keyOf(members[k]))
  }

  /** With the table of the members before the last, the last key is in it exactly when it was
      seen before. */
  lemma KnownIsSeenBefore<T, R>(keyOf: T -> Json, entry: (T, Json) -> Result<R, PyError>,
                                table: seq<(Json, R)>, members: seq<T>)
    requires |members| > 0
    requires TableIs(keyOf, entry, table, members[..|members| - 1])
    ensures Known(table, keyOf(members[|members| - 1])) <==> SeenBefore(KeysOf(keyOf, members), |members| - 1)
  {
    var n := |members| - 1;
    var keys := KeysOf(keyOf, members);
    var before := KeysOf(keyOf, members[..n]);
    var f := Firsts(before);
    assert forall k :: 0 <= k < n ==> before[k] == keys[k];
    if Known(table, keys[n]) {
      var j :| 0 <= j < |table| && SameKey(table[j].0, keys[n]);
      assert table[j].0 == keys[f[j]];
    }
    if SeenBefore(keys, n) {
      assert keys[..n] == before;
      var j := OldKeyClass(keys);
      assert table[j].0 == keys[f[j]];
    }
  }

  /** The loop gets through exactly when every member and every first occurrence can be built,
      and then holds exactly those table and list entries. */
  lemma {:induction false} CollectSpec<T, R, S>(keyOf: T -> Json, entry: (T, Json) -> Result<R, PyError>,
                                                item: (T, Json) -> Result<S, PyError>, members: seq<T>)
    ensures Collect(keyOf, entry, item, members).Ok? <==> Succeeds(keyOf, entry, item, members)
    ensures Collect(keyOf, entry, item, members).Ok? ==>
      (&& TableIs(keyOf, entry, Collect(keyOf, entry, item, members).value.table, members)
       && ListIs(keyOf, item, Collect(keyOf, entry, item, members).value.list, members))
    decreases |members|
  {
    if |members| > 0 {
      var init := members[..|members| - 1];
      CollectSpec(keyOf, entry, item, init);
      var prev := Collect(keyOf, entry, item, init);
      if prev.Ok? {
        KnownIsSeenBefore(keyOf, entry, prev.value.table, members);
        VisitSpec(keyOf, entry, item, prev.value, members);
      } else if Succeeds(keyOf, entry, item, members) {
        SucceedsPrefix(keyOf, entry, item, members);
      }
    }
  }

  /** The loop gets through exactly when every key is hashable, every member's item can be
      made, and the first member with each key can make its entry. */
  lemma {:induction false} CollectOk<T, R, S>(keyOf: T -> Json, entry: (T, Json) -> Result<R, PyError>,
                           item: (T, Json) -> Result<S, PyError>, members: seq<T>)
    ensures Collect(keyOf, entry, item, members).Ok? ==>
      forall k :: 0 <= k < |members| ==> Hashable(KeysOf(keyOf, members)[k]) && item(members[k], KeysOf(keyOf, members)[k]).Ok?
    ensures Collect(keyOf, entry, item, members).Ok? ==>
      forall j :: 0 <= j < |Firsts(KeysOf(keyOf, members))| ==>
            entry(members[Firsts(KeysOf(keyOf, members))[j]], KeysOf(keyOf, members)[Firsts(KeysOf(keyOf, members))[j]]).Ok?
    ensures (&& (forall k :: 0 <= k < |members| ==> Hashable(KeysOf(keyOf, members)[k]) && item(members[k], KeysOf(keyOf, members)[k]).Ok?)
      && (forall j :: 0 <= j < |Firsts(KeysOf(keyOf, members))| ==>
            entry(members[Firsts(KeysOf(keyOf, members))[j]], KeysOf(keyOf, members)[Firsts(KeysOf(keyOf, members))[j]]).Ok?))
      ==> Collect(keyOf, entry, item, members).Ok?
  {
    CollectSpec(keyOf, entry, item, members);
  }

  /** A loop that gets through all members gets through those before the last. */
  lemma SucceedsPrefix<T, R, S>(keyOf: T -> Json, entry: (T, Json) -> Result<R, PyError>,
                                item: (T, Json) -> Result<S, PyError>, members: seq<T>)
    requires |members| > 0 && Succeeds(keyOf, entry, item, members)
    ensures Succeeds(keyOf, entry, item, members[..|members| - 1])
  {
    var n := |members| - 1;
    var keys := KeysOf(keyOf, members);
    var init := members[..n];
    assert forall k :: 0 <= k < n ==> init[k] == members[k];
    var f := Firsts(KeysOf(keyOf, init));
    assert KeysOf(keyOf, init) == keys[..n];
    var g := Firsts(keys);
    assert forall j :: 0 <= j < |f| ==> g[j] == f[j];
  }

  /** The last turn of the loop, given the table and list of the members before it. */
  lemma VisitSpec<T, R, S>(keyOf: T -> Json, entry: (T, Json) -> Result<R, PyError>,
                           item: (T, Json) -> Result<S, PyError>, acc: Acc<R, S>, members: seq<T>)
    requires |members| > 0
    requires var init := members[..|members| - 1];
      && Succeeds(keyOf, entry, item, init)
      && TableIs(keyOf, entry, acc.table, init) && ListIs(keyOf, item, acc.list, init)
    requires Known(acc.table, keyOf(members[|members| - 1])) <==> SeenBefore(KeysOf(keyOf, members), |members| - 1)
    ensures var v := Visit(keyOf, entry, item, acc, members[|members| - 1]);
      && (v.Ok? <==> Succeeds(keyOf, entry, item, members))
      && (v.Ok? ==> TableIs(keyOf, entry, v.value.table, members) && ListIs(keyOf, item, v.value.list, members))
  {
    var n := |members| - 1;
    var init := members[..n];
    var keys := KeysOf(keyOf, members);
    assert forall k :: 0 <= k < n ==> init[k] == members[k];
    assert KeysOf(keyOf, init) == keys[..n];
    var f := Firsts(keys[..n]);
    var g := Firsts(keys);
    assert g == if SeenBefore(keys, n) then f else f + [n];
    var v := Visit(keyOf, entry, item, acc, members[n]);
    if v.Ok? {
      forall j | 0 <= j < |g|
        ensures entry(members[g[j]], keys[g[j]]).Ok?
      {
        if j < |f| {
          assert g[j] == f[j];
        }
      }
    }
    if Succeeds(keyOf, entry, item, members) && !SeenBefore(keys, n) {
      assert g[|f|] == n;
    }
  }

  lemma {:induction false} FilterNone<T>(keys: seq<Json>, members: seq<T>, key: Json)
    requires |keys| == |members|
    requires forall j :: 0 <= j < |keys| ==> !SameKey(keys[j], key)
    ensures Filter(keys, members, key) == []
    decreases |keys|
  {
    if |keys| > 0 {
      FilterNone(keys[..|keys| - 1], members[..|members| - 1], key);
    }
  }

  /** One entry of a dict of lists: a key and the members filed under it. */
  datatype Bin<T> = Bin(key: Json, members: seq<T>)

  /** The position of the entry whose key is `key`, or the number of entries when there is none. */
  function Slot<T>(bins: seq<Bin<T>>, key: Json): (i: nat)
    ensures i <= |bins|
    ensures i < |bins| ==> SameKey(bins[i].key, key)
    ensures forall j :: 0 <= j < i ==> !SameKey(bins[j].key, key)
  {
    if |bins| == 0 then 0
    else if SameKey(bins[0].key, key) then 0
    else
      var i := 1 + Slot(bins[1..], key);
      assert forall j :: 1 <= j < i ==> bins[j] == bins[1..][j - 1];
      i
  }

  /** `d.setdefault(key, []).append(m)`: the member goes to the end of its key's list, or into a
      new entry at the end of the dict, under this key, when the key is new. */
  function SetDefaultAppend<T>(bins: seq<Bin<T>>, key: Json, m: T): seq<Bin<T>> {
    var i := Slot(bins, key);
    if i < |bins| then bins[i := Bin(bins[i].key, bins[i].members + [m])] else bins + [Bin(key, [m])]
  }

  /** The loop filing every member under its key. */
  function FileAll<T>(keys: seq<Json>, members: seq<T>): seq<Bin<T>>
    requires |keys| == |members|
    decreases |keys|
  {
    if |keys| == 0 then []
    else
      var n := |keys| - 1;
      SetDefaultAppend(FileAll(keys[..n], members[..n]), keys[n], members[n])
  }

  /** What the loop is meant to build, stated without it: one entry per first-seen key, in order
      of first appearance, holding the members with that key in their order. */
  function Classes<T>(keys: seq<Json>, members: seq<T>): (r: seq<Bin<T>>)
    requires |keys| == |members|
    ensures |r| == |Firsts(keys)|
  {
    var f := Firsts(keys);
    seq(|f|, i requires 0 <= i < |f| => Bin(keys[f[i]], Filter(keys, members, keys[f[i]])))
  }

  /** The loop builds exactly the classes. */
  lemma {:induction false} FileAllIsClasses<T>(keys: seq<Json>, members: seq<T>)
    requires |keys| == |members|
    ensures FileAll(keys, members) == Classes(keys, members)
    decreases |keys|
  {
    if |keys| > 0 {
      var n := |keys| - 1;
      FileAllIsClasses(keys[..n], members[..n]);
      if SeenBefore(keys, n) {
        FileOld(keys, members);
      } else {
        FileNew(keys, members);
      }
    }
  }

  /** A key seen before: its member joins the end of that key's class. */
  lemma FileOld<T>(keys: seq<Json>, members: seq<T>)
    requires |keys| == |members| && |keys| > 0 && SeenBefore(keys, |keys| - 1)
    ensures var n := |keys| - 1;
      SetDefaultAppend(Classes(keys[..n], members[..n]), keys[n], members[n]) == Classes(keys, members)
  {
    var n := |keys| - 1;
    var f := Firsts(keys[..n]);
    var before := Classes(keys[..n], members[..n]);
    var after := Classes(keys, members);
    var i0 := OldKeyClass(keys);
    OldSlot(keys, members, i0);
    assert Firsts(keys) == f;
    forall i | 0 <= i < |f|
      ensures after[i] == (if i == i0 then Bin(before[i].key, before[i].members + [members[n]]) else before[i])
    {
      OldClassAt(keys, members, i0, i);
    }
  }

  /** The slot `setdefault` finds for an old key is the class of its first occurrence. */
  lemma OldSlot<T>(keys: seq<Json>, members: seq<T>, i0: nat)
    requires |keys| == |members| && |keys| > 0
    requires var f := Firsts(keys[..|keys| - 1]);
      i0 < |f| && f[i0] < |keys| - 1 && SameKey(keys[f[i0]], keys[|keys| - 1])
    ensures var n := |keys| - 1;
      Slot(Classes(keys[..n], members[..n]), keys[n]) == i0
  {
    var n := |keys| - 1;
    var init := keys[..n];
    var f := Firsts(init);
    var before := Classes(init, members[..n]);
    assert before[i0].key == init[f[i0]] == keys[f[i0]];
    var slot := Slot(before, keys[n]);
    if slot < i0 {
      assert before[slot].key == init[f[slot]] == keys[f[slot]];
      assert SameKey(keys[n], keys[f[i0]]);
      SameKeyTransitive(keys[f[slot]], keys[n], keys[f[i0]]);
      FirstsDistinct(init, slot, i0);
    }
  }

  /** Class `i` after filing an old key's member: grown by it when it is that key's class,
      unchanged otherwise. */
  lemma OldClassAt<T>(keys: seq<Json>, members: seq<T>, i0: nat, i: nat)
    requires |keys| == |members| && |keys| > 0
    requires var f := Firsts(keys[..|keys| - 1]);
      i0 < |f| && i < |f| && f[i0] < |keys| - 1 && SameKey(keys[f[i0]], keys[|keys| - 1])
    requires Firsts(keys) == Firsts(keys[..|keys| - 1])
    ensures var n := |keys| - 1;
      var before := Classes(keys[..n], members[..n]);
      Classes(keys, members)[i]
        == (if i == i0 then Bin(before[i].key, before[i].members + [members[n]]) else before[i])
  {
    var n := |keys| - 1;
    var init := keys[..n];
    var f := Firsts(init);
    var key := keys[f[i]];
    assert init[f[i]] == key;
    assert Filter(keys, members, key) == Filter(init, members[..n], key)
      + (if SameKey(keys[n], key) then [members[n]] else []);
    if i != i0 && SameKey(keys[n], key) {
      assert init[f[i0]] == keys[f[i0]];
      SameKeyTransitive(keys[f[i0]], keys[n], key);
      if i < i0 { FirstsDistinct(init, i, i0); } else { FirstsDistinct(init, i0, i); }
    }
  }

  /** A new key: a class of its own, holding its member, at the end. */
  lemma FileNew<T>(keys: seq<Json>, members: seq<T>)
    requires |keys| == |members| && |keys| > 0 && !SeenBefore(keys, |keys| - 1)
    ensures var n := |keys| - 1;
      SetDefaultAppend(Classes(keys[..n], members[..n]), keys[n], members[n]) == Classes(keys, members)
  {
    var n := |keys| - 1;
    var init := keys[..n];
    var f := Firsts(init);
    var before := Classes(init, members[..n]);
    var after := Classes(keys, members);
    forall i | 0 <= i < |f|
      ensures after[i] == before[i]
    {
      assert init[f[i]] == keys[f[i]];
      assert !SameKey(keys[f[i]], keys[n]);
    }
    assert forall j :: 0 <= j < n ==> init[j] == keys[j];
    FilterNone(init, members[..n], keys[n]);
    assert after[|f|] == Bin(keys[n], [members[n]]);
    assert after == before + [Bin(keys[n], [members[n]])];
  }

  /** The classes partition the members: each member is filed once. */
  lemma ClassesHoldAll<T>(keys: seq<Json>, members: seq<T>)
    requires |keys| == |members|
    ensures var c := Classes(keys, members);
      Sum(seq(|c|, i requires 0 <= i < |c| => |c[i].members|)) == |members|
  {
    var c := Classes(keys, members);
    var sizes := seq(|c|, i requires 0 <= i < |c| => |c[i].members|);
    forall i | 0 <= i < |c|
      ensures sizes[i] == ClassSizes(keys)[i]
    {
      FilterSize(keys, members, keys[Firsts(keys)[i]]);
    }
    assert sizes == ClassSizes(keys);
    ClassesPartition(keys);
  }

  /** The table has one entry per distinct key: no two of its keys are the same key. */
  lemma TableKeysDistinct<T, R>(keyOf: T -> Json, entry: (T, Json) -> Result<R, PyError>,
                                table: seq<(Json, R)>, members: seq<T>, i: nat, j: nat)
    requires TableIs(keyOf, entry, table, members) && i < j < |table|
    ensures !SameKey(table[i].0, table[j].0)
  {
    FirstsDistinct(KeysOf(keyOf, members), i, j);
  }

  /** Every member's key is in the table. */
  lemma EveryKeyKnown<T, R>(keyOf: T -> Json, entry: (T, Json) -> Result<R, PyError>,
                            table: seq<(Json, R)>, members: seq<T>, k: nat)
    requires TableIs(keyOf, entry, table, members) && k < |members|
    ensures Known(table, keyOf(members[k]))
  {
    var keys := KeysOf(keyOf, members);
    FirstsCover(keys, k);
    var i :| 0 <= i < |Firsts(keys)| && Firsts(keys)[i] <= k && SameKey(keys[Firsts(keys)[i]], keys[k]);
    assert SameKey(table[i].0, keyOf(members[k]));
  }

  /** No two classes have the same key. */
  lemma ClassesDistinct<T>(keys: seq<Json>, members: seq<T>)
    requires |keys| == |members|
    ensures var c := Classes(keys, members);
      forall i, j :: 0 <= i < j < |c| ==> !SameKey(c[i].key, c[j].key)
  {
    var c := Classes(keys, members);
    forall i, j | 0 <= i < j < |c|
      ensures !SameKey(c[i].key, c[j].key)
    {
      FirstsDistinct(keys, i, j);
    }
  }

  /** Every key has its class, opened at or before it. */
  lemma ClassesCover<T>(keys: seq<Json>, members: seq<T>, k: nat)
    requires |keys| == |members| && k < |keys|
    ensures var c := Classes(keys, members);
      exists i :: 0 <= i < |c| && Firsts(keys)[i] <= k && SameKey(c[i].key, keys[k])
  {
    FirstsCover(keys, k);
  }
}

