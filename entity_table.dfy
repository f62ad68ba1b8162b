/**
 * The table logic the three mock services share: a store is a sequence of records, each
 * carrying a numeric `Id`. Lookup is the first record whose `Id` is strictly equal to the
 * requested one; a new record gets one more than the largest `Id` present (1 in an empty
 * table); an update merges the patch over the record and puts the original `Id` back;
 * a delete splices the record out.
 */
module EntityTable {
  import opened JsValue

  /** `r.Id === id`. */
  predicate HasId(r: Record, id: int) {
    "Id" in r && r["Id"] == Num(id)
  }

  predicate HasNumericId(r: Record) {
    "Id" in r && r["Id"].Num?
  }

  function IdOf(r: Record): int
    requires HasNumericId(r)
  {
    r["Id"].n
  }

  /** What `Math.max` over the Ids needs: every record's Id is a number. */
  ghost predicate AllNumericIds(s: seq<Record>) {
    forall i :: 0 <= i < |s| ==> HasNumericId(s[i])
  }

  /** No two records share an Id. */
  ghost predicate UniqueIds(s: seq<Record>) {
    AllNumericIds(s) && forall i, j :: 0 <= i < j < |s| ==> IdOf(s[i]) != IdOf(s[j])
  }

  /** `s.findIndex(r => r.Id === id)`: the first position holding id, or -1. */
  function FindIndex(s: seq<Record>, id: int): (i: int)
    ensures -1 <= i < |s|
    ensures i == -1 <==> forall j :: 0 <= j < |s| ==> !HasId(s[j], id)
    ensures 0 <= i ==> HasId(s[i], id) && forall j :: 0 <= j < i ==> !HasId(s[j], id)
  {
    if s == [] then -1
    else if HasId(s[0], id) then 0
    else
      var k := FindIndex(s[1..], id);
      if k == -1 then -1 else k + 1
  }

  /** `Math.max(...s.map(r => r.Id))` on a non-empty table. */
  function MaxId(s: seq<Record>): (m: int)
    requires |s| > 0 && AllNumericIds(s)
    ensures forall i :: 0 <= i < |s| ==> IdOf(s[i]) <= m
    ensures exists i :: 0 <= i < |s| && IdOf(s[i]) == m
  {
    var last := IdOf(s[|s| - 1]);
    if |s| == 1 then last
    else
      var m := MaxId(s[..|s| - 1]);
      assert forall i :: 0 <= i < |s| - 1 ==> s[..|s| - 1][i] == s[i];
      if m < last then last else m
  }

  /** The Id `create` assigns: one more than the largest present, or 1 when the table is empty. */
  function NextId(s: seq<Record>): (id: int)
    requires AllNumericIds(s)
    ensures forall i :: 0 <= i < |s| ==> IdOf(s[i]) < id
    ensures |s| == 0 ==> id == 1
    ensures |s| > 0 ==> exists i :: 0 <= i < |s| && IdOf(s[i]) == id - 1
  {
    if |s| > 0 then MaxId(s) + 1 else 1
  }

  /** `{...current, ...patch, Id: current.Id}`: the patch's properties win, except `Id`. */
  function Merge(current: Record, patch: Record): (r: Record)
    requires "Id" in current
    ensures r.Keys == current.Keys + patch.Keys
    ensures r["Id"] == current["Id"]
    ensures forall k :: k in patch && k != "Id" ==> r[k] == patch[k]
    ensures forall k :: k in current && k !in patch ==> r[k] == current[k]
  {
    (current + patch)["Id" := current["Id"]]
  }

  /** `s.splice(i, 1)`: the record at i removed, the others kept in order. */
  function RemoveAt(s: seq<Record>, i: nat): (r: seq<Record>)
    requires i < |s|
    ensures |r| == |s| - 1
    ensures forall j :: 0 <= j < i ==> r[j] == s[j]
    ensures forall j :: i <= j < |r| ==> r[j] == s[j + 1]
  {
    s[..i] + s[i + 1..]
  }

  // ---------------------------------------------------------------------------
  // Properties of the table operations
  // ---------------------------------------------------------------------------

  /** A record created with NextId is the one a lookup of that Id finds, at the end. */
  lemma CreateThenFind(s: seq<Record>, r: Record)
    requires AllNumericIds(s)
    ensures FindIndex(s + [r["Id" := Num(NextId(s))]], NextId(s)) == |s|
  {
    var id := NextId(s);
    var t := s + [r["Id" := Num(id)]];
    assert HasId(t[|s|], id);
    assert forall j :: 0 <= j < |s| ==> t[j] == s[j];
  }

  /** Appending a record with the next Id keeps the Ids unique. */
  lemma CreateKeepsUnique(s: seq<Record>, r: Record)
    requires UniqueIds(s)
    ensures UniqueIds(s + [r["Id" := Num(NextId(s))]])
  {
    var t := s + [r["Id" := Num(NextId(s))]];
    assert forall j :: 0 <= j < |s| ==> t[j] == s[j];
  }

  /** Merging a patch keeps the record's Id, so the table's Ids do not change. */
  lemma UpdateKeepsIds(s: seq<Record>, i: nat, patch: Record)
    requires i < |s| && AllNumericIds(s)
    ensures var t := s[i := Merge(s[i], patch)];
            AllNumericIds(t) && forall j :: 0 <= j < |s| ==> IdOf(t[j]) == IdOf(s[j])
  {
  }

  lemma UpdateKeepsUnique(s: seq<Record>, i: nat, patch: Record)
    requires i < |s| && UniqueIds(s)
    ensures UniqueIds(s[i := Merge(s[i], patch)])
  {
    UpdateKeepsIds(s, i, patch);
  }

  lemma DeleteKeepsNumericIds(s: seq<Record>, i: nat)
    requires i < |s| && AllNumericIds(s)
    ensures AllNumericIds(RemoveAt(s, i))
  {
    var t := RemoveAt(s, i);
    forall j | 0 <= j < |t| ensures HasNumericId(t[j]) {
      assert t[j] == s[if j < i then j else j + 1];
    }
  }

  lemma DeleteKeepsUnique(s: seq<Record>, i: nat)
    requires i < |s| && UniqueIds(s)
    ensures UniqueIds(RemoveAt(s, i))
  {
    var t := RemoveAt(s, i);
    forall a, b | 0 <= a < b < |t| ensures IdOf(t[a]) != IdOf(t[b]) {
      var a' := if a < i then a else a + 1;
      var b' := if b < i then b else b + 1;
      assert t[a] == s[a'] && t[b] == s[b'];
    }
  }

  /** With unique Ids, a deleted Id can no longer be found. */
  lemma DeleteThenNotFound(s: seq<Record>, id: int)
    requires UniqueIds(s) && FindIndex(s, id) >= 0
    ensures FindIndex(RemoveAt(s, FindIndex(s, id)), id) == -1
  {
    var i := FindIndex(s, id);
    var t := RemoveAt(s, i);
    forall j | 0 <= j < |t| ensures !HasId(t[j], id) {
      if j >= i {
        assert t[j] == s[j + 1];
        assert IdOf(s[i]) != IdOf(s[j + 1]);
      }
    }
  }

  /** Ids are re-issued: creating a record and deleting it again gives the next create
      the very same Id, because the maximum is recomputed from what is left. */
  lemma DeletedIdIsReissued(s: seq<Record>, r: Record)
    requires AllNumericIds(s)
    ensures var created := r["Id" := Num(NextId(s))];
            var t := s + [created];
            AllNumericIds(t)
            && FindIndex(t, IdOf(created)) == |s|
            && NextId(RemoveAt(t, |s|)) == IdOf(created)
  {
    var created := r["Id" := Num(NextId(s))];
    var t := s + [created];
    CreateThenFind(s, r);
    assert RemoveAt(t, |s|) == s;
  }
}
