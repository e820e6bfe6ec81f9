/** Values and records of the catalogue document, and the list operations
    the store applies to its lists of records: `findIndex` by id, `filter`
    by category, `find` by id, the shallow merge `{...r, ...patch}`, and the
    "patch the first match" / "splice out the first match" edits. */
module Records {

  datatype Option<+T> = None | Some(value: T)

  /** The JSON values a record field holds. Numbers are integers in this model. */
  datatype Value =
    | Null
    | Bool(b: bool)
    | Num(n: int)
    | Str(s: string)
    | Arr(items: seq<Value>)

  /** A plain object: field name to value. Vehicles, residences and
      reservations are all records; they differ only in the fields they carry. */
  type Record = map<string, Value>

  /** `r.id === id`: the field is present and is that number. A string id
      such as "12" never matches. */
  predicate HasId(r: Record, id: int) {
    "id" in r && r["id"] == Num(id)
  }

  /** `r.categorie === cat` */
  predicate HasCategory(r: Record, cat: string) {
    "categorie" in r && r["categorie"] == Str(cat)
  }

  /** Some record of `rs` has this id. */
  predicate Contains(rs: seq<Record>, id: int) {
    exists i :: 0 <= i < |rs| && HasId(rs[i], id)
  }

  /** Position `k` holds the first record of `rs` with this id. */
  predicate IsFirstMatch(rs: seq<Record>, k: int, id: int) {
    0 <= k < |rs| && HasId(rs[k], id) && forall j :: 0 <= j < k ==> !HasId(rs[j], id)
  }

  /** At most one record of `rs` carries this id. */
  predicate UniqueId(rs: seq<Record>, id: int) {
    forall i, j :: 0 <= i < j < |rs| && HasId(rs[i], id) ==> !HasId(rs[j], id)
  }

  /** `rs.findIndex(r => r.id === id)`: the index of the first record with
      that id, or -1 when there is none. */
  function FindIndex(rs: seq<Record>, id: int): (k: int)
    ensures -1 <= k < |rs|
    ensures k == -1 <==> !Contains(rs, id)
    ensures k != -1 ==> IsFirstMatch(rs, k, id)
  {
    if |rs| == 0 then -1
    else if HasId(rs[0], id) then 0
    else
      var k := FindIndex(rs[1..], id);
      if k == -1 then -1 else k + 1
  }

  /** `rs.find(r => r.id === id)`: the first record with that id, if any. */
  function FindById(rs: seq<Record>, id: int): (r: Option<Record>)
    ensures r.None? <==> !Contains(rs, id)
    ensures r.Some? ==> exists k :: IsFirstMatch(rs, k, id) && rs[k] == r.value
  {
    var k := FindIndex(rs, id);
    if k == -1 then None else Some(rs[k])
  }

  /** `rs.filter(r => r.categorie === cat)`: every record of that category,
      each as often as it occurs, and no other. */
  function FilterCategory(rs: seq<Record>, cat: string): (r: seq<Record>)
    ensures |r| <= |rs|
    ensures forall i :: 0 <= i < |r| ==> HasCategory(r[i], cat)
    ensures forall x :: multiset(r)[x] == if HasCategory(x, cat) then multiset(rs)[x] else 0
  {
    if |rs| == 0 then []
    else
      assert rs == [rs[0]] + rs[1..];
      if HasCategory(rs[0], cat) then [rs[0]] + FilterCategory(rs[1..], cat)
      else FilterCategory(rs[1..], cat)
  }

  /** `{...r, ...patch}`: a shallow merge in which the patch's fields win. */
  function Merge(r: Record, patch: Record): (m: Record)
    ensures m.Keys == r.Keys + patch.Keys
    ensures forall k :: k in patch ==> m[k] == patch[k]
    ensures forall k :: k in r && k !in patch ==> m[k] == r[k]
  {
    r + patch
  }

  /** Replace the first record with this id by its merge with `patch`
      (`rs[i] = {...rs[i], ...patch}` at the index findIndex returns). */
  function PatchFirst(rs: seq<Record>, id: int, patch: Record): (r: seq<Record>)
    ensures |r| == |rs|
    ensures forall k :: 0 <= k < |rs| ==>
      r[k] == if IsFirstMatch(rs, k, id) then Merge(rs[k], patch) else rs[k]
  {
    var k := FindIndex(rs, id);
    if k == -1 then rs else rs[k := Merge(rs[k], patch)]
  }

  /** `rs.splice(i, 1)` at the index findIndex returns, when there is one. */
  function RemoveFirst(rs: seq<Record>, id: int): (r: seq<Record>)
    ensures !Contains(rs, id) ==> r == rs
    ensures forall k :: IsFirstMatch(rs, k, id) ==> r == rs[..k] + rs[k + 1..]
    ensures |r| == if Contains(rs, id) then |rs| - 1 else |rs|
  {
    var k := FindIndex(rs, id);
    if k == -1 then rs else rs[..k] + rs[k + 1..]
  }

  // ---------------------------------------------------------------------
  // Lemmas

  /** There is only one first match. */
  lemma FirstMatchUnique(rs: seq<Record>, k: int, k': int, id: int)
    requires IsFirstMatch(rs, k, id) && IsFirstMatch(rs, k', id)
    ensures k == k'
  {
  }

  /** Filtering keeps document order: it distributes over concatenation. */
  lemma {:induction false} FilterCategoryAppend(a: seq<Record>, b: seq<Record>, cat: string)
    ensures FilterCategory(a + b, cat) == FilterCategory(a, cat) + FilterCategory(b, cat)
  {
    if |a| == 0 {
      assert a + b == b;
    } else {
      assert (a + b)[0] == a[0];
      assert (a + b)[1..] == a[1..] + b;
      FilterCategoryAppend(a[1..], b, cat);
    }
  }

  /** Searching a concatenation finds the match in the first part if there is
      one, and otherwise the match in the second part. */
  lemma FindIndexAppend(a: seq<Record>, b: seq<Record>, id: int)
    ensures FindIndex(a + b, id) ==
      if Contains(a, id) then FindIndex(a, id)
      else if Contains(b, id) then |a| + FindIndex(b, id)
      else -1
  {
    var k := FindIndex(a + b, id);
    if Contains(a, id) {
      var i := FindIndex(a, id);
      assert IsFirstMatch(a + b, i, id);
      FirstMatchUnique(a + b, k, i, id);
    } else if Contains(b, id) {
      var i := FindIndex(b, id);
      assert IsFirstMatch(a + b, |a| + i, id) by {
        forall j | 0 <= j < |a| + i ensures !HasId((a + b)[j], id) {
          if j >= |a| { assert (a + b)[j] == b[j - |a|]; }
        }
      }
      FirstMatchUnique(a + b, k, |a| + i, id);
    } else {
      forall j | 0 <= j < |a + b| ensures !HasId((a + b)[j], id) {
        if j >= |a| { assert (a + b)[j] == b[j - |a|]; }
      }
    }
  }

  /** `[...a, ...b].find(...)`: a match in `a` shadows every match in `b`. */
  lemma FindByIdAppend(a: seq<Record>, b: seq<Record>, id: int)
    ensures FindById(a + b, id) == if Contains(a, id) then FindById(a, id) else FindById(b, id)
  {
    FindIndexAppend(a, b, id);
    if !Contains(a, id) && Contains(b, id) {
      assert (a + b)[|a| + FindIndex(b, id)] == b[FindIndex(b, id)];
    }
  }

  /** Splicing the first match out of a concatenation takes it from the
      first part when that part has a match, and from the second otherwise. */
  lemma RemoveFirstAppend(a: seq<Record>, b: seq<Record>, id: int)
    ensures RemoveFirst(a + b, id) ==
      if Contains(a, id) then RemoveFirst(a, id) + b else a + RemoveFirst(b, id)
  {
    FindIndexAppend(a, b, id);
    if Contains(a, id) {
      RemoveFirstAppendLeft(a, b, id, FindIndex(a, id));
    } else if Contains(b, id) {
      RemoveFirstAppendRight(a, b, id, FindIndex(b, id));
    } else {
      assert FindIndex(a + b, id) == -1;
    }
  }

  lemma RemoveFirstAppendLeft(a: seq<Record>, b: seq<Record>, id: int, k: int)
    requires 0 <= k < |a| && FindIndex(a, id) == k && FindIndex(a + b, id) == k
    ensures RemoveFirst(a + b, id) == RemoveFirst(a, id) + b
  {
    SpliceAppendLeft(a, b, k);
  }

  lemma RemoveFirstAppendRight(a: seq<Record>, b: seq<Record>, id: int, k: int)
    requires 0 <= k < |b| && FindIndex(b, id) == k && FindIndex(a + b, id) == |a| + k
    ensures RemoveFirst(a + b, id) == a + RemoveFirst(b, id)
  {
    SpliceAppendRight(a, b, k);
  }

  lemma SpliceAppendLeft<T>(a: seq<T>, b: seq<T>, k: int)
    requires 0 <= k < |a|
    ensures (a + b)[..k] + (a + b)[k + 1..] == (a[..k] + a[k + 1..]) + b
  {
    assert (a + b)[..k] == a[..k];
    assert (a + b)[k + 1..] == a[k + 1..] + b;
  }

  lemma SpliceAppendRight<T>(a: seq<T>, b: seq<T>, k: int)
    requires 0 <= k < |b|
    ensures (a + b)[..|a| + k] + (a + b)[|a| + k + 1..] == a + (b[..k] + b[k + 1..])
  {
    assert (a + b)[..|a| + k] == a + b[..k];
    assert (a + b)[|a| + k + 1..] == b[k + 1..];
  }

  /** A record appended after every other record with its id is found by id. */
  lemma FindAppended(rs: seq<Record>, x: Record, id: int)
    requires HasId(x, id) && !Contains(rs, id)
    ensures FindById(rs + [x], id) == Some(x)
  {
    FindByIdAppend(rs, [x], id);
    assert IsFirstMatch([x], 0, id);
  }

  /** Merging a one-field patch is assigning that field (`r.key = v`). */
  lemma MergeOneField(r: Record, key: string, v: Value)
    ensures Merge(r, map[key := v]) == r[key := v]
  {
  }

  /** A patch that leaves the id alone keeps the first match where it was,
      so the patched record is what a later lookup finds. */
  lemma PatchFirstKeepsLookup(rs: seq<Record>, id: int, patch: Record)
    requires "id" !in patch || patch["id"] == Num(id)
    ensures FindById(PatchFirst(rs, id, patch), id) ==
      match FindById(rs, id)
      case Some(x) => Some(Merge(x, patch))
      case None => None
  {
    var r := PatchFirst(rs, id, patch);
    if Contains(rs, id) {
      var k := FindIndex(rs, id);
      assert IsFirstMatch(r, k, id);
      FirstMatchUnique(r, FindIndex(r, id), k, id);
    } else {
      assert r == rs;
    }
  }

  /** When at most one record carries the id, splicing out the first match
      leaves no record with that id. */
  lemma RemoveUniqueLeavesNone(rs: seq<Record>, id: int)
    requires UniqueId(rs, id)
    ensures !Contains(RemoveFirst(rs, id), id)
  {
    if Contains(rs, id) {
      var k := FindIndex(rs, id);
      var r := RemoveFirst(rs, id);
      forall j | 0 <= j < |r| ensures !HasId(r[j], id) {
        if j >= k { assert r[j] == rs[j + 1]; }
        else { assert r[j] == rs[j]; }
      }
    }
  }
}
