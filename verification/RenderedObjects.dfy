/** Rendered objects, the id-keyed list that holds them, and the dummies that force an update. */
module RenderedObjects {
  import opened Ordering
  import opened Wrappers

  /** An object after it has been turned into JSON; compared field by field. */
  datatype RenderedObject = RenderedObject(id: string, typ: string, json: string)

  /** The contents of a list: every entry is stored under its own id. */
  type Cache = map<string, RenderedObject>

  ghost predicate IdKeyed(m: Cache) {
    forall k | k in m :: m[k].id == k
  }

  const CREATE_CONFLICT := "create conflict"
  const FAILED_UPDATE := "failed update"
  const FORCE_UPDATE := "force update"

  function DummyJson(id: string, dbg: string): string {
    "{\"externalId\":\"" + id + "\",\"dbg\":\"" + dbg + "\"}"
  }

  function Dummy(o: RenderedObject, dbg: string): RenderedObject {
    o.(json := DummyJson(o.id, dbg))
  }

  predicate IsDummy(o: RenderedObject) {
    o.json == DummyJson(o.id, CREATE_CONFLICT)
    || o.json == DummyJson(o.id, FAILED_UPDATE)
    || o.json == DummyJson(o.id, FORCE_UPDATE)
  }

  function Lookup(m: Cache, id: string): Option<RenderedObject> {
    if id in m then Some(m[id]) else None
  }

  /** The entries under the given keys, in that order. */
  function EntriesUnder(m: Cache, keys: seq<string>): (es: seq<RenderedObject>)
    requires forall i | 0 <= i < |keys| :: keys[i] in m
    ensures |es| == |keys| && forall i | 0 <= i < |es| :: es[i] == m[keys[i]]
  {
    seq(|keys|, i requires 0 <= i < |keys| => m[keys[i]])
  }

  /** The entries in the order in which the list is iterated. */
  function Entries(m: Cache): (es: seq<RenderedObject>)
    ensures |es| == |m|
  {
    assert |m.Keys| == |m|;
    EntriesUnder(m, SortedKeys(m.Keys))
  }

  /** Adding objects one after the other. */
  function AddAll(m: Cache, es: seq<RenderedObject>): Cache
    decreases |es|
  {
    if es == [] then m else AddAll(m[es[0].id := es[0]], es[1..])
  }

  /** What is stored under an id that is not added stays. */
  lemma {:induction false} AddAllOther(m: Cache, es: seq<RenderedObject>, k: string)
    requires forall i | 0 <= i < |es| :: es[i].id != k
    ensures (k in AddAll(m, es) <==> k in m) && (k in m ==> AddAll(m, es)[k] == m[k])
    decreases |es|
  {
    if es != [] { AddAllOther(m[es[0].id := es[0]], es[1..], k); }
  }

  /** Objects with different ids all end up in the list. */
  lemma {:induction false} AddAllNth(m: Cache, es: seq<RenderedObject>, i: nat)
    requires i < |es| && forall j, k | 0 <= j < k < |es| :: es[j].id != es[k].id
    ensures es[i].id in AddAll(m, es) && AddAll(m, es)[es[i].id] == es[i]
    decreases |es|
  {
    var next := m[es[0].id := es[0]];
    if i == 0 {
      AddAllOther(next, es[1..], es[0].id);
    } else {
      AddAllNth(next, es[1..], i - 1);
    }
  }

  lemma EntryOf(m: Cache, k: string)
    requires IdKeyed(m) && k in m
    ensures exists i :: 0 <= i < |Entries(m)| && Entries(m)[i].id == k
  {
    var keys := SortedKeys(m.Keys);
    assert k in keys;
    var i :| 0 <= i < |keys| && keys[i] == k;
    assert Entries(m)[i] == m[k];
  }

  lemma EntriesAreUnderKeys(m: Cache)
    requires IdKeyed(m)
    ensures forall i | 0 <= i < |Entries(m)| ::
        Entries(m)[i].id == SortedKeys(m.Keys)[i] && Entries(m)[i].id in m && m[Entries(m)[i].id] == Entries(m)[i]
  {
    hide InOrder;
    var keys := SortedKeys(m.Keys);
    forall i | 0 <= i < |Entries(m)|
      ensures Entries(m)[i].id == keys[i] && Entries(m)[i].id in m && m[Entries(m)[i].id] == Entries(m)[i]
    {
      assert keys[i] in m;
    }
  }

  /** The entries of a list are its objects, one for each id. */
  lemma EntriesExact(m: Cache)
    requires IdKeyed(m)
    ensures forall i, j | 0 <= i < j < |Entries(m)| :: Entries(m)[i].id != Entries(m)[j].id
    ensures forall i | 0 <= i < |Entries(m)| :: Entries(m)[i].id in m && m[Entries(m)[i].id] == Entries(m)[i]
    ensures forall k | k in m :: exists i :: 0 <= i < |Entries(m)| && Entries(m)[i].id == k
  {
    hide InOrder, Entries;
    var es, keys := Entries(m), SortedKeys(m.Keys);
    EntriesAreUnderKeys(m);
    forall i, j | 0 <= i < j < |es| ensures es[i].id != es[j].id {
      assert keys[i] != keys[j];
    }
    forall k | k in m ensures exists i :: 0 <= i < |Entries(m)| && Entries(m)[i].id == k { EntryOf(m, k); }
  }

  /** Adding every entry of a list to an empty one rebuilds it. */
  lemma AddAllEntries(m: Cache)
    requires IdKeyed(m)
    ensures AddAll(map[], Entries(m)) == m
  {
    hide AddAll, Entries, InOrder;
    var es := Entries(m);
    EntriesExact(m);
    var r := AddAll(map[], es);
    forall k | k in m ensures k in r && r[k] == m[k] {
      var i :| 0 <= i < |es| && es[i].id == k;
      AddAllNth(map[], es, i);
    }
    forall k | k !in m ensures k !in r {
      AddAllOther(map[], es, k);
    }
    assert r.Keys == m.Keys;
  }

  class RenderedObjectList {
    var objects: Cache

    constructor ()
      ensures objects == map[]
    {
      objects := map[];
    }

    method AddObject(o: RenderedObject)
      modifies this
      ensures objects == old(objects)[o.id := o]
      ensures IdKeyed(old(objects)) ==> IdKeyed(objects)
    {
      objects := objects[o.id := o];
    }

    method GetObject(id: string) returns (r: Option<RenderedObject>)
      ensures r.None? <==> id !in objects
      ensures r.Some? ==> r.value == objects[id]
    {
      r := if id in objects then Some(objects[id]) else None;
    }

    method RemoveObject(id: string)
      modifies this
      ensures objects == old(objects) - {id}
    {
      objects := objects - {id};
    }
  }
}
