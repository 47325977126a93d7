/** Lists of objects by uid, with indices over their attributes that are built when first asked for. */
module ObjectLists {
  import opened Ordering
  import opened Wrappers

  /** An object as it is once it has been put in a list: its attributes no longer change. */
  class BaseObject {
    const attributes: map<string, seq<string>>

    constructor (attributes: map<string, seq<string>>)
      ensures this.attributes == attributes
    {
      this.attributes := attributes;
    }

    function GetValues(attribute: string): seq<string> {
      if attribute in attributes then attributes[attribute] else []
    }
  }

  type Objects = map<string, BaseObject>

  // ---------- the linear scan ----------

  function Repeat(o: BaseObject, n: nat): seq<BaseObject> {
    seq(n, _ => o)
  }

  /** How often an object has a value. */
  function Times(o: BaseObject, attribute: string, value: string): nat {
    multiset(o.GetValues(attribute))[value]
  }

  /** The objects under some keys, each as often as it has the value. */
  function Scan(m: Objects, keys: seq<string>, attribute: string, value: string): seq<BaseObject>
    requires forall i | 0 <= i < |keys| :: keys[i] in m
  {
    if keys == [] then []
    else Repeat(m[keys[0]], Times(m[keys[0]], attribute, value)) + Scan(m, keys[1..], attribute, value)
  }

  function ScanAll(m: Objects, attribute: string, value: string): seq<BaseObject> {
    Scan(m, SortedKeys(m.Keys), attribute, value)
  }

  /** The uids under which an object is held. */
  function Holders(m: Objects, o: BaseObject): set<string> {
    set k | k in m && m[k] == o
  }

  predicate NoObjectTwice(m: Objects) {
    forall j, k | j in m && k in m && m[j] == m[k] :: j == k
  }

  lemma RepeatCounts(o: BaseObject, n: nat, x: BaseObject)
    ensures multiset(Repeat(o, n))[x] == if x == o then n else 0
    decreases n
  {
    if n > 0 {
      RepeatCounts(o, n - 1, x);
      assert Repeat(o, n) == Repeat(o, n - 1) + [o];
    }
  }

  /** Those among some keys. */
  ghost function HoldersAmong(m: Objects, keys: seq<string>, o: BaseObject): set<string>
    requires forall i | 0 <= i < |keys| :: keys[i] in m
  {
    set k | k in keys && m[k] == o
  }

  lemma AmongNext(m: Objects, keys: seq<string>, o: BaseObject)
    requires keys != [] && Distinct(keys) && forall i | 0 <= i < |keys| :: keys[i] in m
    ensures |HoldersAmong(m, keys, o)| == |HoldersAmong(m, keys[1..], o)| + if m[keys[0]] == o then 1 else 0
  {
    var rest := HoldersAmong(m, keys[1..], o);
    assert forall k :: k in keys <==> k == keys[0] || k in keys[1..];
    if m[keys[0]] == o {
      assert keys[0] !in keys[1..];
      assert HoldersAmong(m, keys, o) == rest + {keys[0]};
    } else {
      assert HoldersAmong(m, keys, o) == rest;
    }
  }

  lemma {:induction false} ScanCountsUnder(m: Objects, keys: seq<string>, attribute: string, value: string,
                                           x: BaseObject)
    requires Distinct(keys) && forall i | 0 <= i < |keys| :: keys[i] in m
    ensures multiset(Scan(m, keys, attribute, value))[x] == |HoldersAmong(m, keys, x)| * Times(x, attribute, value)
    decreases |keys|
  {
    hide Times, Repeat, HoldersAmong;
    if keys == [] {
      assert HoldersAmong(m, keys, x) == {} by { NoneAmong(m, x); }
    } else {
      var o := m[keys[0]];
      RepeatCounts(o, Times(o, attribute, value), x);
      ScanCountsUnder(m, keys[1..], attribute, value, x);
      AmongNext(m, keys, x);
      Distribute(|HoldersAmong(m, keys[1..], x)|, Times(x, attribute, value));
    }
  }

  lemma HoldersAmongAll(m: Objects, keys: seq<string>, o: BaseObject)
    requires forall k :: k in keys <==> k in m
    ensures HoldersAmong(m, keys, o) == Holders(m, o)
  {
  }

  lemma NoneAmong(m: Objects, o: BaseObject)
    ensures HoldersAmong(m, [], o) == {}
  {
  }

  lemma Distribute(n: nat, t: nat)
    ensures (n + 1) * t == n * t + t
  {
  }

  /** What a scan counts. */
  lemma ScanCounts(m: Objects, attribute: string, value: string, x: BaseObject)
    ensures multiset(ScanAll(m, attribute, value))[x] == |Holders(m, x)| * Times(x, attribute, value)
  {
    hide Scan, InOrder, Times, HoldersAmong, Holders;
    var keys := SortedKeys(m.Keys);
    ScanCountsUnder(m, keys, attribute, value, x);
    HoldersAmongAll(m, keys, x);
  }

  lemma SameCounts(a: multiset<BaseObject>, b: multiset<BaseObject>)
    requires forall x: BaseObject | x in a || x in b :: a[x] == b[x]
    ensures a == b
  {
    assert a <= b by {
      assert a - b == multiset{};
    }
  }

  // ---------- adding and removing ----------

  /** `s` without any occurrence of `o`. */
  function Without(s: seq<BaseObject>, o: BaseObject): seq<BaseObject> {
    if s == [] then [] else (if s[0] == o then [] else [s[0]]) + Without(s[1..], o)
  }

  lemma {:induction false} WithoutCounts(s: seq<BaseObject>, o: BaseObject, x: BaseObject)
    ensures multiset(Without(s, o))[x] == if x == o then 0 else multiset(s)[x]
  {
    if s != [] {
      WithoutCounts(s[1..], o, x);
      assert s == [s[0]] + s[1..];
    }
  }

  lemma HoldersAfterAdd(m: Objects, uid: string, o: BaseObject, x: BaseObject)
    requires uid !in m
    ensures |Holders(m[uid := o], x)| == |Holders(m, x)| + if x == o then 1 else 0
  {
    if x == o {
      assert Holders(m[uid := o], x) == Holders(m, x) + {uid};
    } else {
      assert Holders(m[uid := o], x) == Holders(m, x);
    }
  }

  /** Adding under a new uid adds to every scan what the object has of the value. */
  lemma AddAgrees(m: Objects, uid: string, o: BaseObject, attribute: string, value: string, found: seq<BaseObject>)
    requires uid !in m && multiset(found) == multiset(ScanAll(m, attribute, value))
    ensures multiset(found + Repeat(o, Times(o, attribute, value)))
         == multiset(ScanAll(m[uid := o], attribute, value))
  {
    hide Times, Repeat, ScanAll, Holders;
    var t := Times(o, attribute, value);
    var index, scan := multiset(found + Repeat(o, t)), multiset(ScanAll(m[uid := o], attribute, value));
    forall x: BaseObject ensures index[x] == scan[x] {
      ScanCounts(m, attribute, value, x);
      ScanCounts(m[uid := o], attribute, value, x);
      HoldersAfterAdd(m, uid, o, x);
      RepeatCounts(o, t, x);
      Distribute(|Holders(m, x)|, Times(x, attribute, value));
    }
    SameCounts(index, scan);
  }

  lemma HoldersAfterRemove(m: Objects, uid: string, x: BaseObject)
    requires uid in m
    ensures |Holders(m - {uid}, x)| == |Holders(m, x)| - if x == m[uid] then 1 else 0
  {
    if x == m[uid] {
      assert Holders(m, x) == Holders(m - {uid}, x) + {uid};
    } else {
      assert Holders(m - {uid}, x) == Holders(m, x);
    }
  }

  /** Removing takes every occurrence of the object out of the index. That agrees with a scan exactly if the
      object does not have the value, or was held under no other uid. */
  lemma RemoveAgreesIff(m: Objects, uid: string, attribute: string, value: string, found: seq<BaseObject>)
    requires uid in m && multiset(found) == multiset(ScanAll(m, attribute, value))
    ensures multiset(Without(found, m[uid])) == multiset(ScanAll(m - {uid}, attribute, value))
      <==> Times(m[uid], attribute, value) == 0 || Holders(m, m[uid]) == {uid}
  {
    hide Times, ScanAll, Holders, Without;
    var o, t := m[uid], Times(m[uid], attribute, value);
    var left := |Holders(m - {uid}, o)|;
    var index, scan := multiset(Without(found, o)), multiset(ScanAll(m - {uid}, attribute, value));
    forall x: BaseObject ensures index[x] == scan[x] - if x == o then left * t else 0 {
      ScanCounts(m, attribute, value, x);
      ScanCounts(m - {uid}, attribute, value, x);
      HoldersAfterRemove(m, uid, x);
      WithoutCounts(found, o, x);
      if x == o { Distribute(left, t); }
    }
    HeldOnce(m, uid);
    Product(left, t);
    if left * t == 0 {
      assert forall x: BaseObject :: index[x] == scan[x];
      SameCounts(index, scan);
    } else {
      assert index[o] != scan[o];
    }
  }

  lemma HeldOnce(m: Objects, uid: string)
    requires uid in m
    ensures |Holders(m - {uid}, m[uid])| == 0 <==> Holders(m, m[uid]) == {uid}
  {
    assert Holders(m, m[uid]) == Holders(m - {uid}, m[uid]) + {uid};
    assert uid !in Holders(m - {uid}, m[uid]);
  }

  lemma Product(a: nat, b: nat)
    ensures a * b == 0 <==> a == 0 || b == 0
  {
  }

  // ---------- an index ----------

  type Idx = map<string, seq<BaseObject>>

  function Found(idx: Idx, value: string): seq<BaseObject> {
    if value in idx then idx[value] else []
  }

  /** An object put in an index under some values. */
  function Added(idx: Idx, values: seq<string>, o: BaseObject): Idx
    decreases |values|
  {
    if |values| == 0 then idx else Added(idx[values[0] := Found(idx, values[0]) + [o]], values[1..], o)
  }

  /** All its occurrences under them taken out. */
  function Removed(idx: Idx, values: seq<string>, o: BaseObject): Idx
    decreases |values|
  {
    if values == [] then idx else Removed(idx[values[0] := Without(Found(idx, values[0]), o)], values[1..], o)
  }

  lemma FoundAfter(idx: Idx, v: string, objs: seq<BaseObject>, value: string)
    ensures Found(idx[v := objs], value) == if value == v then objs else Found(idx, value)
  {
  }

  lemma {:induction false} AddedFound(idx: Idx, values: seq<string>, o: BaseObject, value: string)
    ensures Found(Added(idx, values, o), value) == Found(idx, value) + Repeat(o, multiset(values)[value])
    decreases |values|
  {
    hide Found;
    if values == [] {
      assert Repeat(o, 0) == [];
      assert Found(idx, value) + [] == Found(idx, value);
    } else {
      var next := idx[values[0] := Found(idx, values[0]) + [o]];
      AddedFound(next, values[1..], o, value);
      FoundAfter(idx, values[0], Found(idx, values[0]) + [o], value);
      assert values == [values[0]] + values[1..];
      var n := multiset(values[1..])[value];
      if value == values[0] { assert [o] + Repeat(o, n) == Repeat(o, n + 1); }
    }
  }

  lemma {:induction false} WithoutTwice(s: seq<BaseObject>, o: BaseObject)
    ensures Without(Without(s, o), o) == Without(s, o)
  {
    if s != [] {
      var rest := Without(s[1..], o);
      WithoutTwice(s[1..], o);
      assert s[0] != o ==> ([s[0]] + rest)[0] == s[0] && ([s[0]] + rest)[1..] == rest;
      assert Without(s, o) == if s[0] == o then rest else [s[0]] + rest;
    }
  }

  lemma {:induction false} RemovedFound(idx: Idx, values: seq<string>, o: BaseObject, value: string)
    ensures Found(Removed(idx, values, o), value)
         == if multiset(values)[value] > 0 then Without(Found(idx, value), o) else Found(idx, value)
    decreases |values|
  {
    hide Without;
    if values != [] {
      var next := idx[values[0] := Without(Found(idx, values[0]), o)];
      RemovedFound(next, values[1..], o, value);
      WithoutTwice(Found(idx, value), o);
      assert values == [values[0]] + values[1..];
    }
  }

  class ObjectIndex {
    const attribute: string
    var idx: Idx

    constructor (attribute: string)
      ensures this.attribute == attribute && idx == map[]
    {
      this.attribute := attribute;
      idx := map[];
    }

    method Lookup(value: string) returns (found: seq<BaseObject>)
      ensures found == Found(idx, value)
    {
      if value in idx { return idx[value]; } else { return []; }
    }

    method Add(entry: BaseObject)
      modifies this
      ensures idx == Added(old(idx), entry.GetValues(attribute), entry)
    {
      var values := entry.GetValues(attribute);
      for i := 0 to |values|
        invariant Added(idx, values[i..], entry) == Added(old(idx), values, entry)
      {
        var v := values[i];
        assert values[i..][0] == v && values[i..][1..] == values[i + 1..];
        idx := idx[v := Found(idx, v) + [entry]];
      }
    }

    method Remove(entry: BaseObject)
      modifies this
      ensures idx == Removed(old(idx), entry.GetValues(attribute), entry)
    {
      var values := entry.GetValues(attribute);
      for i := 0 to |values|
        invariant Removed(idx, values[i..], entry) == Removed(old(idx), values, entry)
      {
        var v := values[i];
        assert values[i..][0] == v && values[i..][1..] == values[i + 1..];
        var objs := EraseAll(Found(idx, v), entry);
        idx := idx[v := objs];
      }
    }
  }

  /** Erases while iterating. */
  method EraseAll(all: seq<BaseObject>, entry: BaseObject) returns (objs: seq<BaseObject>)
    ensures objs == Without(all, entry)
  {
    objs := all;
    var itr := 0;
    while itr < |objs|
      invariant itr <= |objs|
      invariant Without(all, entry) == objs[..itr] + Without(objs[itr..], entry)
      decreases |objs| - itr
    {
      assert objs[itr..][1..] == objs[itr + 1..];
      if objs[itr] == entry {
        assert (objs[..itr] + objs[itr + 1..])[itr..] == objs[itr + 1..];
        objs := objs[..itr] + objs[itr + 1..];
      } else {
        assert objs[..itr] + [objs[itr]] == objs[..itr + 1];
        itr := itr + 1;
      }
    }
  }

  // ---------- the list ----------

  /** For every value, the index finds what a scan of the list finds. */
  ghost predicate IndexAgrees(idx: Idx, m: Objects, attribute: string) {
    forall v :: multiset(Found(idx, v)) == multiset(ScanAll(m, attribute, v))
  }

  lemma AddedAgrees(idx: Idx, m: Objects, attribute: string, uid: string, o: BaseObject)
    requires IndexAgrees(idx, m, attribute) && uid !in m
    ensures IndexAgrees(Added(idx, o.GetValues(attribute), o), m[uid := o], attribute)
  {
    hide Added, ScanAll, Found, Repeat;
    var values := o.GetValues(attribute);
    forall v ensures multiset(Found(Added(idx, values, o), v)) == multiset(ScanAll(m[uid := o], attribute, v)) {
      AddedFound(idx, values, o, v);
      AddAgrees(m, uid, o, attribute, v, Found(idx, v));
    }
  }

  lemma RemovedAgrees(idx: Idx, m: Objects, attribute: string, uid: string)
    requires IndexAgrees(idx, m, attribute) && uid in m && NoObjectTwice(m)
    ensures IndexAgrees(Removed(idx, m[uid].GetValues(attribute), m[uid]), m - {uid}, attribute)
  {
    hide Removed, ScanAll, Found, Without, IndexAgrees;
    var values := m[uid].GetValues(attribute);
    forall v ensures
      multiset(Found(Removed(idx, values, m[uid]), v)) == multiset(ScanAll(m - {uid}, attribute, v))
    {
      RemovedFound(idx, values, m[uid], v);
      AgreesFor(idx, m, attribute, v);
      RemoveAgreesIff(m, uid, attribute, v, Found(idx, v));
      if multiset(values)[v] == 0 { WithoutNothing(m, uid, attribute, v, Found(idx, v)); }
    }
    AgreesFromAll(Removed(idx, values, m[uid]), m - {uid}, attribute);
  }

  lemma AgreesFor(idx: Idx, m: Objects, attribute: string, v: string)
    requires IndexAgrees(idx, m, attribute)
    ensures multiset(Found(idx, v)) == multiset(ScanAll(m, attribute, v))
  {
  }

  lemma AgreesFromAll(idx: Idx, m: Objects, attribute: string)
    requires forall v :: multiset(Found(idx, v)) == multiset(ScanAll(m, attribute, v))
    ensures IndexAgrees(idx, m, attribute)
  {
  }

  /** An object without the value is not found for it. */
  lemma WithoutNothing(m: Objects, uid: string, attribute: string, v: string, found: seq<BaseObject>)
    requires uid in m && Times(m[uid], attribute, v) == 0
    requires multiset(found) == multiset(ScanAll(m, attribute, v))
    ensures Without(found, m[uid]) == found
  {
    ScanCounts(m, attribute, v, m[uid]);
    WithoutAbsent(found, m[uid]);
  }

  lemma {:induction false} WithoutAbsent(s: seq<BaseObject>, o: BaseObject)
    requires multiset(s)[o] == 0
    ensures Without(s, o) == s
  {
    if s != [] {
      assert s == [s[0]] + s[1..];
      WithoutAbsent(s[1..], o);
    }
  }

  class ObjectList {
    var objects: Objects
    var indices: seq<ObjectIndex>

    ghost predicate Valid()
      reads this, indices
    {
      NoObjectTwice(objects) && Distinct(indices)
      && forall i | 0 <= i < |indices| :: IndexAgrees(indices[i].idx, objects, indices[i].attribute)
    }

    constructor ()
      ensures Valid() && objects == map[] && indices == []
    {
      objects, indices := map[], [];
    }

    method Clear()
      modifies this
      ensures Valid() && objects == map[] && indices == []
    {
      objects, indices := map[], [];
    }

    /** The first index over an attribute. */
    method FindIndex(attribute: string) returns (index: ObjectIndex?)
      ensures index == null <==> forall i | 0 <= i < |indices| :: indices[i].attribute != attribute
      ensures index != null ==> index in indices && index.attribute == attribute
    {
      for i := 0 to |indices|
        invariant forall j | 0 <= j < i :: indices[j].attribute != attribute
      {
        if indices[i].attribute == attribute { return indices[i]; }
      }
      return null;
    }

    /** An index over all objects. */
    method BuildIndex(attribute: string) returns (index: ObjectIndex)
      ensures fresh(index) && index.attribute == attribute && IndexAgrees(index.idx, objects, attribute)
    {
      hide ScanAll, IndexAgrees, Added, Under, InOrder;
      index := new ObjectIndex(attribute);
      var keys := SortedKeys(objects.Keys);
      NothingIndexed(attribute);
      UnderNone(map[], objects, keys);
      for i := 0 to |keys|
        invariant fresh(index) && index.attribute == attribute
        invariant IndexAgrees(index.idx, Under(objects, keys[..i]), attribute)
      {
        UnderNext(objects, keys, i);
        AddedAgrees(index.idx, Under(objects, keys[..i]), attribute, keys[i], objects[keys[i]]);
        index.Add(objects[keys[i]]);
      }
      UnderAll(objects, keys);
    }

    method GetObjectsForAttribute(attribute: string, value: string) returns (found: seq<BaseObject>)
      requires Valid()
      modifies this`indices
      ensures Valid()
      ensures multiset(found) == multiset(ScanAll(objects, attribute, value))
      ensures if exists i | 0 <= i < |old(indices)| :: old(indices)[i].attribute == attribute
              then indices == old(indices)
              else |indices| > 0 && indices[..|indices| - 1] == old(indices)
                   && fresh(indices[|indices| - 1]) && indices[|indices| - 1].attribute == attribute
    {
      hide IndexAgrees, ScanAll;
      var index := FindIndex(attribute);
      if index == null {
        index := BuildIndex(attribute);
        indices := indices + [index];
      }
      found := index.Lookup(value);
      AgreesFor(index.idx, objects, attribute, value);
    }

    /** Some object that has the value, if there is one. */
    method GetObjectForAttribute(attribute: string, value: string) returns (entry: Option<BaseObject>)
      requires Valid()
      modifies this`indices
      ensures Valid()
      ensures entry == None <==> forall k | k in objects :: Times(objects[k], attribute, value) == 0
      ensures entry.Some? ==> entry.value in objects.Values && Times(entry.value, attribute, value) > 0
    {
      hide Times, ScanAll, IndexAgrees;
      var matches := GetObjectsForAttribute(attribute, value);
      FoundIff(objects, attribute, value, matches);
      if matches == [] { return None; }
      return Some(matches[0]);
    }

    method Remove(uid: string)
      requires Valid()
      modifies this`objects, indices
      ensures Valid() && indices == old(indices)
      ensures objects == old(objects) - {uid}
    {
      hide IndexAgrees, Removed;
      if uid in objects {
        var entry := objects[uid];
        ghost var rest := objects - {uid};
        for i := 0 to |indices|
          invariant indices == old(indices) && objects == old(objects)
          invariant forall j | 0 <= j < i :: IndexAgrees(indices[j].idx, rest, indices[j].attribute)
          invariant forall j | i <= j < |indices| :: IndexAgrees(indices[j].idx, objects, indices[j].attribute)
        {
          RemovedAgrees(indices[i].idx, objects, indices[i].attribute, uid);
          indices[i].Remove(entry);
        }
        objects := map k | k in objects && k != uid :: objects[k];
        assert objects == rest;
      }
    }

    /** What is stored under the uid is replaced. No other uid may hold the object. */
    method AddObject(uid: string, entry: BaseObject)
      requires Valid()
      requires forall k | k in objects && k != uid :: objects[k] != entry
      modifies this`objects, indices
      ensures Valid() && indices == old(indices)
      ensures objects == old(objects)[uid := entry]
    {
      hide IndexAgrees, Added;
      Remove(uid);
      ghost var rest := objects;
      objects := objects[uid := entry];
      for i := 0 to |indices|
        invariant indices == old(indices) && objects == rest[uid := entry]
        invariant forall j | 0 <= j < i :: IndexAgrees(indices[j].idx, objects, indices[j].attribute)
        invariant forall j | i <= j < |indices| :: IndexAgrees(indices[j].idx, rest, indices[j].attribute)
      {
        AddedAgrees(indices[i].idx, rest, indices[i].attribute, uid, entry);
        indices[i].Add(entry);
      }
    }

    /** Everything in another list is added, in the order of its uids. */
    method Merge(other: ObjectList)
      requires Valid() && other != this && NoObjectTwice(other.objects)
      requires forall j, k | j in objects && k in other.objects && j != k :: objects[j] != other.objects[k]
      modifies this`objects, indices
      ensures Valid() && indices == old(indices)
      ensures objects == old(objects) + other.objects
    {
      hide Valid, Under, NoObjectTwice;
      ghost var mine, theirs := objects, other.objects;
      var keys := SortedKeys(other.objects.Keys);
      UnderNone(mine, theirs, keys);
      for i := 0 to |keys|
        invariant Valid() && indices == old(indices) && other.objects == theirs
        invariant objects == mine + Under(theirs, keys[..i])
      {
        MergeStep(mine, theirs, keys, i);
        AddObject(keys[i], other.objects[keys[i]]);
      }
      UnderAll(theirs, keys);
    }
  }

  lemma UnderNone(mine: Objects, theirs: Objects, keys: seq<string>)
    ensures Under(theirs, keys[..0]) == map[] && mine + Under(theirs, keys[..0]) == mine
  {
  }

  lemma UnderAll(m: Objects, keys: seq<string>)
    requires forall k :: k in keys <==> k in m
    ensures Under(m, keys[..|keys|]) == m
  {
    assert keys[..|keys|] == keys;
  }

  lemma MergeStep(mine: Objects, theirs: Objects, keys: seq<string>, i: nat)
    requires i < |keys| && Distinct(keys) && keys[i] in theirs && NoObjectTwice(theirs)
    requires forall j, k | j in mine && k in theirs && j != k :: mine[j] != theirs[k]
    ensures var m := mine + Under(theirs, keys[..i]);
      (forall k | k in m && k != keys[i] :: m[k] != theirs[keys[i]])
      && m[keys[i] := theirs[keys[i]]] == mine + Under(theirs, keys[..i + 1])
  {
    UnderNext(theirs, keys, i);
  }

  /** The part of a map under some keys. */
  ghost function Under(m: Objects, keys: seq<string>): Objects {
    map k | k in keys && k in m :: m[k]
  }

  lemma UnderNext(m: Objects, keys: seq<string>, i: nat)
    requires i < |keys| && Distinct(keys) && keys[i] in m
    ensures keys[i] !in Under(m, keys[..i])
    ensures Under(m, keys[..i + 1]) == Under(m, keys[..i])[keys[i] := m[keys[i]]]
  {
    assert keys[..i + 1] == keys[..i] + [keys[i]];
  }

  lemma NothingIndexed(attribute: string)
    ensures IndexAgrees(map[], map[], attribute)
  {
    var none: Objects := map[];
    assert none.Keys == {};
  }

  /** What is found, and that something is. */
  lemma FoundIff(m: Objects, attribute: string, value: string, found: seq<BaseObject>)
    requires multiset(found) == multiset(ScanAll(m, attribute, value))
    ensures found == [] <==> forall k | k in m :: Times(m[k], attribute, value) == 0
    ensures forall i | 0 <= i < |found| :: found[i] in m.Values && Times(found[i], attribute, value) > 0
  {
    hide Times, ScanAll;
    forall i | 0 <= i < |found| ensures found[i] in m.Values && Times(found[i], attribute, value) > 0 {
      assert found[i] in multiset(found);
      ScanCounts(m, attribute, value, found[i]);
      Product(|Holders(m, found[i])|, Times(found[i], attribute, value));
      assert |Holders(m, found[i])| > 0;
      var k :| k in Holders(m, found[i]);
    }
    if found != [] {
      assert found[0] in m.Values;
      var k :| k in m && m[k] == found[0];
      assert Times(m[k], attribute, value) > 0;
    }
    if k :| k in m && Times(m[k], attribute, value) != 0 {
      ScanCounts(m, attribute, value, m[k]);
      assert k in Holders(m, m[k]);
      Product(|Holders(m, m[k])|, Times(m[k], attribute, value));
      assert m[k] in multiset(found);
    }
  }
}
