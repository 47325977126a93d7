/** The stream operations that read and write the cache file. */
module CacheStream {
  import opened Wrappers
  import opened RenderedObjects
  import opened CacheFile

  class InputFile {
    const bytes: string
    var pos: nat

    constructor (f: string)
      ensures bytes == f && pos == 0
    {
      bytes := f;
      pos := 0;
    }

    method TakeU64() returns (r: Option<nat>)
      modifies this
      ensures match ReadU64(bytes, old(pos)) case Bad => r == None case Got(n, q) => r == Some(n) && pos == q
    {
      if pos + 8 <= |bytes| {
        r := Some(FromLittleEndian(bytes[pos..pos + 8]));
        pos := pos + 8;
      } else {
        r := None;
      }
    }

    method TakeString() returns (r: Option<string>)
      modifies this
      ensures match ReadString(bytes, old(pos)) case Bad => r == None case Got(s, q) => r == Some(s) && pos == q
    {
      var len := TakeU64();
      if len == None || pos + len.value > |bytes| { return None; }
      r := Some(bytes[pos..pos + len.value]);
      pos := pos + len.value;
    }

    method TakeObject() returns (r: Option<RenderedObject>)
      modifies this
      ensures match ReadObject(bytes, old(pos)) case Bad => r == None case Got(o, q) => r == Some(o) && pos == q
    {
      var id := TakeString();
      if id == None { return None; }
      var typ := TakeString();
      if typ == None { return None; }
      var json := TakeString();
      if json == None { return None; }
      r := Some(RenderedObject(id.value, typ.value, json.value));
    }

    method TakeObjects() returns (r: Option<RenderedObjectList>)
      modifies this
      ensures r.Some? ==> fresh(r.value)
      ensures match ReadObjects(bytes, old(pos))
              case Bad => r == None
              case Got(m, q) => r.Some? && r.value.objects == m && pos == q
    {
      var n := TakeU64();
      if n == None { return None; }
      var objects := new RenderedObjectList();
      ghost var start := pos;
      var i := 0;
      while i < n.value
        invariant i <= n.value && fresh(objects)
        invariant ReadEntries(bytes, start, n.value, map[]) == ReadEntries(bytes, pos, n.value - i, objects.objects)
        modifies this, objects
      {
        var o := TakeObject();
        if o == None { return None; }
        objects.AddObject(o.value);
        i := i + 1;
      }
      r := Some(objects);
    }
  }

  method LoadCacheFile(f: string) returns (r: Result<RenderedObjectList, ReadError>)
    ensures r.Ok? ==> fresh(r.value)
    ensures match GetContents(f)
            case Ok(m) => r.Ok? && r.value.objects == m
            case Err(e) => r == Err(e)
  {
    var ifs := new InputFile(f);
    var magic := ifs.TakeU64();
    if magic == None { return Err(BadStream); }
    if magic.value != MAGIC_NUMBER { return Err(BadFormat); }
    if ifs.pos >= |ifs.bytes| { return Err(BadStream); }
    var version := ifs.bytes[ifs.pos];
    ifs.pos := ifs.pos + 1;
    if version as nat > CURRENT_VERSION { return Err(VersionTooHigh); }
    var objects := ifs.TakeObjects();
    r := if objects == None then Err(BadStream) else Ok(objects.value);
  }

  /** Writing `b` at position `p` of a file that already holds `data`. */
  function Overwrite(data: string, p: nat, b: string): (r: string)
    requires p <= |data|
    ensures p + |b| <= |r| && r[..p + |b|] == data[..p] + b
  {
    data[..p] + b + if p + |b| <= |data| then data[p + |b|..] else ""
  }

  /** The blocks that are written to reserve room. */
  function Reserved(size: nat): string {
    seq(PreAllocated(size), i => 0xff as char)
  }

  class OutputFile {
    var data: string
    var pos: nat

    ghost predicate Valid()
      reads this
    {
      pos <= |data|
    }

    constructor ()
      ensures Valid() && data == "" && pos == 0
    {
      data, pos := "", 0;
    }

    method Put(b: string)
      requires Valid()
      modifies this
      ensures Valid() && pos == old(pos) + |b|
      ensures data == Overwrite(old(data), old(pos), b)
    {
      data := data[..pos] + b + if pos + |b| <= |data| then data[pos + |b|..] else "";
      pos := pos + |b|;
    }

    /** Reserves room by writing blocks of 0xff bytes, then goes back to the start of the file. */
    method Begin(size: nat)
      requires data == "" && pos == 0
      modifies this
      ensures Valid() && pos == 0
      ensures data == Reserved(size)
    {
      var block := seq(BLOCK_SIZE, i => 0xff as char);
      ghost var n := 0;
      while pos < size
        invariant pos == |data| == n * BLOCK_SIZE
        invariant pos < size + BLOCK_SIZE
        invariant forall i | 0 <= i < |data| :: data[i] == 0xff as char
        decreases size - pos
      {
        Put(block);
        n := n + 1;
      }
      RoundUp(size, n);
      pos := 0;
    }

    method Save(objects: RenderedObjectList)
      requires Valid() && pos == 0
      modifies this
      ensures Valid() && pos == |SaveBytes(objects.objects)|
      ensures data == Overwrite(old(data), 0, SaveBytes(objects.objects))
    {
      hide Overwrite, SaveBytes, WriteEntries, WriteObject, WriteU64, Entries;
      ghost var m, was := objects.objects, data;
      Put(WriteU64(MAGIC_NUMBER));
      Put([CURRENT_VERSION as char]);
      Put(WriteU64(|objects.objects|));
      ghost var done := WriteU64(MAGIC_NUMBER) + [CURRENT_VERSION as char] + WriteU64(|m|);
      OverwriteTwice(was, WriteU64(MAGIC_NUMBER), [CURRENT_VERSION as char]);
      OverwriteTwice(was, WriteU64(MAGIC_NUMBER) + [CURRENT_VERSION as char], WriteU64(|m|));
      var es := Entries(objects.objects);
      SaveStart(m);
      var i := 0;
      while i < |es|
        invariant i <= |es| && Valid()
        invariant pos == |done| && data == Overwrite(was, 0, done)
        invariant done + WriteEntries(es[i..]) == SaveBytes(m)
      {
        Put(WriteObject(es[i]));
        OverwriteTwice(was, done, WriteObject(es[i]));
        SaveStep(es[i..], done);
        assert es[i..][1..] == es[i + 1..];
        done := done + WriteObject(es[i]);
        i := i + 1;
      }
      assert es[i..] == [] && done + "" == done;
    }

    /** Cuts the file at the write position; `truncated` says whether the file system did it. */
    method Finalize(truncated: bool)
      requires Valid()
      modifies this
      ensures pos == old(pos)
      ensures data == if old(pos) > 0 && truncated then old(data[..pos]) else old(data)
    {
      if pos > 0 && truncated {
        data := data[..pos];
      }
    }
  }

  lemma OverwriteTwice(data: string, a: string, b: string)
    ensures Overwrite(Overwrite(data, 0, a), |a|, b) == Overwrite(data, 0, a + b)
  {
    var x, y := Overwrite(Overwrite(data, 0, a), |a|, b), Overwrite(data, 0, a + b);
    assert |x| == |y|;
    assert forall i | 0 <= i < |x| :: x[i] == y[i];
  }

  lemma SaveStart(m: Cache)
    ensures WriteU64(MAGIC_NUMBER) + [CURRENT_VERSION as char] + WriteU64(|m|) + WriteEntries(Entries(m))
         == SaveBytes(m)
    ensures WriteEntries([]) == ""
  {
  }

  lemma SaveStep(es: seq<RenderedObject>, done: string)
    requires es != []
    ensures done + WriteObject(es[0]) + WriteEntries(es[1..]) == done + WriteEntries(es)
  {
  }

  lemma RoundUp(size: nat, n: nat)
    requires size <= n * BLOCK_SIZE < size + BLOCK_SIZE
    ensures PreAllocated(size) == n * BLOCK_SIZE
  {
    assert (size + BLOCK_SIZE - 1) / BLOCK_SIZE == n;
  }

  /** `estimate_objects` accumulates its total in two loops. */
  method EstimateObjectsLoop(current: RenderedObjectList, cached: RenderedObjectList) returns (total: nat)
    ensures total == EstimateObjects(current.objects, cached.objects)
  {
    total := 8;
    var es := Entries(current.objects);
    for i := 0 to |es|
      invariant total + EstimateCurrent(es[i..], cached.objects) == 8 + EstimateCurrent(es, cached.objects)
    {
      assert es[i..][1..] == es[i + 1..];
      var size := ObjectSize(es[i]);
      var c := cached.GetObject(es[i].id);
      if c.Some? && ObjectSize(c.value) > size {
        size := ObjectSize(c.value);
      }
      total := total + size;
    }
    ghost var first := total;
    var olds := Entries(cached.objects);
    for i := 0 to |olds|
      invariant total + EstimateCached(olds[i..], current.objects) == first + EstimateCached(olds, current.objects)
    {
      assert olds[i..][1..] == olds[i + 1..];
      var here := current.GetObject(olds[i].id);
      if here.None? {
        total := total + ObjectSize(olds[i]);
      }
    }
  }
}
