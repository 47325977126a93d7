/** The binary cache file. A byte is a `char`; numbers have 64 bits, least significant byte first. */
module CacheFile {
  import opened Wrappers
  import opened RenderedObjects

  const MAGIC_NUMBER: nat := 0xFFEEDDCCFEDCFEDC
  const CURRENT_VERSION: nat := 1
  const HEADER_SIZE: nat := 9
  const BLOCK_SIZE: nat := 1024
  const TWO_TO_THE_64: nat := 0x1_0000_0000_0000_0000

  // ---------- numbers ----------

  function Pow256(k: nat): (r: nat)
    ensures r > 0
  {
    if k == 0 then 1 else 256 * Pow256(k - 1)
  }

  function LittleEndian(n: nat, k: nat): (s: string)
    ensures |s| == k
  {
    if k == 0 then "" else [(n % 256) as char] + LittleEndian(n / 256, k - 1)
  }

  function FromLittleEndian(s: string): nat {
    if s == "" then 0 else s[0] as nat + 256 * FromLittleEndian(s[1..])
  }

  lemma {:induction false} LittleEndianRoundTrip(n: nat, k: nat)
    requires n < Pow256(k)
    ensures FromLittleEndian(LittleEndian(n, k)) == n
  {
    if k > 0 {
      assert n / 256 < Pow256(k - 1);
      LittleEndianRoundTrip(n / 256, k - 1);
      assert LittleEndian(n, k)[1..] == LittleEndian(n / 256, k - 1);
    }
  }

  lemma Pow256Of8()
    ensures Pow256(8) == TWO_TO_THE_64
  {
    assert Pow256(4) == 0x1_0000_0000;
    assert Pow256(8) == 256 * (256 * (256 * (256 * Pow256(4))));
  }

  // ---------- what is written ----------

  function WriteU64(n: nat): (s: string)
    ensures |s| == 8
  {
    LittleEndian(n, 8)
  }

  function WriteString(s: string): (r: string)
    ensures |r| == StringSize(s)
  {
    WriteU64(|s|) + s
  }

  function WriteObject(o: RenderedObject): (r: string)
    ensures |r| == ObjectSize(o)
  {
    WriteString(o.id) + WriteString(o.typ) + WriteString(o.json)
  }

  function WriteEntries(es: seq<RenderedObject>): string {
    if es == [] then "" else WriteObject(es[0]) + WriteEntries(es[1..])
  }

  function WriteObjects(m: Cache): string {
    WriteU64(|m|) + WriteEntries(Entries(m))
  }

  function Header(): (s: string)
    ensures |s| == HEADER_SIZE
  {
    WriteU64(MAGIC_NUMBER) + [CURRENT_VERSION as char]
  }

  function SaveBytes(m: Cache): string {
    Header() + WriteObjects(m)
  }

  // ---------- what is read ----------

  datatype Read<+T> = Got(value: T, next: nat) | Bad

  datatype ReadError = BadStream | BadFormat | VersionTooHigh

  function ReadU64(f: string, p: nat): Read<nat> {
    if p + 8 <= |f| then Got(FromLittleEndian(f[p..p + 8]), p + 8) else Bad
  }

  function ReadString(f: string, p: nat): Read<string> {
    match ReadU64(f, p)
    case Bad => Bad
    case Got(len, q) => if q + len <= |f| then Got(f[q..q + len], q + len) else Bad
  }

  function ReadObject(f: string, p: nat): Read<RenderedObject> {
    match ReadString(f, p)
    case Bad => Bad
    case Got(id, p1) =>
      match ReadString(f, p1)
      case Bad => Bad
      case Got(typ, p2) =>
        match ReadString(f, p2)
        case Bad => Bad
        case Got(json, p3) => Got(RenderedObject(id, typ, json), p3)
  }

  /** Reads `n` objects into `m`; a later object replaces an earlier one with the same id. */
  function ReadEntries(f: string, p: nat, n: nat, m: Cache): Read<Cache>
    decreases n
  {
    if n == 0 then Got(m, p)
    else
      match ReadObject(f, p)
      case Bad => Bad
      case Got(o, q) => ReadEntries(f, q, n - 1, m[o.id := o])
  }

  function ReadObjects(f: string, p: nat): Read<Cache> {
    match ReadU64(f, p)
    case Bad => Bad
    case Got(n, q) => ReadEntries(f, q, n, map[])
  }

  /** Checks the magic number and the version; on success the objects start at the position returned. */
  function ReadHeader(f: string): Result<nat, ReadError> {
    match ReadU64(f, 0)
    case Bad => Err(BadStream)
    case Got(magic, p) =>
      if magic != MAGIC_NUMBER then Err(BadFormat)
      else if p >= |f| then Err(BadStream)
      else if f[p] as nat > CURRENT_VERSION then Err(VersionTooHigh)
      else Ok(p + 1)
  }

  function GetContents(f: string): Result<Cache, ReadError> {
    match ReadHeader(f)
    case Err(e) => Err(e)
    case Ok(p) =>
      match ReadObjects(f, p)
      case Bad => Err(BadStream)
      case Got(m, _) => Ok(m)
  }

  // ---------- sizes ----------

  function StringSize(s: string): nat { 8 + |s| }

  function ObjectSize(o: RenderedObject): nat {
    StringSize(o.id) + StringSize(o.typ) + StringSize(o.json)
  }

  /** Every length fits the 64-bit field it is stored in. */
  ghost predicate StorableObject(o: RenderedObject) {
    |o.id| < TWO_TO_THE_64 && |o.typ| < TWO_TO_THE_64 && |o.json| < TWO_TO_THE_64
  }

  ghost predicate Storable(m: Cache) {
    |m| < TWO_TO_THE_64 && forall k | k in m :: StorableObject(m[k])
  }

  // ---------- the size estimate ----------

  /** What a current object may take: the larger of itself and the cached object it would replace. */
  function CurrentSize(o: RenderedObject, cached: Cache): nat {
    if o.id in cached && ObjectSize(cached[o.id]) > ObjectSize(o) then ObjectSize(cached[o.id]) else ObjectSize(o)
  }

  function EstimateCurrent(es: seq<RenderedObject>, cached: Cache): nat {
    if es == [] then 0 else CurrentSize(es[0], cached) + EstimateCurrent(es[1..], cached)
  }

  function EstimateCached(es: seq<RenderedObject>, current: Cache): nat {
    if es == [] then 0
    else (if es[0].id in current then 0 else ObjectSize(es[0])) + EstimateCached(es[1..], current)
  }

  function EstimateObjects(current: Cache, cached: Cache): nat {
    8 + EstimateCurrent(Entries(current), cached) + EstimateCached(Entries(cached), current)
  }

  function SizeEstimate(current: Cache, cached: Cache): nat {
    HEADER_SIZE + EstimateObjects(current, cached)
  }

  /** The file length after pre-allocation: the estimate rounded up to whole blocks. */
  function PreAllocated(size: nat): (r: nat)
    ensures size <= r < size + BLOCK_SIZE && r % BLOCK_SIZE == 0
  {
    (size + BLOCK_SIZE - 1) / BLOCK_SIZE * BLOCK_SIZE
  }
}
