/** A cache file is read back as it was written, and refused if it was cut short. */
module CacheReading {
  import opened Wrappers
  import opened RenderedObjects
  import opened Text
  import opened CacheFile

  // ---------- reading back what was written ----------

  lemma ReadWrittenU64(f: string, p: nat, n: nat)
    requires n < TWO_TO_THE_64 && At(f, p, WriteU64(n))
    ensures ReadU64(f, p) == Got(n, p + 8)
  {
    Pow256Of8();
    LittleEndianRoundTrip(n, 8);
  }

  lemma ReadWrittenString(f: string, p: nat, s: string)
    requires |s| < TWO_TO_THE_64 && At(f, p, WriteString(s))
    ensures ReadString(f, p) == Got(s, p + StringSize(s))
  {
    AtAppend(f, p, WriteU64(|s|), s);
    ReadWrittenU64(f, p, |s|);
  }

  lemma ReadWrittenObject(f: string, p: nat, o: RenderedObject)
    requires StorableObject(o)
    requires At(f, p, WriteObject(o))
    ensures ReadObject(f, p) == Got(o, p + ObjectSize(o))
  {
    hide ReadString, WriteString, At;
    var a, b, c := WriteString(o.id), WriteString(o.typ), WriteString(o.json);
    AtAppend(f, p, a + b, c);
    AtAppend(f, p, a, b);
    ReadWrittenString(f, p, o.id);
    ReadWrittenString(f, p + |a|, o.typ);
    ReadWrittenString(f, p + |a| + |b|, o.json);
  }

  lemma {:induction false} ReadWrittenEntries(f: string, p: nat, es: seq<RenderedObject>, acc: Cache)
    requires forall i | 0 <= i < |es| :: StorableObject(es[i])
    requires At(f, p, WriteEntries(es))
    ensures ReadEntries(f, p, |es|, acc) == Got(AddAll(acc, es), p + |WriteEntries(es)|)
    decreases |es|
  {
    hide ReadObject, WriteObject, At;
    if es != [] {
      var o := es[0];
      assert At(f, p, WriteObject(o)) && At(f, p + ObjectSize(o), WriteEntries(es[1..])) by {
        AtAppend(f, p, WriteObject(o), WriteEntries(es[1..]));
      }
      ReadWrittenObject(f, p, o);
      ReadWrittenEntries(f, p + ObjectSize(o), es[1..], acc[o.id := o]);
    }
  }

  lemma HeaderAccepted(f: string)
    requires At(f, 0, Header())
    ensures ReadHeader(f) == Ok(HEADER_SIZE)
  {
    hide WriteU64, ReadU64, At;
    AtAppend(f, 0, WriteU64(MAGIC_NUMBER), [CURRENT_VERSION as char]);
    ReadWrittenU64(f, 0, MAGIC_NUMBER);
    AtChar(f, 8, [CURRENT_VERSION as char], 0);
  }

  /** The object section of a saved file is read to its last byte. */
  lemma ReadWrittenObjects(f: string, p: nat, m: Cache)
    requires IdKeyed(m) && Storable(m) && At(f, p, WriteObjects(m))
    ensures ReadObjects(f, p) == Got(m, p + |WriteObjects(m)|)
  {
    hide At, WriteEntries, ReadEntries, Entries, ReadU64, AddAll, WriteU64;
    AtAppend(f, p, WriteU64(|m|), WriteEntries(Entries(m)));
    ReadWrittenU64(f, p, |m|);
    EntriesExact(m);
    ReadWrittenEntries(f, p + 8, Entries(m), map[]);
    AddAllEntries(m);
  }

  /** Reading a saved list gives the list back, whatever bytes follow it in the file. */
  lemma SaveRoundTrip(m: Cache, tail: string)
    requires IdKeyed(m) && Storable(m)
    ensures GetContents(SaveBytes(m) + tail) == Ok(m)
  {
    var f := SaveBytes(m) + tail;
    AtFramed("", SaveBytes(m), tail);
    assert "" + SaveBytes(m) + tail == f;
    AtAppend(f, 0, Header(), WriteObjects(m));
    HeaderAccepted(f);
    ReadWrittenObjects(f, HEADER_SIZE, m);
  }

  // ---------- cutting the file short ----------

  lemma CutU64(f: string, p: nat, cut: nat)
    requires cut <= |f| && ReadU64(f, p).Got?
    ensures ReadU64(f[..cut], p) == if ReadU64(f, p).next <= cut then ReadU64(f, p) else Bad
  {
    if p + 8 <= cut { assert f[..cut][p..p + 8] == f[p..p + 8]; }
  }

  lemma CutString(f: string, p: nat, cut: nat)
    requires cut <= |f| && ReadString(f, p).Got?
    ensures p <= ReadString(f, p).next
    ensures ReadString(f[..cut], p) == if ReadString(f, p).next <= cut then ReadString(f, p) else Bad
  {
    CutU64(f, p, cut);
    var q, len := p + 8, ReadU64(f, p).value;
    if q + len <= cut { assert f[..cut][q..q + len] == f[q..q + len]; }
  }

  lemma CutObject(f: string, p: nat, cut: nat)
    requires cut <= |f| && ReadObject(f, p).Got?
    ensures p <= ReadObject(f, p).next
    ensures ReadObject(f[..cut], p) == if ReadObject(f, p).next <= cut then ReadObject(f, p) else Bad
  {
    CutString(f, p, cut);
    var p1 := ReadString(f, p).next;
    CutString(f, p1, cut);
    var p2 := ReadString(f, p1).next;
    CutString(f, p2, cut);
  }

  lemma {:induction false} CutEntries(f: string, p: nat, n: nat, m: Cache, cut: nat)
    requires cut <= |f| && ReadEntries(f, p, n, m).Got?
    ensures p <= ReadEntries(f, p, n, m).next
    ensures p <= cut < ReadEntries(f, p, n, m).next ==> ReadEntries(f[..cut], p, n, m).Bad?
    decreases n
  {
    if n > 0 {
      var Got(o, q) := ReadObject(f, p);
      CutObject(f, p, cut);
      CutEntries(f, q, n - 1, m[o.id := o], cut);
    }
  }

  lemma CutHeader(f: string, cut: nat)
    requires cut <= |f| && At(f, 0, Header())
    ensures ReadHeader(f[..cut]) == if HEADER_SIZE <= cut then Ok(HEADER_SIZE) else Err(BadStream)
  {
    AtAppend(f, 0, WriteU64(MAGIC_NUMBER), [CURRENT_VERSION as char]);
    ReadWrittenU64(f, 0, MAGIC_NUMBER);
    AtChar(f, 8, [CURRENT_VERSION as char], 0);
    CutU64(f, 0, cut);
  }

  /** A file that lost its end, wherever it was cut, is refused: it is never read as a shorter list. */
  lemma TruncatedFileRejected(m: Cache, cut: nat)
    requires IdKeyed(m) && Storable(m)
    requires cut < |SaveBytes(m)|
    ensures GetContents(SaveBytes(m)[..cut]) == Err(BadStream)
  {
    hide Storable, IdKeyed, WriteEntries, Header, Entries, WriteU64, ReadEntries, FromLittleEndian, At, ReadHeader;
    var f := SaveBytes(m);
    AtWhole(f);
    AtAppend(f, 0, Header(), WriteObjects(m));
    CutHeader(f, cut);
    if HEADER_SIZE <= cut {
      ReadWrittenObjects(f, HEADER_SIZE, m);
      CutU64(f, HEADER_SIZE, cut);
      CutEntries(f, HEADER_SIZE + 8, ReadU64(f, HEADER_SIZE).value, map[], cut);
    }
  }
}
