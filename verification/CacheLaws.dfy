/** The bytes of a cache file, which files are accepted, and why others are refused. */
module CacheLaws {
  import opened CacheFile
  import opened CacheReading
  import opened RenderedObjects
  import opened Text
  import opened Wrappers

  /** All characters stand for bytes. */
  predicate AllBytes(f: string) {
    forall i | 0 <= i < |f| :: f[i] as nat < 256
  }

  // ---------- numbers ----------

  /** Byte number `i` of a number is its i-th digit to the base 256, the last digit first. */
  lemma {:induction false} DigitAt(n: nat, k: nat, i: nat)
    requires i < k
    ensures LittleEndian(n, k)[i] as nat == n / Pow256(i) % 256
  {
    if i > 0 {
      DigitAt(n / 256, k - 1, i - 1);
      DivideTwice(n, Pow256(i - 1));
    }
  }

  lemma DivideTwice(n: nat, p: nat)
    requires p > 0
    ensures n / 256 / p == n / (256 * p)
  {
    var q := n / 256 / p;
    var r, s := n % 256, n / 256 % p;
    assert n == 256 * (n / 256) + r && n / 256 == p * q + s;
    assert n == (256 * p) * q + (256 * s + r);
    assert 0 <= 256 * s + r < 256 * p;
    Quotient(n, 256 * p, q, 256 * s + r);
  }

  lemma Quotient(n: nat, d: nat, q: nat, r: nat)
    requires n == d * q + r && r < d
    ensures n / d == q
  {
    var q', r' := n / d, n % d;
    Remainder(n, d);
    if q < q' { AtLeastOnce(d, q', q); }
    if q > q' { AtLeastOnce(d, q, q'); }
  }

  lemma Remainder(n: nat, d: nat)
    requires d > 0
    ensures n == d * (n / d) + n % d && n % d < d
  {
  }

  lemma {:induction false} AtLeastOnce(d: nat, a: nat, b: nat)
    requires a > b
    ensures d * a >= d * b + d
    decreases a
  {
    if a > b + 1 { AtLeastOnce(d, a - 1, b); }
    assert d * a == d * (a - 1) + d;
  }

  lemma {:induction false} DigitsOf(s: string)
    requires AllBytes(s)
    ensures FromLittleEndian(s) < Pow256(|s|) && LittleEndian(FromLittleEndian(s), |s|) == s
  {
    if s != "" {
      DigitsOf(s[1..]);
      var rest := FromLittleEndian(s[1..]);
      assert (s[0] as nat + 256 * rest) % 256 == s[0] as nat && (s[0] as nat + 256 * rest) / 256 == rest;
      assert s == [s[0]] + s[1..];
    }
  }

  // ---------- the header ----------

  const MAGIC_BYTES: string := [0xdc as char, 0xfe as char, 0xdc as char, 0xfe as char,
                                0xcc as char, 0xdd as char, 0xee as char, 0xff as char]

  /** A file starts with these eight bytes and the version. */
  lemma HeaderBytes()
    ensures WriteU64(MAGIC_NUMBER) == MAGIC_BYTES && Header() == MAGIC_BYTES + [1 as char]
  {
    hide LittleEndian;
    var w := LittleEndian(MAGIC_NUMBER, 8);
    Digits8(MAGIC_NUMBER);
    assert w == MAGIC_BYTES;
  }

  lemma Digits8(n: nat)
    ensures var n4 := n / 0x1_0000_0000;
      LittleEndian(n, 8) == [(n % 256) as char, (n / 256 % 256) as char, (n / 256 / 256 % 256) as char,
                             (n / 256 / 256 / 256 % 256) as char, (n4 % 256) as char, (n4 / 256 % 256) as char,
                             (n4 / 256 / 256 % 256) as char, (n4 / 256 / 256 / 256 % 256) as char]
  {
    Four(n, 8);
    Four(n / 256 / 256 / 256 / 256, 4);
    assert n / 256 / 256 / 256 / 256 == n / 0x1_0000_0000;
  }

  lemma Four(n: nat, k: nat)
    requires k >= 4
    ensures LittleEndian(n, k) == [(n % 256) as char, (n / 256 % 256) as char, (n / 256 / 256 % 256) as char,
                                   (n / 256 / 256 / 256 % 256) as char] + LittleEndian(n / 256 / 256 / 256 / 256, k - 4)
  {
    assert LittleEndian(n, k) == [(n % 256) as char] + LittleEndian(n / 256, k - 1);
    assert LittleEndian(n / 256, k - 1) == [(n / 256 % 256) as char] + LittleEndian(n / 256 / 256, k - 2);
    assert LittleEndian(n / 256 / 256, k - 2)
        == [(n / 256 / 256 % 256) as char] + LittleEndian(n / 256 / 256 / 256, k - 3);
  }

  /** What is read as the magic number is written as these bytes. */
  lemma MagicIff(f: string)
    requires AllBytes(f) && |f| >= 8
    ensures FromLittleEndian(f[..8]) == MAGIC_NUMBER <==> MAGIC_BYTES <= f
  {
    hide LittleEndian, FromLittleEndian;
    HeaderBytes();
    DigitsOf(f[..8]);
    Pow256Of8();
    LittleEndianRoundTrip(MAGIC_NUMBER, 8);
    assert MAGIC_BYTES <= f <==> f[..8] == MAGIC_BYTES;
  }

  /** A file that is too short is a bad stream, one that does not start with the magic bytes is of another format,
      one of a later version is refused, and there is no other error before the objects are read. */
  lemma RefusedBecause(f: string)
    requires AllBytes(f)
    ensures GetContents(f) == Err(BadFormat) <==> |f| >= 8 && !(MAGIC_BYTES <= f)
    ensures GetContents(f) == Err(VersionTooHigh) <==> |f| >= 9 && MAGIC_BYTES <= f && f[8] as nat > 1
    ensures |f| < 8 || (|f| == 8 && MAGIC_BYTES <= f) ==> GetContents(f) == Err(BadStream)
  {
    hide FromLittleEndian, ReadObjects;
    if |f| >= 8 {
      MagicIff(f);
      assert f[0..8] == f[..8];
    }
  }

  // ---------- which files are accepted ----------

  /** Objects written one after the other behind their number, the magic bytes and a version that is not too
      high; whatever follows is not looked at. */
  ghost predicate Layout(f: string, version: char, es: seq<RenderedObject>) {
    version as nat <= 1 && MAGIC_BYTES + [version] + (WriteU64(|es|) + WriteEntries(es)) <= f
  }

  ghost predicate AllStorable(es: seq<RenderedObject>) {
    |es| < TWO_TO_THE_64 && forall i | 0 <= i < |es| :: StorableObject(es[i])
  }

  lemma ReadU64Written(f: string, p: nat)
    requires AllBytes(f) && ReadU64(f, p).Got?
    ensures var r := ReadU64(f, p); r.value < TWO_TO_THE_64 && At(f, p, WriteU64(r.value)) && r.next == p + 8
  {
    DigitsOf(f[p..p + 8]);
    Pow256Of8();
  }

  lemma ReadStringWritten(f: string, p: nat)
    requires AllBytes(f) && ReadString(f, p).Got?
    ensures var r := ReadString(f, p);
      |r.value| < TWO_TO_THE_64 && At(f, p, WriteString(r.value)) && r.next == p + StringSize(r.value)
  {
    hide ReadU64, WriteU64;
    ReadU64Written(f, p);
    ReadU64Fits(f, p);
    var s := ReadString(f, p).value;
    AtAppend(f, p, WriteU64(|s|), s);
  }

  lemma ReadU64Fits(f: string, p: nat)
    ensures ReadU64(f, p).Got? ==> p + 8 <= |f|
  {
  }

  lemma ReadObjectWritten(f: string, p: nat)
    requires AllBytes(f) && ReadObject(f, p).Got?
    ensures var r := ReadObject(f, p);
      StorableObject(r.value) && At(f, p, WriteObject(r.value)) && r.next == p + ObjectSize(r.value)
  {
    hide ReadString, WriteString, At;
    var p1, p2 := ReadString(f, p).next, ReadString(f, ReadString(f, p).next).next;
    ReadStringWritten(f, p);
    ReadStringWritten(f, p1);
    ReadStringWritten(f, p2);
    var o := ReadObject(f, p).value;
    AtAppend(f, p, WriteString(o.id), WriteString(o.typ));
    AtAppend(f, p, WriteString(o.id) + WriteString(o.typ), WriteString(o.json));
  }

  lemma {:induction false} ReadEntriesWritten(f: string, p: nat, n: nat, m: Cache) returns (es: seq<RenderedObject>)
    requires AllBytes(f) && p <= |f| && ReadEntries(f, p, n, m).Got?
    ensures |es| == n && At(f, p, WriteEntries(es)) && ReadEntries(f, p, n, m).value == AddAll(m, es)
    ensures forall i | 0 <= i < |es| :: StorableObject(es[i])
    decreases n
  {
    hide ReadObject, WriteObject, StorableObject;
    if n == 0 {
      es := [];
    } else {
      var Got(o, q) := ReadObject(f, p);
      ReadObjectWritten(f, p);
      var rest := ReadEntriesWritten(f, q, n - 1, m[o.id := o]);
      es := [o] + rest;
      assert es[1..] == rest;
      AtAppend(f, p, WriteObject(o), WriteEntries(rest));
    }
  }

  /** Of several objects with one id the last is kept. */
  lemma {:induction false} LastOfEachId(m: Cache, es: seq<RenderedObject>, i: nat)
    requires i < |es| && forall j | i < j < |es| :: es[j].id != es[i].id
    ensures es[i].id in AddAll(m, es) && AddAll(m, es)[es[i].id] == es[i]
    decreases |es|
  {
    var next := m[es[0].id := es[0]];
    if i == 0 {
      AddAllOther(next, es[1..], es[0].id);
    } else {
      LastOfEachId(next, es[1..], i - 1);
    }
  }

  /** A file is accepted if and only if it begins like one that was saved, by version 0 or 1; what is read are the
      objects written there, the last of each id. */
  lemma AcceptedIff(f: string)
    requires AllBytes(f)
    ensures GetContents(f).Ok? <==> exists v, es :: AllStorable(es) && Layout(f, v, es)
    ensures forall v, es | AllStorable(es) && Layout(f, v, es) :: GetContents(f) == Ok(AddAll(map[], es))
  {
    hide GetContents, Layout, AllStorable;
    forall v, es | AllStorable(es) && Layout(f, v, es) ensures GetContents(f) == Ok(AddAll(map[], es)) {
      LayoutRead(f, v, es);
    }
    if GetContents(f).Ok? { var v, es := ContentsWritten(f); }
  }

  lemma LayoutRead(f: string, v: char, es: seq<RenderedObject>)
    requires AllBytes(f) && AllStorable(es) && Layout(f, v, es)
    ensures GetContents(f) == Ok(AddAll(map[], es))
  {
    hide FromLittleEndian, ReadEntries, WriteEntries, WriteU64, At, StorableObject, AddAll;
    var head, body := MAGIC_BYTES + [v], WriteU64(|es|) + WriteEntries(es);
    var tail := f[|head + body|..];
    assert f == "" + (head + body) + tail;
    AtFramed("", head + body, tail);
    AtAppend(f, 0, head, body);
    AtAppend(f, 9, WriteU64(|es|), WriteEntries(es));
    ReadWrittenU64(f, 9, |es|);
    ReadWrittenEntries(f, 17, es, map[]);
    MagicIff(f);
    assert f[0..8] == f[..8] && f[8] == v;
  }

  lemma ContentsWritten(f: string) returns (v: char, es: seq<RenderedObject>)
    requires AllBytes(f) && GetContents(f).Ok?
    ensures AllStorable(es) && Layout(f, v, es)
  {
    hide FromLittleEndian, ReadEntries, WriteEntries, WriteU64, ReadU64, At, StorableObject;
    v := VersionOf(f);
    var n := ReadU64(f, 9);
    ReadU64Written(f, 9);
    ReadU64Fits(f, 9);
    es := ReadEntriesWritten(f, 17, n.value, map[]);
    AtAppend(f, 9, WriteU64(|es|), WriteEntries(es));
    AtAppend(f, 0, MAGIC_BYTES + [v], WriteU64(|es|) + WriteEntries(es));
    AtHead(f, v);
    AtStart(f, MAGIC_BYTES + [v] + (WriteU64(|es|) + WriteEntries(es)));
  }

  lemma VersionOf(f: string) returns (v: char)
    requires AllBytes(f) && GetContents(f).Ok?
    ensures |f| >= 9 && MAGIC_BYTES <= f && v == f[8] && v as nat <= 1 && ReadHeader(f) == Ok(9)
  {
    hide FromLittleEndian, ReadObjects;
    MagicIff(f);
    assert f[0..8] == f[..8];
    v := f[8];
  }

  lemma AtHead(f: string, v: char)
    requires |f| >= 9 && MAGIC_BYTES <= f && v == f[8]
    ensures At(f, 0, MAGIC_BYTES + [v])
  {
    assert f[..9] == f[..8] + [f[8]];
    assert f[0..9] == f[..9];
  }

  lemma AtStart(f: string, w: string)
    requires At(f, 0, w)
    ensures w <= f
  {
  }
}
