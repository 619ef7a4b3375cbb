/**
 The byte layout of the kernel's event buffer (`struct inotify_event`, inotify(7)).
 */
module Wire {
  import opened Tables

  type Byte = x: int | 0 <= x < 0x100

  /** INOTIFY_EVENT_SIZE: the fixed part of a record. */
  const EVENT_SIZE: nat := 16

  function Bytes(w: Word): (b: seq<Byte>)
    ensures |b| == 4
  {
    [w % 0x100, (w / 0x100) % 0x100, (w / 0x1_0000) % 0x100, w / 0x100_0000]
  }

  function Unsigned(b: seq<Byte>, i: nat): Word
    requires i + 4 <= |b|
  {
    (b[i] as int) + 0x100 * (b[i + 1] as int) + 0x1_0000 * (b[i + 2] as int) + 0x100_0000 * (b[i + 3] as int)
  }

  /** The signed reading of a 32-bit quantity. */
  function Signed(w: Word): int {
    if w < 0x8000_0000 then w else w - 0x1_0000_0000
  }

  function ToWord(x: int): Word
    requires -0x8000_0000 <= x < 0x8000_0000
  {
    if x < 0 then x + 0x1_0000_0000 else x
  }

  function Text(s: string): (b: seq<Byte>)
    requires forall c | c in s :: 0 < c as int < 0x100
    ensures |b| == |s| && forall k | 0 <= k < |s| :: b[k] == s[k] as int
  {
    if s == [] then [] else
    assert s[0] in s && forall c | c in s[1..] :: c in s;
    var first: Byte := s[0] as int;
    [first] + Text(s[1..])
  }

  /** What the kernel writes: a signed 32-bit descriptor and a name that, unless
      absent, is a C string padded with zeros to `len`. */
  ghost predicate WellFormed(rec: Record) {
    && -0x8000_0000 <= rec.wd < 0x8000_0000
    && (forall c | c in rec.name :: 0 < c as int < 0x100)
    && (if rec.len == 0 then rec.name == "" else |rec.name| < rec.len)
  }

  function Size(rec: Record): nat {
    EVENT_SIZE + rec.len
  }

  ghost function Encode(rec: Record): (b: seq<Byte>)
    requires WellFormed(rec)
    ensures |b| == Size(rec)
  {
    Bytes(ToWord(rec.wd)) + Bytes(rec.mask) + Bytes(rec.cookie) + Bytes(rec.len)
    + Text(rec.name) + seq(rec.len - |rec.name|, _ => 0)
  }

  ghost function EncodeAll(recs: seq<Record>): seq<Byte>
    requires forall r | r in recs :: WellFormed(r)
  {
    if recs == [] then [] else Encode(recs[0]) + EncodeAll(recs[1..])
  }

  lemma UnsignedBytes(w: Word)
    ensures Unsigned(Bytes(w), 0) == w
  {
    var q1 := w / 0x100;
    var q2 := q1 / 0x100;
    var q3 := q2 / 0x100;
    assert w / 0x1_0000 == q2 && w / 0x100_0000 == q3;
    assert w == 0x100 * q1 + w % 0x100 && q1 == 0x100 * q2 + q1 % 0x100 && q2 == 0x100 * q3 + q2 % 0x100;
  }

  lemma UnsignedAt(b: seq<Byte>, i: nat, w: Word)
    requires i + 4 <= |b| && b[i..i + 4] == Bytes(w)
    ensures Unsigned(b, i) == w
  {
    var c := b[i..i + 4];
    assert c[0] == b[i] && c[1] == b[i + 1] && c[2] == b[i + 2] && c[3] == b[i + 3];
    UnsignedBytes(w);
  }

  /** The fields of an encoded record read back. */
  lemma FieldsOf(rec: Record)
    requires WellFormed(rec)
    ensures var b := Encode(rec);
            && Signed(Unsigned(b, 0)) == rec.wd && Unsigned(b, 4) == rec.mask
            && Unsigned(b, 8) == rec.cookie && Unsigned(b, 12) == rec.len
    ensures Encode(rec)[4] as int == rec.mask % 0x100 && Encode(rec)[7] as int == rec.mask / 0x100_0000
    ensures Encode(rec)[EVENT_SIZE..EVENT_SIZE + |rec.name|] == Text(rec.name)
    ensures |rec.name| < rec.len ==> Encode(rec)[EVENT_SIZE + |rec.name|] == 0
  {
    var b := Encode(rec);
    UnsignedAt(b, 0, ToWord(rec.wd));
    UnsignedAt(b, 4, rec.mask);
    UnsignedAt(b, 8, rec.cookie);
    UnsignedAt(b, 12, rec.len);
  }

  /** Reads the C string at `off`. */
  method ReadName(buf: array<Byte>, off: nat, ghost name: string) returns (s: string)
    requires off + |name| < buf.Length
    requires forall c | c in name :: 0 < c as int < 0x100
    requires buf[off..off + |name|] == Text(name) && buf[off + |name|] == 0
    ensures s == name
  {
    ghost var t := buf[off..off + |name|];
    assert forall k | 0 <= k < |name| :: t[k] == name[k] as int && name[k] in name;
    s := "";
    while buf[off + |s|] != 0
      invariant |s| <= |name| && s == name[..|s|]
      invariant |s| < |name| ==> buf[off + |s|] == t[|s|] && t[|s|] != 0
      decreases |name| - |s|
    {
      s := s + [buf[off + |s|] as char];
    }
  }

  /** The fixed part of the record at the cursor. */
  method ReadHeader(buf: array<Byte>, i: nat, ghost rec: Record) returns (wd: int, mask: Word, cookie: Word, len: Word)
    requires WellFormed(rec) && i + Size(rec) <= buf.Length
    requires buf[i..i + Size(rec)] == Encode(rec)
    ensures wd == rec.wd && mask == rec.mask && cookie == rec.cookie && len == rec.len
  {
    ghost var b := Encode(rec);
    FieldsOf(rec);
    var head := buf[i..i + EVENT_SIZE];
    assert head == buf[i..i + Size(rec)][..EVENT_SIZE] == b[..EVENT_SIZE];
    wd, mask, cookie, len := Signed(Unsigned(head, 0)), Unsigned(head, 4), Unsigned(head, 8), Unsigned(head, 12);
  }

  lemma SliceOfSlice<T>(b: seq<T>, i: nat, j: nat, k: nat, l: nat)
    requires i <= j <= |b| && k <= l <= j - i
    ensures b[i..j][k..l] == b[i + k..i + l]
  {
    var x, y := b[i..j][k..l], b[i + k..i + l];
    assert forall m | 0 <= m < |x| :: x[m] == b[i..j][k + m] == b[i + k + m] == y[m];
  }

  /** Where the name of an encoded record lies. */
  lemma NameAt(b: seq<Byte>, i: nat, rec: Record)
    requires WellFormed(rec) && i + Size(rec) <= |b| && b[i..i + Size(rec)] == Encode(rec) && rec.len != 0
    ensures var off := i + EVENT_SIZE;
            b[off..off + |rec.name|] == Text(rec.name) && b[off + |rec.name|] == 0
  {
    FieldsOf(rec);
    SliceOfSlice(b, i, i + Size(rec), EVENT_SIZE, EVENT_SIZE + |rec.name|);
    assert b[i..i + Size(rec)][EVENT_SIZE + |rec.name|] == b[i + EVENT_SIZE + |rec.name|];
  }

  /** The record the cursor points at (src/inotify.c:220). */
  method ReadRecord(buf: array<Byte>, i: nat, ghost rec: Record) returns (r: Record)
    requires WellFormed(rec) && i + Size(rec) <= buf.Length
    requires buf[i..i + Size(rec)] == Encode(rec)
    ensures r == rec
  {
    var wd, mask, cookie, len := ReadHeader(buf, i, rec);
    var name := "";
    if len != 0 {
      NameAt(buf[..], i, rec);
      name := ReadName(buf, i + EVENT_SIZE, rec.name);
    }
    r := Record(wd, mask, cookie, len, name);
  }
}
