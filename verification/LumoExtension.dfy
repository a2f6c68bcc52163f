/** Adding the Lumo extension to a record. */
module LumoExtension {
  import Sha3Sponge
  import opened Blake3Subtree
  import opened Blake3Tree
  import opened Common
  import opened LumoRecord
  import opened Rowsum
  import opened Varint

  const ROWSUM_TYPE: nat := 1
  const END_TYPE: nat := 0

  function Magic(): (s: seq<bv8>)
    ensures |s| == MAGIC_LEN
  {
    [0x4c, 0x75, 0x6d, 0x6f]
  }

  /** Bytes of the extension, or none if the algorithm is not one of the known ones. */
  function ExtensionLength(algorithm: nat): (n: nat)
  {
    if algorithm < N_ALGORITHMS then
      Len(ROWSUM_TYPE) + Len(algorithm) + Len(DigestLength(algorithm)) + DigestLength(algorithm)
      + MAGIC_LEN + Len(END_TYPE)
    else 0
  }

  lemma ExtensionLengthIs(algorithm: nat)
    requires algorithm < N_ALGORITHMS
    ensures ExtensionLength(algorithm) == DigestLength(algorithm) + 8
  {
    hide DigestLength;
    assert DigestLength(algorithm) <= 64;
  }

  /** The digest that goes in the extension; the empty algorithm has none. */
  function RowDigest(m: Mode, algorithm: nat, data: seq<bv8>): (d: seq<bv8>)
    requires algorithm < N_ALGORITHMS
    ensures |d| == DigestLength(algorithm)
  {
    if algorithm == 0 then [] else DigestOf(m, algorithm, data)
  }

  function EntryHead(algorithm: nat): seq<bv8>
    requires algorithm < N_ALGORITHMS
  {
    Put(ROWSUM_TYPE) + Put(algorithm) + Put(DigestLength(algorithm))
  }

  function Extension(m: Mode, algorithm: nat, data: seq<bv8>): seq<bv8>
    requires algorithm < N_ALGORITHMS
  {
    Magic() + EntryHead(algorithm) + RowDigest(m, algorithm, data) + Put(END_TYPE)
  }

  /** The extension byte by byte: the magic string "Lumo", the type of a row sum, the algorithm, the length of the
      digest, the digest, and the type that ends it. */
  lemma ExtensionSpelled(m: Mode, algorithm: nat, data: seq<bv8>)
    requires algorithm < N_ALGORITHMS
    ensures Extension(m, algorithm, data)
            == [0x4c, 0x75, 0x6d, 0x6f] + [1, Byte(algorithm), Byte(DigestLength(algorithm))]
               + RowDigest(m, algorithm, data) + [0]
  {
    hide RowDigest, DigestLength, Byte;
    OneByte(1);
    OneByte(algorithm);
    OneByte(DigestLength(algorithm));
    OneByte(0);
    assert Byte(1) == 1 && Byte(0) == 0 by { ByteLiterals(); }
    hide Put;
  }

  lemma OneByte(v: nat)
    requires v < 128
    ensures Put(v) == [Byte(v)]
  {
    hide Byte;
    assert Front(0) == [];
  }

  lemma ByteLiterals()
    ensures Byte(0) == 0 && Byte(1) == 1 && Byte(2) == 2 && Byte(3) == 3
  {
  }

  lemma ExtensionSize(m: Mode, algorithm: nat, data: seq<bv8>)
    requires algorithm < N_ALGORITHMS
    ensures |Extension(m, algorithm, data)| == ExtensionLength(algorithm)
  {
    hide Put, RowDigest, DigestLength, Magic;
    PutLength(ROWSUM_TYPE);
    PutLength(algorithm);
    PutLength(DigestLength(algorithm));
    PutLength(END_TYPE);
  }

  // ----- writing -----

  /** Copies bytes to a place in a buffer and returns the place after them. */
  method Store(dst: array<bv8>, at: nat, bytes: seq<bv8>) returns (next: nat)
    requires at + |bytes| <= dst.Length
    modifies dst
    ensures next == at + |bytes|
    ensures dst[..next] == old(dst[..at]) + bytes
    ensures forall i :: next <= i < dst.Length ==> dst[i] == old(dst[i])
  {
    for i := 0 to |bytes|
      invariant dst[..at + i] == old(dst[..at]) + bytes[..i]
      invariant forall j :: at + i <= j < dst.Length ==> dst[j] == old(dst[j])
    {
      dst[at + i] := bytes[i];
    }
    next := at + |bytes|;
  }

  lemma ZerosJoin(data: seq<bv8>, a: nat, b: nat)
    ensures data + Zeros(a) + Zeros(b) == data + Zeros(a + b)
  {
    assert Zeros(a) + Zeros(b) == Zeros(a + b);
    assert data + Zeros(a) + Zeros(b) == data + (Zeros(a) + Zeros(b));
  }

  /** Feeds zeros in pieces of 1024. */
  method FeedZeros(context: Digester, nZero: nat, aligned: bool)
    requires context.Valid() && |context.content| + nZero < SIZE_LIMIT
    modifies context.Repr()
    ensures context.Valid() && context.content == old(context.content) + Zeros(nZero)
    ensures context.Repr() == old(context.Repr())
  {
    hide Zeros, Digester.Valid;
    ghost var data := context.content;
    assert data + Zeros(0) == data;
    var nAddZero: nat := nZero;
    while nAddZero >= 1024
      invariant nAddZero <= nZero && context.Valid() && context.Repr() == old(context.Repr())
      invariant context.content == data + Zeros(nZero - nAddZero)
    {
      ZerosJoin(data, nZero - nAddZero, 1024);
      context.Update(Zeros(1024), aligned);
      nAddZero := nAddZero - 1024;
    }
    ZerosJoin(data, nZero - nAddZero, nAddZero);
    if nAddZero > 0 {
      context.Update(Zeros(nAddZero), aligned);
    } else {
      assert Zeros(0) == [];
    }
  }

  /** The digest of some data followed by zeros. */
  method DigestWithZeros(p: Platform, algorithm: nat, data: seq<bv8>, nZero: nat, aligned: bool) returns (d: seq<bv8>)
    requires 0 < algorithm < N_ALGORITHMS && GoodPlatform(p) && |data| + nZero < SIZE_LIMIT
    ensures d == DigestOf(p.mode, algorithm, data + Zeros(nZero))
  {
    hide DigestOf, Zeros;
    var context := new Digester(algorithm, p);
    if |data| > 0 {
      context.Update(data, aligned);
    }
    assert context.content == data;
    if nZero > 0 {
      FeedZeros(context, nZero, aligned);
    } else {
      assert data + Zeros(0) == data;
    }
    d := context.Final();
  }

  /** Writes what comes before the digest. */
  method WriteHead(algorithm: nat, dst: array<bv8>, at: nat) returns (next: nat)
    requires algorithm < N_ALGORITHMS && at + 7 <= dst.Length
    modifies dst
    ensures next == at + 7 && forall i :: next <= i < dst.Length ==> dst[i] == old(dst[i])
    ensures dst[..next] == old(dst[..at]) + (Magic() + EntryHead(algorithm))
  {
    hide Put, DigestLength, Magic;
    EntrySizes(algorithm);
    ghost var front := dst[..at];
    next := Store(dst, at, Magic());
    next := Store(dst, next, Put(ROWSUM_TYPE));
    next := Store(dst, next, Put(algorithm));
    next := Store(dst, next, Put(DigestLength(algorithm)));
    HeadParts(front, algorithm);
  }

  lemma HeadParts(front: seq<bv8>, algorithm: nat)
    requires algorithm < N_ALGORITHMS
    ensures front + Magic() + Put(ROWSUM_TYPE) + Put(algorithm) + Put(DigestLength(algorithm))
            == front + (Magic() + EntryHead(algorithm))
  {
    hide Put, DigestLength, Magic;
  }

  lemma ExtensionParts(front: seq<bv8>, m: Mode, algorithm: nat, data: seq<bv8>)
    requires algorithm < N_ALGORITHMS
    ensures front + (Magic() + EntryHead(algorithm)) + RowDigest(m, algorithm, data) + Put(END_TYPE)
            == front + Extension(m, algorithm, data)
  {
    hide Put, DigestLength, Magic, RowDigest, EntryHead;
  }

  /** Writes the extension for some data followed by zeros. */
  method WriteExtension(p: Platform, algorithm: nat, data: seq<bv8>, nZero: nat, aligned: bool, dst: array<bv8>, at: nat)
    requires algorithm < N_ALGORITHMS && GoodPlatform(p) && |data| + nZero < SIZE_LIMIT
    requires at + ExtensionLength(algorithm) <= dst.Length
    modifies dst
    ensures dst[..at + ExtensionLength(algorithm)]
            == old(dst[..at]) + Extension(p.mode, algorithm, data + Zeros(nZero))
    ensures forall i :: at + ExtensionLength(algorithm) <= i < dst.Length ==> dst[i] == old(dst[i])
  {
    EntrySizes(algorithm);
    hide RowDigest, DigestOf, Put, DigestLength, Magic, Zeros, EntryHead, Extension, ExtensionLength;
    ghost var digest := RowDigest(p.mode, algorithm, data + Zeros(nZero));
    ExtensionParts(dst[..at], p.mode, algorithm, data + Zeros(nZero));
    var z := WriteHead(algorithm, dst, at);
    ghost var head := dst[..z];
    if DigestLength(algorithm) > 0 {
      DigestThere(p.mode, algorithm, data + Zeros(nZero));
      var d := DigestWithZeros(p, algorithm, data, nZero, aligned);
      z := Store(dst, z, d);
    } else {
      assert head + digest == head;
    }
    assert dst[..z] == head + digest;
    z := Store(dst, z, Put(END_TYPE));
  }

  lemma EntrySizes(algorithm: nat)
    requires algorithm < N_ALGORITHMS
    ensures |Put(ROWSUM_TYPE)| == 1 && |Put(algorithm)| == 1 && |Put(END_TYPE)| == 1
    ensures |Put(DigestLength(algorithm))| == 1 && ExtensionLength(algorithm) == DigestLength(algorithm) + 8
    ensures |EntryHead(algorithm)| == 3
  {
    ExtensionLengthIs(algorithm);
    hide DigestLength, Put;
    PutLength(ROWSUM_TYPE);
    PutLength(algorithm);
    PutLength(DigestLength(algorithm));
    PutLength(END_TYPE);
  }

  lemma DigestThere(m: Mode, algorithm: nat, data: seq<bv8>)
    requires algorithm < N_ALGORITHMS && DigestLength(algorithm) > 0
    ensures algorithm > 0 && RowDigest(m, algorithm, data) == DigestOf(m, algorithm, data)
  {
  }

  // ----- the enlarged header -----

  /** The size of the header with one more type in it, as it is worked out. */
  function NewHeaderSize(oldHdr: nat, oldLen: nat, serialType: nat): nat
  {
    var h := oldHdr + Len(serialType);
    var n := Len(h);
    if n <= oldLen then h
    else
      var grown := h + (n - oldLen);
      if n < Len(grown) then grown + 1 else grown
  }

  /** The size written is the size the header has, the size's own bytes included, exactly if the old size
      was not written in more bytes than the new header needs for its own. */
  lemma HeaderSizeRight(oldHdr: nat, oldLen: nat, serialType: nat)
    requires 1 <= oldLen <= oldHdr && oldHdr + Len(serialType) <= MAX32
    ensures var h := NewHeaderSize(oldHdr, oldLen, serialType);
            h == Len(h) + (oldHdr - oldLen) + Len(serialType)
            <==> oldLen <= Len(oldHdr + Len(serialType))
  {
    var h := oldHdr + Len(serialType);
    var n := Len(h);
    LenBound(h);
    hide Len;
    if n > oldLen {
      LenNext(h, n - oldLen);
      LenNext(h, n - oldLen + 1);
      LenMonotone(h, h + (n - oldLen));
      LenMonotone(h + (n - oldLen), h + (n - oldLen) + 1);
    }
  }

  /** A header of three bytes whose size is written in two: with a column type of one byte more, the size
      written is 4, but the header takes 3 bytes. */
  lemma HeaderSizeWrongInput()
    ensures var z: seq<bv8> := [0x80, 3, 1, 5];
      WellFormed(z, 0) && HeaderLen(z) == 3 && Get(z, 0).len == 2 && !Minimal(z)
    ensures var h := NewHeaderSize(3, 2, 28); h == 4 && Len(h) + (3 - 2) + Len(28) == 3
  {
    var z: seq<bv8> := [0x80, 3, 1, 5];
    ReadStep(z, 0, 0, 0);
    ReadStep(z, 0, 1, 0);
    OneByteRead(z, 1);
    assert Get(z, 0) == Read(3, 2);
    OneByteRead(z, 2);
    assert Columns(z, 3, 3) == Some([]);
    assert Columns(z, 2, 3) == Some([1] + []);
    assert Total([1]) == 1;
    assert Put(3) == [z[1]];
    assert Len(4) == 1 && Len(28) == 1;
  }

  /** The enlarged table row up to the extension: what is hashed. */
  function TablePrefix(z: seq<bv8>, nZero: nat, serialType: nat): seq<bv8>
    requires |z| > 0 && Get(z, 0).len <= HeaderLen(z) <= |z|
  {
    Put(NewHeaderSize(HeaderLen(z), Get(z, 0).len, serialType)) + z[Get(z, 0).len..HeaderLen(z)] + Put(serialType)
    + z[HeaderLen(z)..] + Zeros(nZero)
  }

  /** A record that stays within the 32-bit sizes of the code. */
  predicate Fits(z: seq<bv8>, nZero: nat)
  {
    |z| + nZero + 200 < TWO31
  }

  lemma MinimalLen(z: seq<bv8>)
    requires |z| > 0 && Minimal(z)
    ensures Get(z, 0).len == Len(HeaderLen(z)) == |Put(HeaderLen(z))|
  {
    hide Put;
    GetPut(z, 0, HeaderLen(z));
    PutLength(HeaderLen(z));
  }

  lemma SizesFit(z: seq<bv8>, nZero: nat, serialType: nat)
    requires |z| > 0 && Minimal(z) && Get(z, 0).len <= HeaderLen(z) <= |z| && Fits(z, nZero) && serialType <= MAX32
    ensures var h := NewHeaderSize(HeaderLen(z), Get(z, 0).len, serialType);
            && h == Len(h) + (HeaderLen(z) - Get(z, 0).len) + Len(serialType)
            && HeaderLen(z) < h <= HeaderLen(z) + 12 && h <= MAX32
            && |TablePrefix(z, nZero, serialType)| == |z| + nZero + h - HeaderLen(z)
  {
    hide Put, Get, Len, Zeros, Minimal;
    var hdr := HeaderLen(z);
    MinimalLen(z);
    LenBound(serialType);
    LenBound(hdr + Len(serialType));
    LenMonotone(hdr, hdr + Len(serialType));
    HeaderSizeRight(hdr, Get(z, 0).len, serialType);
    var h := NewHeaderSize(hdr, Get(z, 0).len, serialType);
    PutLength(h);
    PutLength(serialType);
  }

  /** The enlarged row is a record again: its header says its own size, its types are the old ones and a
      blob, its columns the old ones, zeros written out, and the blob's bytes. */
  lemma EnlargedRow(z: seq<bv8>, nZero: nat, serialType: nat, tail: seq<bv8>)
    requires WellFormed(z, nZero) && Minimal(z) && Fits(z, nZero)
    requires serialType <= MAX32 && SerialLen(serialType) == |tail|
    ensures var prefix := TablePrefix(z, nZero, serialType);
            var row := prefix + tail;
            && |row| > 0 && HeaderLen(row) == NewHeaderSize(HeaderLen(z), Get(z, 0).len, serialType) <= |prefix|
            && WellFormed(row, 0) && TypesOf(row, 0) == TypesOf(z, nZero) + [serialType]
            && row[HeaderLen(row)..] == z[HeaderLen(z)..] + Zeros(nZero) + tail
            && |prefix| == HeaderLen(row) + Total(TypesOf(z, nZero))
  {
    hide Get, Put, Columns, Total, Zeros, SerialLen, NewHeaderSize, Minimal, Len;
    SizesFit(z, nZero, serialType);
    var hdr, len := HeaderLen(z), Get(z, 0).len;
    var h := NewHeaderSize(hdr, len, serialType);
    var types := TypesOf(z, nZero);
    var row := TablePrefix(z, nZero, serialType) + tail;
    var mid := Len(h) + (hdr - len);
    RowParts(z, nZero, serialType, tail, h);
    GetPut(row, 0, h);
    SameColumns(z, len, hdr, row, Len(h), mid);
    ColumnsMore(row, Len(h), mid, serialType);
    TotalAppend(types, [serialType]);
    TotalOne(serialType);
  }

  lemma TotalOne(t: nat)
    ensures Total([t]) == SerialLen(t)
  {
    assert Total([t]) == SerialLen(t) + Total([]);
  }

  lemma RowParts(z: seq<bv8>, nZero: nat, serialType: nat, tail: seq<bv8>, h: nat)
    requires |z| > 0 && Get(z, 0).len <= HeaderLen(z) <= |z| && serialType <= MAX32
    requires h == NewHeaderSize(HeaderLen(z), Get(z, 0).len, serialType)
    requires h == Len(h) + (HeaderLen(z) - Get(z, 0).len) + Len(serialType)
    ensures var row := TablePrefix(z, nZero, serialType) + tail;
            var mid := Len(h) + (HeaderLen(z) - Get(z, 0).len);
            && HasAt(row, 0, Put(h)) && mid <= |row| && row[Len(h)..mid] == z[Get(z, 0).len..HeaderLen(z)]
            && HasAt(row, mid, Put(serialType)) && |Put(serialType)| == Len(serialType)
            && h <= |row| && row[h..] == z[HeaderLen(z)..] + Zeros(nZero) + tail
  {
    hide Get, Put, Zeros, NewHeaderSize, Len;
    PutLength(h);
    PutLength(serialType);
    var a, b, c, d := Put(h), z[Get(z, 0).len..HeaderLen(z)], Put(serialType), z[HeaderLen(z)..] + Zeros(nZero) + tail;
    assert TablePrefix(z, nZero, serialType) + tail == a + b + c + d;
    FourParts(a, b, c, d);
  }

  lemma FourParts(a: seq<bv8>, b: seq<bv8>, c: seq<bv8>, d: seq<bv8>)
    ensures var s := a + b + c + d;
            && HasAt(s, 0, a) && s[|a|..|a| + |b|] == b && HasAt(s, |a| + |b|, c) && s[|a| + |b| + |c|..] == d
  {
  }

  // ----- adding the extension -----

  datatype Code = Ok | Corrupt

  function RowidBytes(z: seq<bv8>): seq<bv8>
    requires RowidIndex(z)
  {
    RowidFits(z);
    z[|z| - SerialLen(RowidType(z))..]
  }

  /** The serial type of the blob that accounts for the extension. */
  function BlobType(algorithm: nat): nat
  {
    2 * ExtensionLength(algorithm) + 12
  }

  lemma BlobTypeIs(algorithm: nat)
    requires algorithm < N_ALGORITHMS
    ensures BlobType(algorithm) <= 156 && SerialLen(BlobType(algorithm)) == ExtensionLength(algorithm)
    ensures LooksLikeExtension(BlobType(algorithm))
  {
    ExtensionLengthIs(algorithm);
    hide ExtensionLength, DigestLength;
    assert DigestLength(algorithm) <= 64;
  }

  /** What of the new record is hashed: all that comes before the extension. */
  function Hashed(isIndex: bool, algorithm: nat, z: seq<bv8>, nZero: nat): seq<bv8>
    requires WellFormed(z, nZero)
  {
    if isIndex then z else TablePrefix(z, nZero, BlobType(algorithm))
  }

  /** The record with the extension; an index record also has its rowid once more, at the very end. */
  function Extended(m: Mode, algorithm: nat, isIndex: bool, z: seq<bv8>, nZero: nat): seq<bv8>
    requires algorithm < N_ALGORITHMS && WellFormed(z, nZero) && (isIndex ==> RowidIndex(z))
  {
    var hashed := Hashed(isIndex, algorithm, z, nZero);
    hashed + Extension(m, algorithm, hashed) + (if isIndex then RowidBytes(z) else [])
  }

  /** Writes the header and the columns: all that is hashed. */
  method WriteRecord(isIndex: bool, z: seq<bv8>, nZero: nat, serialType: nat, newHdr: nat, dst: array<bv8>)
    returns (next: nat)
    requires |z| > 0 && Get(z, 0).len <= HeaderLen(z) <= |z|
    requires |Put(newHdr)| + |z| - Get(z, 0).len + (if isIndex then 0 else |Put(serialType)|) + nZero <= dst.Length
    requires forall i :: 0 <= i < dst.Length ==> dst[i] == 0
    modifies dst
    ensures next <= dst.Length
    ensures dst[..next] == Put(newHdr) + z[Get(z, 0).len..HeaderLen(z)] + (if isIndex then [] else Put(serialType))
                           + z[HeaderLen(z)..] + Zeros(nZero)
    ensures forall i :: next <= i < dst.Length ==> dst[i] == 0
  {
    hide Put, Get, Zeros;
    var oldHdr, oldLen := HeaderLen(z), Get(z, 0).len;
    next := Store(dst, 0, Put(newHdr));
    assert dst[..next] == Put(newHdr);
    next := Store(dst, next, z[oldLen..oldHdr]);
    ghost var front := dst[..next];
    if !isIndex {
      next := Store(dst, next, Put(serialType));
    } else {
      assert front + [] == front;
    }
    ghost var typed := dst[..next];
    if |z| > oldHdr {
      next := Store(dst, next, z[oldHdr..]);
    } else {
      assert z[oldHdr..] == [] && typed + [] == typed;
    }
    ghost var full := dst[..next];
    if nZero > 0 {
      next := Store(dst, next, Zeros(nZero));
    } else {
      assert Zeros(0) == [] && full + [] == full;
    }
  }

  /** The header size that is written. */
  function NewHeader(isIndex: bool, algorithm: nat, z: seq<bv8>): nat
    requires |z| > 0
  {
    if isIndex then HeaderLen(z) else NewHeaderSize(HeaderLen(z), Get(z, 0).len, BlobType(algorithm))
  }

  /** A record whose header is inside it. */
  predicate HeaderInside(z: seq<bv8>)
  {
    |z| > 0 && Get(z, 0).len <= HeaderLen(z) <= |z|
  }

  /** The header and the columns as they are written. */
  function Columnar(isIndex: bool, algorithm: nat, z: seq<bv8>, nZero: nat): seq<bv8>
    requires HeaderInside(z)
  {
    Put(NewHeader(isIndex, algorithm, z)) + z[Get(z, 0).len..HeaderLen(z)]
    + (if isIndex then [] else Put(BlobType(algorithm))) + z[HeaderLen(z)..] + Zeros(nZero)
  }

  /** How many bytes more than are written the code takes the header and the columns for: those by which
      the old size was written longer than the new one needs. */
  function Spare(isIndex: bool, algorithm: nat, z: seq<bv8>): nat
    requires |z| > 0
  {
    var n := Len(NewHeader(isIndex, algorithm, z));
    if n < Get(z, 0).len then Get(z, 0).len - n else 0
  }

  /** The whole new record: the spare bytes are hashed as zeros behind the columns, and left over as zeros
      at the end. */
  function Enlarged(m: Mode, algorithm: nat, isIndex: bool, z: seq<bv8>, nZero: nat): seq<bv8>
    requires algorithm < N_ALGORITHMS && HeaderInside(z)
    requires isIndex ==> 0 < HeaderLen(z) && SerialLen(RowidType(z)) <= |z|
  {
    var w, spare := Columnar(isIndex, algorithm, z, nZero), Zeros(Spare(isIndex, algorithm, z));
    w + Extension(m, algorithm, w + spare) + (if isIndex then z[|z| - SerialLen(RowidType(z))..] else []) + spare
  }

  /** Adds the extension to a record in a new buffer. A rowid that is no integer is taken for corruption. */
  method ExtensionAdd(p: Platform, algorithm: nat, isIndex: bool, zOld: seq<bv8>, nZero: nat, aligned: bool)
    returns (code: Code, zNew: array?<bv8>)
    requires GoodPlatform(p) && HeaderInside(zOld) && Fits(zOld, nZero)
    requires isIndex && HasRowid(RowidType(zOld)) ==> SerialLen(RowidType(zOld)) <= |zOld|
    ensures algorithm >= N_ALGORITHMS ==> code == Ok && zNew == null
    ensures algorithm < N_ALGORITHMS && isIndex && !HasRowid(RowidType(zOld)) ==> code == Corrupt && zNew == null
    ensures algorithm < N_ALGORITHMS && (isIndex ==> HasRowid(RowidType(zOld))) ==>
              && code == Ok && zNew != null && fresh(zNew)
              && zNew[..] == Enlarged(p.mode, algorithm, isIndex, zOld, nZero)
  {
    hide Put, Get, Zeros, DigestLength, Extension, RowDigest, NewHeaderSize, Val, ExtensionLength, Columnar, Spare,
      SerialLen, HasRowid;
    zNew := null;
    if algorithm >= N_ALGORITHMS {
      return Ok, null;
    }
    var iLumoExt := ExtensionLength(algorithm);
    var oldHdr, oldLen := HeaderLen(zOld), Get(zOld, 0).len;
    var nRowid, serialType, newHdr := 0, 0, oldHdr;
    if isIndex {
      var typeRowid := Val(zOld[oldHdr - 1]);
      BadExactly(typeRowid);
      if typeRowid < 1 || typeRowid == 7 || typeRowid > 9 {
        return Corrupt, null;
      }
      nRowid := SerialLen(typeRowid);
    } else {
      serialType := iLumoExt * 2 + 12;
      newHdr := NewHeaderSize(oldHdr, oldLen, serialType);
    }
    zNew := Build(p, algorithm, isIndex, zOld, nZero, serialType, newHdr, nRowid, aligned);
    code := Ok;
  }

  /** Allocates the new record and writes it. */
  method Build(p: Platform, algorithm: nat, isIndex: bool, zOld: seq<bv8>, nZero: nat, serialType: nat, newHdr: nat,
               nRowid: nat, aligned: bool)
    returns (zNew: array<bv8>)
    requires algorithm < N_ALGORITHMS && GoodPlatform(p) && HeaderInside(zOld) && Fits(zOld, nZero)
    requires newHdr == NewHeader(isIndex, algorithm, zOld)
    requires if isIndex then nRowid == SerialLen(RowidType(zOld)) <= |zOld|
             else nRowid == 0 && serialType == BlobType(algorithm)
    ensures fresh(zNew) && zNew[..] == Enlarged(p.mode, algorithm, isIndex, zOld, nZero)
  {
    hide Put, Get, Zeros, DigestLength, Extension, RowDigest, NewHeaderSize, Val, ExtensionLength, SerialLen, BlobType,
      GoodPlatform, NewHeader, Spare, Len;
    SumIs(isIndex, algorithm, zOld, nZero);
    ghost var w, spare := Columnar(isIndex, algorithm, zOld, nZero), Spare(isIndex, algorithm, zOld);
    var iLumoExt := ExtensionLength(algorithm);
    var nSum := |zOld| + nZero + newHdr - HeaderLen(zOld);
    zNew := new bv8[nSum + iLumoExt + nRowid](ZeroAt);
    var at := WriteRecord(isIndex, zOld, nZero, serialType, newHdr, zNew);
    assert zNew[..at] == w;
    hide Columnar;
    assert zNew[..nSum] == w + Zeros(spare);
    NoZeros(w + Zeros(spare));
    WriteExtension(p, algorithm, zNew[..nSum], 0, aligned, zNew, at);
    at := at + iLumoExt;
    ghost var most := zNew[..at];
    if nRowid > 0 {
      at := Store(zNew, at, zOld[|zOld| - nRowid..]);
    } else {
      assert most + [] == most && zOld[|zOld| - 0..] == [];
    }
    assert at + spare == zNew.Length;
    assert zNew[..] == zNew[..at] + Zeros(spare);
  }

  lemma NoZeros(data: seq<bv8>)
    ensures data + Zeros(0) == data
  {
    assert Zeros(0) == [];
  }

  /** The lengths of the pieces written, and of what is allocated and hashed. */
  lemma SumIs(isIndex: bool, algorithm: nat, z: seq<bv8>, nZero: nat)
    requires algorithm < N_ALGORITHMS && HeaderInside(z) && Fits(z, nZero)
    ensures var h := NewHeader(isIndex, algorithm, z);
            && |Put(h)| + |z| - Get(z, 0).len + (if isIndex then 0 else |Put(BlobType(algorithm))|) + nZero
               == |Columnar(isIndex, algorithm, z, nZero)|
            && |z| + nZero + h - HeaderLen(z) == |Columnar(isIndex, algorithm, z, nZero)| + Spare(isIndex, algorithm, z)
            && |z| + nZero + h - HeaderLen(z) < SIZE_LIMIT
  {
    BlobTypeIs(algorithm);
    hide Put, Get, Zeros, BlobType, Len, NewHeaderSize;
    var hdr, len := HeaderLen(z), Get(z, 0).len;
    var h := NewHeader(isIndex, algorithm, z);
    PutLength(h);
    PutLength(BlobType(algorithm));
    LenBound(BlobType(algorithm));
    if isIndex {
      LenOfGet(z, 0);
    } else {
      HeaderGrows(hdr, len, BlobType(algorithm));
    }
  }

  /** What the new header size and the bytes of the header come to. */
  lemma HeaderGrows(oldHdr: nat, oldLen: nat, serialType: nat)
    requires 1 <= oldLen <= oldHdr && oldHdr + Len(serialType) + 10 <= MAX32
    ensures var h := NewHeaderSize(oldHdr, oldLen, serialType);
            && h + (if Len(h) < oldLen then Len(h) - oldLen else 0) == Len(h) + (oldHdr - oldLen) + Len(serialType)
            && h <= oldHdr + Len(serialType) + 6
  {
    var h := oldHdr + Len(serialType);
    var n := Len(h);
    LenBound(h);
    hide Len;
    if n > oldLen {
      LenNext(h, n - oldLen);
      LenNext(h, n - oldLen + 1);
      LenMonotone(h, h + (n - oldLen));
      LenMonotone(h + (n - oldLen), h + (n - oldLen) + 1);
    }
  }

  lemma IndexColumnar(algorithm: nat, z: seq<bv8>)
    requires HeaderInside(z) && Put(HeaderLen(z)) == z[..Get(z, 0).len]
    ensures Columnar(true, algorithm, z, 0) == z
  {
    hide Put, Get, Zeros;
    var l := Get(z, 0).len;
    assert z[..l] + z[l..HeaderLen(z)] == z[..HeaderLen(z)];
    assert z[..HeaderLen(z)] + [] + z[HeaderLen(z)..] == z;
    NoZeros(z);
  }

  lemma ColumnarIsHashed(isIndex: bool, algorithm: nat, z: seq<bv8>, nZero: nat)
    requires algorithm < N_ALGORITHMS && WellFormed(z, nZero) && Minimal(z) && Fits(z, nZero)
    requires isIndex ==> nZero == 0
    ensures HeaderInside(z) && Spare(isIndex, algorithm, z) == 0
    ensures Columnar(isIndex, algorithm, z, nZero) == Hashed(isIndex, algorithm, z, nZero)
  {
    MinimalLen(z);
    hide Put, Get, Zeros, Columns, Total, NewHeaderSize, BlobType, Len, Minimal;
    if isIndex {
      hide Columnar;
      assert Put(HeaderLen(z)) == z[..Get(z, 0).len] by { MinimalFront(z); }
      IndexColumnar(algorithm, z);
    } else {
      BlobTypeIs(algorithm);
      SizesFit(z, nZero, BlobType(algorithm));
      LenMonotone(HeaderLen(z), NewHeader(isIndex, algorithm, z));
    }
  }

  /** For a well-formed record with a minimal size, an index record without zeros, nothing is spare. */
  lemma EnlargedIsExtended(m: Mode, algorithm: nat, isIndex: bool, z: seq<bv8>, nZero: nat)
    requires algorithm < N_ALGORITHMS && WellFormed(z, nZero) && Minimal(z) && Fits(z, nZero)
    requires isIndex ==> nZero == 0 && RowidIndex(z)
    ensures HeaderInside(z) && (isIndex ==> 0 < HeaderLen(z) && SerialLen(RowidType(z)) <= |z|)
    ensures Enlarged(m, algorithm, isIndex, z, nZero) == Extended(m, algorithm, isIndex, z, nZero)
  {
    if isIndex { RowidFits(z); }
    ColumnarIsHashed(isIndex, algorithm, z, nZero);
    hide Get, Zeros, Columns, Total, Extension, Val, SerialLen, Minimal, Columnar, Hashed, Spare, HeaderInside;
    var w := Columnar(isIndex, algorithm, z, nZero);
    NoZeros(w);
    NoZeros(w + Extension(m, algorithm, w) + (if isIndex then z[|z| - SerialLen(RowidType(z))..] else []));
  }

  lemma MinimalFront(z: seq<bv8>)
    requires |z| > 0 && Minimal(z) && Get(z, 0).len <= |z|
    ensures z[..Get(z, 0).len] == Put(HeaderLen(z))
  {
    MinimalLen(z);
    hide Put, Get;
  }

  // ----- what has been added is found -----

  /** The extension of an enlarged table row is found from any point of its header, behind exactly the
      bytes that were hashed. */
  lemma FoundAfterAddTable(m: Mode, algorithm: nat, z: seq<bv8>, nZero: nat, s: Scan, k: nat)
    requires algorithm < N_ALGORITHMS && WellFormed(z, nZero) && Minimal(z) && Fits(z, nZero)
    requires k <= |TypesOf(z, nZero)|
    requires ParsedTo(Extended(m, algorithm, false, z, nZero), s, TypesOf(z, nZero) + [BlobType(algorithm)], k)
    ensures var row := Extended(m, algorithm, false, z, nZero);
            Located(false, row, HeaderLen(row), |TypesOf(z, nZero)|, s)
            == Found(|Hashed(false, algorithm, z, nZero)|, ExtensionLength(algorithm))
  {
    hide Put, Get, Zeros, Columns, Total, Extension, NewHeaderSize, Minimal, ExtensionLength, TablePrefix,
      Located, ParsedTo, BlobType;
    var prefix := TablePrefix(z, nZero, BlobType(algorithm));
    var tail := Extension(m, algorithm, prefix);
    BlobTypeIs(algorithm);
    ExtensionSize(m, algorithm, prefix);
    assert prefix + tail + [] == prefix + tail;
    EnlargedRow(z, nZero, BlobType(algorithm), tail);
    var types := TypesOf(z, nZero);
    FoundInTable(prefix + tail, s, k, |types|);
    assert (types + [BlobType(algorithm)])[..|types|] == types;
  }

  /** The same for an index record, whose first bytes are the old record and whose last are its rowid. */
  lemma FoundAfterAddIndex(m: Mode, algorithm: nat, z: seq<bv8>, s: Scan, k: nat)
    requires algorithm < N_ALGORITHMS && RowidIndex(z) && !BadRowidType(RowidType(z)) && Fits(z, 0)
    requires k <= |TypesOf(z, 0)| && ParsedTo(Extended(m, algorithm, true, z, 0), s, TypesOf(z, 0), k)
    ensures var row := Extended(m, algorithm, true, z, 0);
            && z <= row && HeaderLen(z) <= |z| && |row| >= |RowidBytes(z)|
            && row[|row| - |RowidBytes(z)|..] == RowidBytes(z)
            && Located(true, row, HeaderLen(z), |TypesOf(z, 0)|, s) == Found(|z|, ExtensionLength(algorithm))
  {
    hide Put, Get, Columns, Total, Extension, Val, ParsedTo, Located, ExtensionLength;
    RowidFits(z);
    var ext := Extension(m, algorithm, z);
    ExtensionSize(m, algorithm, z);
    BlobTypeIs(algorithm);
    assert z + ext + RowidBytes(z) == z + (ext + RowidBytes(z));
    FoundInIndex(z, ext + RowidBytes(z), s, k);
  }
}
