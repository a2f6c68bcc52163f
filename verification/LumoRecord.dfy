/** SQLite records (file format, section 2.1) and where the Lumo extension sits in them: in a table
    row a last blob column that the reader does not ask for, in an index row bytes between the record and
    a second copy of its rowid. */
module LumoRecord {
  import opened Common
  import opened Varint

  /** Bytes of a column of the given serial type. */
  function SerialLen(t: nat): nat
  {
    if t >= 12 then (t - 12) / 2
    else [0, 1, 2, 3, 4, 6, 8, 8, 0, 0, 0, 0][t]
  }

  // ----- numbers and their types -----

  predicate IsRowid(v: int)
  {
    -0x8000_0000_0000_0000 <= v < 0x8000_0000_0000_0000
  }

  /** The serial type of an integer: 0 and 1 have one of their own, others take the fewest bytes that hold
      them in two's complement. */
  function IntegerType(v: int): nat
  {
    if v == 0 then 8
    else if v == 1 then 9
    else if -0x80 <= v < 0x80 then 1
    else if -0x8000 <= v < 0x8000 then 2
    else if -0x80_0000 <= v < 0x80_0000 then 3
    else if -0x8000_0000 <= v < 0x8000_0000 then 4
    else if -0x8000_0000_0000 <= v < 0x8000_0000_0000 then 5
    else 6
  }

  function Power256(n: nat): nat
  {
    if n == 0 then 1 else 256 * Power256(n - 1)
  }

  /** Whether n bytes of two's complement can hold a number; no bytes at all hold 0. */
  predicate Holds(n: nat, v: int)
  {
    if n == 0 then v == 0 else -(128 * Power256(n - 1)) <= v < 128 * Power256(n - 1)
  }

  lemma Powers()
    ensures Power256(0) == 1 && Power256(1) == 0x100 && Power256(2) == 0x1_0000 && Power256(3) == 0x100_0000
    ensures Power256(5) == 0x100_0000_0000 && Power256(7) == 0x100_0000_0000_0000
  {
    assert Power256(4) == 0x1_0000_0000 && Power256(6) == 0x1_0000_0000_0000;
  }

  /** The bytes of a type hold the integers that have it, and those of no type with fewer bytes do. */
  lemma IntegerHeld(v: int, t: nat)
    requires IsRowid(v)
    ensures v != 0 && v != 1 ==> Holds(SerialLen(IntegerType(v)), v)
    ensures v == 0 || v == 1 ==> SerialLen(IntegerType(v)) == 0
    ensures v != 0 && v != 1 && 1 <= t < IntegerType(v) ==>
              SerialLen(t) < SerialLen(IntegerType(v)) && !Holds(SerialLen(t), v)
  {
    Powers();
    hide Power256;
  }

  /** The types that are no integers: nothing for NULL and for the two that are not used, eight bytes for a
      floating-point number, and any number of bytes for a blob and for a text. */
  lemma OtherLengths(n: nat)
    ensures SerialLen(0) == SerialLen(10) == SerialLen(11) == 0 && SerialLen(7) == 8
    ensures SerialLen(12 + 2 * n) == SerialLen(13 + 2 * n) == n
  {
  }

  ghost predicate HasRowid(t: nat)
  {
    exists v :: IsRowid(v) && IntegerType(v) == t
  }

  /** The types called bad are just those that no rowid has. */
  lemma BadExactly(t: nat)
    ensures BadRowidType(t) <==> !HasRowid(t)
  {
    if !BadRowidType(t) {
      var v := [0, 2, 0x80, 0x8000, 0x80_0000, 0x8000_0000, 0x8000_0000_0000, 0, 0, 1][t];
      assert IsRowid(v) && IntegerType(v) == t;
    }
  }

  function Total(types: seq<nat>): nat
  {
    if |types| == 0 then 0 else SerialLen(types[0]) + Total(types[1..])
  }

  lemma {:induction false} TotalAppend(a: seq<nat>, b: seq<nat>)
    ensures Total(a + b) == Total(a) + Total(b)
  {
    if |a| == 0 {
      assert a + b == b;
    } else {
      TotalAppend(a[1..], b);
      assert (a + b)[1..] == a[1..] + b;
    }
  }

  /** The serial types that the bytes from off to end spell, if they spell whole ones. */
  function Columns(z: seq<bv8>, off: nat, end: nat): Option<seq<nat>>
    requires end <= |z|
    decreases if off < end then end - off else 0
  {
    if off == end then Some([])
    else if off > end then None
    else
      var r := Get(z, off);
      var rest := Columns(z, off + r.len, end);
      if rest == None then None else Some([r.value] + rest.value)
  }

  /** The offset of the k-th of those types. */
  function TypeAt(z: seq<bv8>, off: nat, end: nat, k: nat): nat
    requires end <= |z|
    decreases k
  {
    if k == 0 || off >= end then off else TypeAt(z, off + Get(z, off).len, end, k - 1)
  }

  /** The same bytes elsewhere spell the same types. */
  lemma {:induction false} SameColumns(z: seq<bv8>, off: nat, end: nat, z': seq<bv8>, off': nat, end': nat)
    requires off <= end <= |z| && off' <= end' <= |z'| && end - off == end' - off'
    requires Columns(z, off, end).Some? && z[off..end] == z'[off'..end']
    ensures Columns(z', off', end') == Columns(z, off, end)
    decreases end - off
  {
    hide Get;
    if off < end {
      var n := Get(z, off).len;
      assert off + n <= end;
      assert z[off..off + n] == z[off..end][..n];
      assert z'[off'..off' + n] == z'[off'..end'][..n];
      SameGet(z, off, z', off');
      assert z[off + n..end] == z[off..end][n..];
      assert z'[off' + n..end'] == z'[off'..end'][n..];
      SameColumns(z, off + n, end, z', off' + n, end');
    }
  }

  /** A type written after some types. */
  lemma {:induction false} ColumnsMore(z: seq<bv8>, off: nat, mid: nat, t: nat)
    requires off <= mid && t <= MAX32 && HasAt(z, mid, Put(t)) && mid <= |z| && Columns(z, off, mid).Some?
    ensures mid + |Put(t)| <= |z|
    ensures Columns(z, off, mid + |Put(t)|) == Some(Columns(z, off, mid).value + [t])
    decreases mid - off
  {
    hide Get, Put;
    GetPut(z, mid, t);
    PutLength(t);
    if off < mid {
      ColumnsMore(z, off + Get(z, off).len, mid, t);
      assert [Get(z, off).value] + Columns(z, off + Get(z, off).len, mid).value + [t]
          == [Get(z, off).value] + (Columns(z, off + Get(z, off).len, mid).value + [t]);
    } else {
      assert Columns(z, mid + |Put(t)|, mid + |Put(t)|) == Some([]);
      assert [t] + [] == [t] && [] + [t] == [t];
    }
  }

  /** A record: the size of its header, which counts itself, then the types, then the columns, of which
      the last nZero bytes are zeros that are not stored. */
  predicate WellFormed(z: seq<bv8>, nZero: nat)
  {
    && |z| > 0
    && var h := Get(z, 0);
    && h.len <= h.value <= |z|
    && var types := Columns(z, h.len, h.value);
    && types.Some? && Total(types.value) == |z| + nZero - h.value
  }

  function HeaderLen(z: seq<bv8>): nat
    requires |z| > 0
  {
    Get(z, 0).value
  }

  function TypesOf(z: seq<bv8>, nZero: nat): seq<nat>
    requires WellFormed(z, nZero)
  {
    Columns(z, Get(z, 0).len, HeaderLen(z)).value
  }

  /** The size of the header is written in as few bytes as it takes. */
  predicate Minimal(z: seq<bv8>)
    requires |z| > 0
  {
    HasAt(z, 0, Put(HeaderLen(z)))
  }

  // ----- finding the extension -----

  /** How far a reader has parsed a header: columns, offset of the next type, offset of the next column. */
  datatype Scan = Scan(parsed: nat, offset: nat, col: nat)

  datatype Found = Absent | Found(start: nat, len: nat)

  const TWO31: int := 0x8000_0000
  const TWO32: int := 0x1_0000_0000
  const TWO64: int := 0x1_0000_0000_0000_0000

  /** A number stored in a 32-bit int. */
  function Int32(n: int): (r: int)
    ensures -TWO31 <= r < TWO31 && (-TWO31 <= n < TWO31 ==> r == n)
  {
    (n + TWO31) % TWO32 - TWO31
  }

  /** An int turned into an unsigned 64-bit number. */
  function Unsigned64(n: int): (r: nat)
    requires -TWO31 <= n < TWO31
  {
    if n < 0 then TWO64 + n else n
  }

  const MAGIC_LEN: nat := 4

  /** What a length makes of the search; the comparison with the length of the magic string is one of
      unsigned numbers, so a negative length counts as long enough. */
  function FoundAt(start: nat, iLen: int): Found
    requires -TWO31 <= iLen < TWO31
  {
    if Unsigned64(iLen) <= MAGIC_LEN then Absent else Found(start, Unsigned64(iLen))
  }

  /** Parsing on until all fields are parsed, or the header or the data ends. */
  function ScanOn(z: seq<bv8>, nHeader: nat, nField: nat, s: Scan): Scan
    requires nHeader <= |z|
    decreases nField - s.parsed
  {
    if s.parsed < nField && s.offset < nHeader && s.col < |z| then
      var r := Get(z, s.offset);
      ScanOn(z, nHeader, nField, Scan(s.parsed + 1, s.offset + r.len, s.col + SerialLen(r.value)))
    else s
  }

  /** The type of a rowid column must be that of an integer. */
  predicate BadRowidType(t: nat)
  {
    t < 1 || t == 7 || t > 9
  }

  function Located(isIndex: bool, z: seq<bv8>, nHeader: nat, nField: nat, s: Scan): Found
    requires 0 < nHeader <= |z|
  {
    var e := ScanOn(z, nHeader, nField, s);
    if e.parsed < nField then Absent
    else if isIndex then
      var typeRowid := Val(z[nHeader - 1]);
      if BadRowidType(typeRowid) then Absent
      else FoundAt(e.col, Int32(|z| - SerialLen(typeRowid) - e.col))
    else if e.offset >= nHeader then Absent
    else
      var t := Int32(Get(z, e.offset).value);
      if t < 14 || t % 2 == 1 then Absent else FoundAt(e.col, (t - 12) / 2)
  }

  /** If the last byte of the header ends a number, no number that the search reads goes past the header:
      the scan never moves past it, and the type it looks at after the scan ends in it. */
  lemma {:induction false} ScanInHeader(z: seq<bv8>, nHeader: nat, nField: nat, s: Scan)
    requires 0 < nHeader <= |z| && Val(z[nHeader - 1]) < 128 && s.offset <= nHeader
    ensures var e := ScanOn(z, nHeader, nField, s);
            e.offset <= nHeader && (e.offset < nHeader ==> e.offset + Get(z, e.offset).len <= nHeader)
    decreases nField - s.parsed
  {
    hide Get, Val, SerialLen;
    if s.offset < nHeader {
      StopsAtLast(z, s.offset, nHeader - 1);
      if s.parsed < nField && s.col < |z| {
        var r := Get(z, s.offset);
        ScanInHeader(z, nHeader, nField, Scan(s.parsed + 1, s.offset + r.len, s.col + SerialLen(r.value)));
      }
    }
  }

  /** A scan that only the header stops ends with it exactly if what is left of the header are whole
      numbers. */
  lemma {:induction false} ScanEndsWithHeader(z: seq<bv8>, nHeader: nat, nField: nat, s: Scan)
    requires nHeader <= |z| && s.offset <= nHeader
    requires var e := ScanOn(z, nHeader, nField, s); e.parsed < nField && e.col < |z|
    ensures ScanOn(z, nHeader, nField, s).offset == nHeader <==> Columns(z, s.offset, nHeader).Some?
    decreases nField - s.parsed
  {
    hide Get, SerialLen;
    if s.offset < nHeader {
      var r := Get(z, s.offset);
      var next := Scan(s.parsed + 1, s.offset + r.len, s.col + SerialLen(r.value));
      if next.offset <= nHeader { ScanEndsWithHeader(z, nHeader, nField, next); }
    }
  }

  /** Otherwise it may: here the number at the end of a header of two bytes takes a third byte. */
  lemma ScanPastHeader()
    ensures ScanOn([2, 0x80, 5], 2, 1, Scan(0, 1, 2)).offset == 3
  {
    var z: seq<bv8> := [2, 0x80, 5];
    ReadStep(z, 1, 0, 0);
    ReadStep(z, 1, 1, 0);
    assert Get(z, 1) == Read(5, 2);
  }

  /** Looks for the extension, going on from wherever the header has been parsed to. */
  method ExtensionPresent(isIndex: bool, nParsed: nat, nOffset: nat, nCol: nat, nField: nat, zData: seq<bv8>,
                          nHeader: nat)
    returns (found: Found)
    requires 0 < nHeader <= |zData|
    ensures found == Located(isIndex, zData, nHeader, nField, Scan(nParsed, nOffset, nCol))
  {
    hide Get, Val, SerialLen;
    var parsed: nat, offset: nat, col: nat := nParsed, nOffset, nCol;
    while parsed < nField && offset < nHeader && col < |zData|
      invariant ScanOn(zData, nHeader, nField, Scan(parsed, offset, col))
                == ScanOn(zData, nHeader, nField, Scan(nParsed, nOffset, nCol))
      decreases nField - parsed
    {
      var r := Get(zData, offset);
      offset := offset + r.len;
      col := col + SerialLen(r.value);
      parsed := parsed + 1;
    }
    if parsed < nField {
      return Absent;
    }
    var iLen;
    if isIndex {
      var typeRowid := Val(zData[nHeader - 1]);
      if typeRowid < 1 || typeRowid == 7 || typeRowid > 9 {
        return Absent;
      }
      iLen := Int32(|zData| - SerialLen(typeRowid) - col);
    } else {
      if offset >= nHeader {
        return Absent;
      }
      var iType := Int32(Get(zData, offset).value);
      if iType < 14 || iType % 2 == 1 {
        return Absent;
      }
      iLen := (iType - 12) / 2;
    }
    if Unsigned64(iLen) <= MAGIC_LEN {
      return Absent;
    }
    found := Found(col, Unsigned64(iLen));
  }

  // ----- what is found -----

  /** A reader that has parsed the first k columns of a record. */
  ghost predicate ParsedTo(z: seq<bv8>, s: Scan, types: seq<nat>, k: nat)
  {
    && |z| > 0 && Get(z, 0).len <= HeaderLen(z) <= |z| && k <= |types|
    && s.parsed == k && s.col == HeaderLen(z) + Total(types[..k])
    && s.offset <= HeaderLen(z) && Columns(z, s.offset, HeaderLen(z)) == Some(types[k..])
  }

  lemma ParsedStart(z: seq<bv8>, nZero: nat)
    requires WellFormed(z, nZero)
    ensures ParsedTo(z, Scan(0, Get(z, 0).len, HeaderLen(z)), TypesOf(z, nZero), 0)
  {
    hide Get;
  }

  lemma TakeMore(types: seq<nat>, k: nat)
    requires k < |types|
    ensures Total(types[..k + 1]) == Total(types[..k]) + SerialLen(types[k])
    ensures types[k..][1..] == types[k + 1..]
  {
    assert types[..k + 1] == types[..k] + [types[k]];
    TotalAppend(types[..k], [types[k]]);
    assert Total([types[k]]) == SerialLen(types[k]);
  }

  lemma ColumnsFirst(z: seq<bv8>, off: nat, end: nat, t: nat, rest: seq<nat>)
    requires end <= |z| && Columns(z, off, end) == Some([t] + rest)
    ensures off < end && Get(z, off).value == t && off + Get(z, off).len <= end
    ensures Columns(z, off + Get(z, off).len, end) == Some(rest)
  {
    hide Get;
    var r := Columns(z, off + Get(z, off).len, end);
    assert [t] + rest == [Get(z, off).value] + r.value;
    assert ([t] + rest)[0] == t && ([t] + rest)[1..] == rest;
    assert ([Get(z, off).value] + r.value)[1..] == r.value;
  }

  /** From any point of the header, parsing either stops early or has the fields right, and it does not
      stop if no prefix of the columns fills the data. */
  lemma {:induction false} ScanReaches(z: seq<bv8>, s: Scan, types: seq<nat>, k: nat, nField: nat)
    requires |z| > 0 && Get(z, 0).len <= HeaderLen(z) <= |z| && k <= nField <= |types|
    requires ParsedTo(z, s, types, k)
    ensures var e := ScanOn(z, HeaderLen(z), nField, s);
            && (e.parsed < nField || ParsedTo(z, e, types, nField))
            && ((forall j :: k <= j < nField ==> HeaderLen(z) + Total(types[..j]) < |z|) ==> e.parsed == nField)
    decreases nField - k
  {
    hide Get, Columns, Total, SerialLen;
    if k < nField {
      assert types[k..] == [types[k]] + types[k + 1..];
      ColumnsFirst(z, s.offset, HeaderLen(z), types[k], types[k + 1..]);
      TakeMore(types, k);
      var r := Get(z, s.offset);
      if s.col < |z| {
        ScanReaches(z, Scan(s.parsed + 1, s.offset + r.len, s.col + SerialLen(r.value)), types, k + 1, nField);
      } else {
        assert HeaderLen(z) + Total(types[..k]) >= |z|;
      }
    }
  }

  lemma {:induction false} TotalOfPart(types: seq<nat>, j: nat, k: nat)
    requires j <= k <= |types|
    ensures Total(types[..j]) + Total(types[j..k]) == Total(types[..k])
  {
    TotalAppend(types[..j], types[j..k]);
    assert types[..j] + types[j..k] == types[..k];
  }

  /** A blob of more than four bytes. */
  predicate LooksLikeExtension(t: nat)
  {
    t < TWO31 && t % 2 == 0 && t > 20
  }

  /** In a table row, read from any point of its header, exactly a blob of more than four bytes right
      after the last field is found, and found where it is. */
  lemma FoundInTable(z: seq<bv8>, s: Scan, k: nat, nField: nat)
    requires WellFormed(z, 0) && k <= nField <= |TypesOf(z, 0)| && ParsedTo(z, s, TypesOf(z, 0), k)
    ensures var types := TypesOf(z, 0);
            Located(false, z, HeaderLen(z), nField, s)
            == if nField < |types| && LooksLikeExtension(types[nField])
               then Found(HeaderLen(z) + Total(types[..nField]), SerialLen(types[nField])) else Absent
  {
    hide Get, Columns, Total;
    var types := TypesOf(z, 0);
    ScanReaches(z, s, types, k, nField);
    if nField < |types| {
      if LooksLikeExtension(types[nField]) {
        forall j | k <= j < nField
          ensures HeaderLen(z) + Total(types[..j]) < |z|
        {
          RoomLeft(types, j, nField);
        }
      }
      var e := ScanOn(z, HeaderLen(z), nField, s);
      if e.parsed == nField {
        assert types[nField..] == [types[nField]] + types[nField + 1..];
        ColumnsFirst(z, e.offset, HeaderLen(z), types[nField], types[nField + 1..]);
        BlobOrNot(types[nField], e.col);
      }
    } else {
      NothingLeft(z, ScanOn(z, HeaderLen(z), nField, s).offset, HeaderLen(z), types, nField);
    }
  }

  lemma NothingLeft(z: seq<bv8>, off: nat, end: nat, types: seq<nat>, n: nat)
    requires end <= |z| && n == |types|
    ensures off <= end && Columns(z, off, end) == Some(types[n..]) ==> off == end
  {
    hide Get;
    if off < end && Columns(z, off, end).Some? {
      assert |Columns(z, off, end).value| > 0;
    }
  }

  lemma BlobOrNot(t: nat, col: nat)
    requires t <= MAX32
    ensures (if Int32(t) < 14 || Int32(t) % 2 == 1 then Absent else FoundAt(col, (Int32(t) - 12) / 2))
            == if LooksLikeExtension(t) then Found(col, SerialLen(t)) else Absent
  {
    if t >= TWO31 { assert Int32(t) < 0; }
  }

  /** A column with bytes after the j-th keeps the first j from filling the record. */
  lemma RoomLeft(types: seq<nat>, j: nat, n: nat)
    requires j <= n < |types| && SerialLen(types[n]) > 0
    ensures Total(types[..j]) < Total(types)
  {
    TotalOfPart(types, j, n);
    TakeMore(types, n);
    TotalOfPart(types, n + 1, |types|);
    assert types[..|types|] == types;
    hide Total;
  }

  // ----- index rows -----

  /** An index record: its last column is the rowid, whose type is the last byte of the header. */
  predicate RowidIndex(z: seq<bv8>)
  {
    && WellFormed(z, 0)
    && var types := TypesOf(z, 0);
    && |types| > 0 && types[|types| - 1] == Val(z[HeaderLen(z) - 1])
  }

  function RowidType(z: seq<bv8>): nat
    requires |z| > 0 && 0 < HeaderLen(z) <= |z|
  {
    Val(z[HeaderLen(z) - 1])
  }

  lemma RowidFits(z: seq<bv8>)
    requires RowidIndex(z)
    ensures HeaderLen(z) + SerialLen(RowidType(z)) <= |z|
  {
    hide Get, Columns, Total, Val;
    var types := TypesOf(z, 0);
    var n := |types| - 1;
    TakeMore(types, n);
    assert types[..n + 1] == types;
  }

  /** The record is still read the same when bytes follow it. */
  lemma TailKeepsColumns(z: seq<bv8>, tail: seq<bv8>)
    requires WellFormed(z, 0)
    ensures Get(z + tail, 0) == Get(z, 0) && HeaderLen(z + tail) == HeaderLen(z)
    ensures Columns(z + tail, Get(z, 0).len, HeaderLen(z)) == Some(TypesOf(z, 0))
  {
    hide Get;
    var all := z + tail;
    assert all[..|z|] == z;
    assert all[0..Get(z, 0).len] == z[0..Get(z, 0).len];
    SameGet(z, 0, all, 0);
    assert all[Get(z, 0).len..HeaderLen(z)] == z[Get(z, 0).len..HeaderLen(z)];
    SameColumns(z, Get(z, 0).len, HeaderLen(z), all, Get(z, 0).len, HeaderLen(z));
  }

  /** In an index row, read from any point of its header, whatever follows the record is found but for as
      many bytes at its end as the rowid has, unless what is left is at most four bytes. A record that
      nothing follows has fewer than none left, and that passes for more than four. */
  lemma FoundInIndex(z: seq<bv8>, tail: seq<bv8>, s: Scan, k: nat)
    requires RowidIndex(z) && k <= |TypesOf(z, 0)| && ParsedTo(z + tail, s, TypesOf(z, 0), k)
    ensures Located(true, z + tail, HeaderLen(z), |TypesOf(z, 0)|, s)
            == if BadRowidType(RowidType(z)) then Absent
               else FoundAt(|z|, Int32(|tail| - SerialLen(RowidType(z))))
  {
    hide *;
    IndexFacts(z, tail);
    TailKeepsColumns(z, tail);
    var types := TypesOf(z, 0);
    var all := z + tail;
    var e := ScanOn(all, HeaderLen(z), |types|, s);
    ScanReaches(all, s, types, k, |types|);
    ParsedAll(z, tail, e);
    assert |all| == |z| + |tail|;
    if |tail| > 0 || SerialLen(RowidType(z)) > 0 {
      RoomForAll(z, tail);
      LocatedIndex(all, HeaderLen(z), |types|, s);
    } else {
      ShortIndex(all, HeaderLen(z), |types|, s);
      NoneAt(|z|);
    }
  }

  /** A length of none is too short. */
  lemma NoneAt(start: nat)
    ensures Int32(0) == 0 && FoundAt(start, 0) == Absent
  {
  }

  /** A search that stops early, or leaves no bytes over, finds nothing. */
  lemma ShortIndex(z: seq<bv8>, nHeader: nat, nField: nat, s: Scan)
    requires 0 < nHeader <= |z|
    requires var e := ScanOn(z, nHeader, nField, s);
             e.parsed >= nField ==> e.col == |z| && SerialLen(Val(z[nHeader - 1])) == 0
    ensures Located(true, z, nHeader, nField, s) == Absent
  {
    hide ScanOn, Val;
  }

  lemma IndexFacts(z: seq<bv8>, tail: seq<bv8>)
    requires RowidIndex(z)
    ensures WellFormed(z, 0) && |z| > 0 && Get(z, 0).len <= HeaderLen(z) <= |z| && 0 < HeaderLen(z)
    ensures RowidType(z) == Val((z + tail)[HeaderLen(z) - 1])
  {
    hide Get, Columns, Total, Val;
  }

  lemma ParsedAll(z: seq<bv8>, tail: seq<bv8>, e: Scan)
    requires WellFormed(z, 0) && HeaderLen(z + tail) == HeaderLen(z)
    requires e.parsed < |TypesOf(z, 0)| || ParsedTo(z + tail, e, TypesOf(z, 0), |TypesOf(z, 0)|)
    ensures e.parsed >= |TypesOf(z, 0)| ==> e.parsed == |TypesOf(z, 0)| && e.col == |z|
  {
    hide Get, Columns, Total;
    var types := TypesOf(z, 0);
    assert types[..|types|] == types;
  }

  lemma LocatedIndex(z: seq<bv8>, nHeader: nat, nField: nat, s: Scan)
    requires 0 < nHeader <= |z| && ScanOn(z, nHeader, nField, s).parsed == nField
    ensures var t := Val(z[nHeader - 1]);
            var col := ScanOn(z, nHeader, nField, s).col;
            Located(true, z, nHeader, nField, s)
            == if BadRowidType(t) then Absent else FoundAt(col, Int32(|z| - SerialLen(t) - col))
  {
    hide ScanOn, Val;
  }

  lemma RoomForAll(z: seq<bv8>, tail: seq<bv8>)
    requires RowidIndex(z) && (|tail| > 0 || SerialLen(RowidType(z)) > 0)
    ensures forall j :: 0 <= j < |TypesOf(z, 0)| ==> HeaderLen(z) + Total(TypesOf(z, 0)[..j]) < |z + tail|
  {
    hide Get, Columns, Total, Val, SerialLen;
    var types := TypesOf(z, 0);
    forall j | 0 <= j < |types|
      ensures HeaderLen(z) + Total(types[..j]) < |z + tail|
    {
      TotalOfPart(types, j, |types|);
      assert types[..|types|] == types;
      if |tail| == 0 { RoomLeft(types, j, |types| - 1); }
    }
  }

  /** An index row without any extension is taken to have one, of a length close to 2^64, exactly if its
      rowid takes any bytes. */
  lemma PlainIndexMisread(z: seq<bv8>, s: Scan, k: nat)
    requires RowidIndex(z) && k <= |TypesOf(z, 0)| && ParsedTo(z, s, TypesOf(z, 0), k)
    ensures var found := Located(true, z, HeaderLen(z), |TypesOf(z, 0)|, s);
            && (found == Absent <==> SerialLen(RowidType(z)) == 0 || BadRowidType(RowidType(z)))
            && (found != Absent ==> found == Found(|z|, TWO64 - SerialLen(RowidType(z))))
  {
    hide Get, Columns, Total, Val;
    assert z + [] == z;
    FoundInIndex(z, [], s, k);
  }

  /** The index row of the rowid 5 alone is misread. */
  lemma PlainIndexMisreadInput()
    ensures Located(true, [2, 1, 5], 2, 1, Scan(0, 1, 2)) == Found(3, TWO64 - 1)
  {
    var z: seq<bv8> := [2, 1, 5];
    SmallestRecords();
    OneByteRead(z, 0);
    hide Get, Columns, Total, Val;
    ParsedStart(z, 0);
    PlainIndexMisread(z, Scan(0, 1, 2), 0);
  }

  /** There are such records: a table record without columns, and an index record of a rowid alone. */
  lemma SmallestRecords()
    ensures WellFormed([1], 0) && Minimal([1]) && TypesOf([1], 0) == []
    ensures RowidIndex([2, 1, 5]) && Minimal([2, 1, 5]) && RowidType([2, 1, 5]) == 1
    ensures TypesOf([2, 1, 5], 0) == [1] && !BadRowidType(RowidType([2, 1, 5]))
  {
    var z: seq<bv8>, y: seq<bv8> := [1], [2, 1, 5];
    OneByteRead(z, 0);
    OneByteRead(y, 0);
    OneByteRead(y, 1);
    assert Columns(y, 2, 2) == Some([]);
    assert Columns(y, 1, 2) == Some([1] + []);
    assert Total([1]) == 1;
  }
}
