/** Index keys of the Berkeley DB backend: the rowid at the end of a key is taken out of it in place, to
    be stored as data, and put back in when the key is read. */
module BdbIndexKey {
  import opened Common
  import opened LumoExtension
  import opened LumoRecord
  import opened Varint

  /** A key whose rowid column can be taken out: the type of the rowid is one byte. */
  predicate Splittable(key: seq<bv8>)
  {
    RowidIndex(key) && Minimal(key) && RowidType(key) < 128
  }

  /** A sequence with some bytes written over its start. */
  function Over(p: seq<bv8>, s: seq<bv8>): (r: seq<bv8>)
    requires |p| <= |s|
    ensures |r| == |s|
  {
    p + s[|p|..]
  }

  lemma OverAt(p: seq<bv8>, s: seq<bv8>, j: nat)
    requires |p| <= |s| && j < |s|
    ensures Over(p, s)[j] == if j < |p| then p[j] else s[j]
  {
  }

  /** The key without its rowid column, made by moving the columns down over the rowid's type and
      writing the smaller header size over the old one. */
  function SplitKey(key: seq<bv8>): seq<bv8>
    requires Splittable(key)
  {
    RowidFits(key);
    HeaderPositive(key);
    var h := HeaderLen(key);
    Over(Put(h - 1), key[..h - 1] + key[h..|key| - SerialLen(RowidType(key))])
  }

  /** The rowid's type and the rowid. */
  function SplitData(key: seq<bv8>): seq<bv8>
    requires Splittable(key)
  {
    RowidFits(key);
    [key[HeaderLen(key) - 1]] + key[|key| - SerialLen(RowidType(key))..]
  }

  lemma HeaderPositive(key: seq<bv8>)
    requires Splittable(key)
    ensures HeaderLen(key) >= 2 && |Put(HeaderLen(key) - 1)| <= HeaderLen(key) - 1
  {
    hide Get, Columns, Total, Put, Val, Minimal;
    var h := HeaderLen(key);
    MinimalLen(key);
    PutLength(h - 1);
    LenMonotone(h - 1, h);
    assert h > Get(key, 0).len by { SomeType(key); }
  }

  lemma SomeType(key: seq<bv8>)
    requires RowidIndex(key)
    ensures HeaderLen(key) > Get(key, 0).len
  {
    hide Get;
    assert Columns(key, HeaderLen(key), HeaderLen(key)) == Some([]);
  }

  /** A key and its rowid put together again, with the larger header size written over the start. */
  function JoinKey(key: seq<bv8>, data: seq<bv8>): seq<bv8>
    requires |key| > 0 && |data| > 0 && HeaderLen(key) <= |key|
    requires |Put(HeaderLen(key) + 1)| <= |key| + |data|
  {
    var h := HeaderLen(key);
    Over(Put(h + 1), key[..h] + [data[0]] + key[h..] + data[1..])
  }

  lemma SmallKey(z: seq<bv8>)
    requires z == [3, 1, 1, 7, 5]
    ensures RowidIndex(z) && Minimal(z) && HeaderLen(z) == 3 && RowidType(z) == 1
  {
    OneByteRead(z, 0);
    OneByteRead(z, 1);
    OneByteRead(z, 2);
    assert Get(z, 0) == Read(3, 1) && Get(z, 1) == Get(z, 2) == Read(1, 1);
    hide Get;
    assert Columns(z, 3, 3) == Some([]);
    assert [1] + [] == [1] && [1] + [1] == [1, 1];
    assert Columns(z, 2, 3) == Some([1]);
    assert Columns(z, 1, 3) == Some([1, 1]);
    assert Total([1]) == 1 && [1, 1][1..] == [1];
    assert Total([1, 1]) == 2;
    hide Columns, Total;
    OneByte(3);
    ByteLiterals();
    hide Put;
    assert WellFormed(z, 0) && TypesOf(z, 0) == [1, 1];
  }

  /** The key of the column 7 and the rowid 5, taken apart. */
  lemma SplitSpelled()
    ensures Splittable([3, 1, 1, 7, 5])
    ensures SplitKey([3, 1, 1, 7, 5]) == [2, 1, 7] && SplitData([3, 1, 1, 7, 5]) == [1, 5]
  {
    var z: seq<bv8> := [3, 1, 1, 7, 5];
    SmallKey(z);
    OneByte(2);
    ByteLiterals();
    hide Get, Put, Columns, Total, WellFormed, Minimal, RowidIndex, RowidType, Byte, HeaderLen;
    assert SplitData(z) == [z[2]] + z[4..];
    assert z[..2] + z[3..4] == [3, 1, 7];
    assert SplitKey(z) == Over([2], [3, 1, 7]);
  }

  /** And put together again. */
  lemma JoinSpelled()
    ensures HeaderLen([2, 1, 7]) == 2 && |Put(3)| == 1 && JoinKey([2, 1, 7], [1, 5]) == [3, 1, 1, 7, 5]
  {
    var y: seq<bv8> := [2, 1, 7];
    OneByteRead(y, 0);
    OneByte(3);
    ByteLiterals();
    assert HeaderLen(y) == 2;
    hide Get, Put, Byte, HeaderLen;
    assert JoinKey(y, [1, 5]) == Over([3], y[..2] + [1] + y[2..] + [5]);
  }

  /** Moves bytes down within a buffer, the two places overlapping. */
  method Move(a: array<bv8>, to: nat, from: nat, n: nat)
    requires to <= from && from + n <= a.Length
    modifies a
    ensures forall j :: 0 <= j < a.Length ==> a[j] == if to <= j < to + n then old(a[j + (from - to)]) else old(a[j])
  {
    for i := 0 to n
      invariant forall j :: 0 <= j < a.Length ==>
                  a[j] == if to <= j < to + i then old(a[j + (from - to)]) else old(a[j])
    {
      a[to + i] := a[from + i];
    }
  }

  /** Copies bytes over part of a buffer. */
  method Copy(a: array<bv8>, at: nat, bytes: seq<bv8>)
    requires at + |bytes| <= a.Length
    modifies a
    ensures forall j :: 0 <= j < a.Length ==> a[j] == if at <= j < at + |bytes| then bytes[j - at] else old(a[j])
  {
    for i := 0 to |bytes|
      invariant forall j :: 0 <= j < a.Length ==> a[j] == if at <= j < at + i then bytes[j - at] else old(a[j])
    {
      a[at + i] := bytes[i];
    }
  }

  lemma OneByteType(key: seq<bv8>)
    requires Splittable(key)
    ensures HeaderLen(key) >= 2 && Get(key, HeaderLen(key) - 1) == Read(RowidType(key), 1)
    ensures Put(RowidType(key)) == [key[HeaderLen(key) - 1]]
  {
    HeaderPositive(key);
    var at := HeaderLen(key) - 1;
    hide Get, Columns, Total, Minimal;
    OneByteRead(key, at);
  }

  /** Splits a key where it is; what follows the new key is the data. */
  method SplitIndexKey(a: array<bv8>) returns (keySize: nat)
    requires Splittable(a[..])
    modifies a
    ensures keySize <= a.Length
    ensures a[..keySize] == SplitKey(old(a[..])) && a[keySize..] == SplitData(old(a[..]))
  {
    ghost var h, t, n := SplitFacts(a[..]);
    hide *;
    keySize := SplitNumbers(a, h, t, n);
  }

  /** The code of splitting, on the numbers it works with. */
  method SplitNumbers(a: array<bv8>, ghost h: nat, ghost t: nat, ghost n: nat) returns (keySize: nat)
    requires a.Length > 0 && h == Get(a[..], 0).value && 2 <= h <= n + 1 <= a.Length
    requires t == Get(a[..], h - 1).value && n == a.Length - (SerialLen(t) + 1) && Put(t) == [a[h - 1]]
    requires |Put(h - 1)| <= h - 1
    modifies a
    ensures keySize == n && a[..n] == Over(Put(h - 1), old(a[..h - 1] + a[h..n + 1]))
    ensures a[n..] == old([a[h - 1]] + a[n + 1..])
  {
    hide *;
    var hdrSize := Get(a[..], 0).value;
    var rowidType := Get(a[..], hdrSize - 1).value;
    var dataSize := SerialLen(rowidType) + 1;
    keySize := a.Length - dataSize;
    InPlace(a, hdrSize, keySize, Put(rowidType), Put(hdrSize - 1));
  }

  /** The numbers that splitting a key works with. */
  lemma SplitFacts(key: seq<bv8>) returns (h: nat, t: nat, n: nat)
    requires Splittable(key)
    ensures |key| > 0 && h == Get(key, 0).value == HeaderLen(key) && 2 <= h <= n + 1 <= |key|
    ensures t == Get(key, h - 1).value && n == |key| - (SerialLen(t) + 1) && Put(t) == [key[h - 1]]
    ensures |Put(h - 1)| <= |Put(h)| <= h && |Put(h - 1)| <= h - 1 && key[..|Put(h)|] == Put(h)
    ensures SplitKey(key) == Over(Put(h - 1), key[..h - 1] + key[h..n + 1])
    ensures SplitData(key) == [key[h - 1]] + key[n + 1..]
  {
    hide *;
    KeyNumbers(key);
    SplitIs(key);
    HeaderBytes(key);
    h, t, n := HeaderLen(key), RowidType(key), |key| - SerialLen(RowidType(key)) - 1;
  }

  lemma KeyNumbers(key: seq<bv8>)
    requires Splittable(key)
    ensures |key| > 0 && HeaderLen(key) == Get(key, 0).value >= 2
    ensures HeaderLen(key) + SerialLen(RowidType(key)) <= |key|
    ensures Get(key, HeaderLen(key) - 1).value == RowidType(key)
    ensures Put(RowidType(key)) == [key[HeaderLen(key) - 1]]
    ensures |Put(HeaderLen(key) - 1)| <= HeaderLen(key) - 1
  {
    OneByteType(key);
    HeaderPositive(key);
    RowidFits(key);
    hide Get, Put, Columns, Total, Val, Minimal, RowidType, SerialLen, WellFormed;
  }

  lemma HeaderBytes(key: seq<bv8>)
    requires Splittable(key) && HeaderLen(key) >= 2
    ensures |Put(HeaderLen(key) - 1)| <= |Put(HeaderLen(key))| <= HeaderLen(key) <= |key|
    ensures key[..|Put(HeaderLen(key))|] == Put(HeaderLen(key))
  {
    MinimalFront(key);
    MinimalLen(key);
    hide Get, Columns, Total, Put, Val, Minimal, Len;
    PutLength(HeaderLen(key) - 1);
    PutLength(HeaderLen(key));
    LenMonotone(HeaderLen(key) - 1, HeaderLen(key));
  }

  lemma SplitIs(key: seq<bv8>)
    requires Splittable(key) && 2 <= HeaderLen(key) && HeaderLen(key) + SerialLen(RowidType(key)) <= |key|
    requires |Put(HeaderLen(key) - 1)| <= HeaderLen(key) - 1
    ensures var h, n := HeaderLen(key), |key| - SerialLen(RowidType(key)) - 1;
            && SplitKey(key) == Over(Put(h - 1), key[..h - 1] + key[h..n + 1])
            && SplitData(key) == [key[h - 1]] + key[n + 1..]
  {
    hide Over, Put, Get, Columns, Total, Minimal;
  }

  /** The moves and writes of splitting. */
  method InPlace(a: array<bv8>, h: nat, n: nat, typeByte: seq<bv8>, size: seq<bv8>)
    requires 2 <= h <= n + 1 <= a.Length && typeByte == [a[h - 1]] && |size| <= h - 1
    modifies a
    ensures a[..n] == Over(size, old(a[..h - 1]) + old(a[h..n + 1]))
    ensures a[n..] == [old(a[h - 1])] + old(a[n + 1..])
  {
    hide Over;
    ghost var key := a[..];
    Move(a, h - 1, h, n - (h - 1));
    assert forall j :: 0 <= j < a.Length ==> a[j] == if h - 1 <= j < n then key[j + 1] else key[j];
    Copy(a, n, typeByte);
    assert forall j :: 0 <= j < a.Length ==> a[j] == SplitByte(key, h, n, [], j);
    Copy(a, 0, size);
    SplitInPlace(key, a[..], h, n, size);
  }

  lemma SplitInPlace(key: seq<bv8>, a: seq<bv8>, h: nat, n: nat, p: seq<bv8>)
    requires 2 <= h <= n + 1 <= |key| == |a| && |p| <= h - 1
    requires forall j :: 0 <= j < |a| ==> a[j] == SplitByte(key, h, n, p, j)
    ensures a[..n] == Over(p, key[..h - 1] + key[h..n + 1])
    ensures a[n..] == [key[h - 1]] + key[n + 1..]
  {
    hide Over;
    var front := key[..h - 1] + key[h..n + 1];
    forall j | 0 <= j < n
      ensures a[j] == Over(p, front)[j]
    {
      OverAt(p, front, j);
      assert a[j] == SplitByte(key, h, n, p, j);
    }
    forall j | n <= j < |a|
      ensures a[j] == ([key[h - 1]] + key[n + 1..])[j - n]
    {
      assert a[j] == SplitByte(key, h, n, p, j);
    }
  }

  /** Byte j after splitting in place. */
  function SplitByte(key: seq<bv8>, h: nat, n: nat, p: seq<bv8>, j: nat): bv8
    requires 2 <= h <= n + 1 <= |key| && j < |key|
  {
    if j < |p| then p[j] else if j == n then key[h - 1] else if h - 1 <= j < n then key[j + 1] else key[j]
  }

  /** Puts a key and its rowid together in a new buffer. */
  method CreateIndexKey(key: seq<bv8>, data: seq<bv8>) returns (newKey: array<bv8>)
    requires |key| > 0 && |data| > 0 && 0 < HeaderLen(key) <= |key|
    requires |Put(HeaderLen(key) + 1)| <= |key| + |data|
    ensures fresh(newKey) && newKey[..] == JoinKey(key, data)
  {
    hide Get, Put, JoinKey;
    var hdrSize := Get(key, 0).value;
    newKey := new bv8[|key| + |data|](ZeroAt);
    if hdrSize - 1 == 1 {
      newKey[1] := key[1];
    } else {
      Copy(newKey, 1, key[1..hdrSize]);
    }
    if |key| != hdrSize {
      Copy(newKey, hdrSize + 1, key[hdrSize..]);
    }
    Copy(newKey, |key| + 1, data[1..]);
    newKey[hdrSize] := data[0];
    Copy(newKey, 0, Put(hdrSize + 1));
    PutLength(hdrSize + 1);
    JoinParts(key, data, newKey[..]);
  }

  lemma JoinParts(key: seq<bv8>, data: seq<bv8>, a: seq<bv8>)
    requires |key| > 0 && |data| > 0 && 0 < HeaderLen(key) <= |key|
    requires 1 <= |Put(HeaderLen(key) + 1)| <= |key| + |data| == |a|
    requires forall j :: 0 <= j < |a| ==> a[j] == JoinedByte(key, data, j)
    ensures a == JoinKey(key, data)
  {
    hide Get, Put, Over;
    var h := HeaderLen(key);
    var joined := key[..h] + [data[0]] + key[h..] + data[1..];
    forall j | 0 <= j < |a|
      ensures a[j] == Over(Put(h + 1), joined)[j]
    {
      OverAt(Put(h + 1), joined, j);
      assert a[j] == JoinedByte(key, data, j);
    }
  }

  /** Byte j of a joined key. */
  function JoinedByte(key: seq<bv8>, data: seq<bv8>, j: nat): bv8
    requires |key| > 0 && |data| > 0 && HeaderLen(key) <= |key| && j < |key| + |data|
  {
    var h := HeaderLen(key);
    if j < |Put(h + 1)| then Put(h + 1)[j]
    else if j < h then key[j]
    else if j == h then data[0]
    else if j <= |key| then key[j - 1]
    else data[j - |key|]
  }

  /** Splitting a key and putting it together again restores it byte for byte. */
  lemma SplitThenCreate(key: seq<bv8>)
    requires Splittable(key) && HeaderLen(key) < MAX32
    ensures |SplitKey(key)| > 0 && |SplitData(key)| > 0 && 0 < HeaderLen(SplitKey(key)) <= |SplitKey(key)|
    ensures |Put(HeaderLen(SplitKey(key)) + 1)| <= |SplitKey(key)| + |SplitData(key)|
    ensures JoinKey(SplitKey(key), SplitData(key)) == key
  {
    var h, t, n := SplitFacts(key);
    hide *;
    var front := key[..h - 1] + key[h..n + 1];
    SplitHeader(h, front);
    RejoinedHere(key, h, n, front, [key[h - 1]] + key[n + 1..]);
  }

  lemma RejoinedHere(key: seq<bv8>, h: nat, n: nat, front: seq<bv8>, d: seq<bv8>)
    requires 2 <= h <= n + 1 <= |key| && |Put(h - 1)| <= |Put(h)| <= h && |Put(h - 1)| <= h - 1
    requires key[..|Put(h)|] == Put(h) && front == key[..h - 1] + key[h..n + 1] && d == [key[h - 1]] + key[n + 1..]
    requires |Over(Put(h - 1), front)| > 0 && HeaderLen(Over(Put(h - 1), front)) == h - 1
    ensures |Put(HeaderLen(Over(Put(h - 1), front)) + 1)| <= |front| + |d|
    ensures JoinKey(Over(Put(h - 1), front), d) == key
  {
    hide *;
    Rejoined(key, h, n + 1, Put(h - 1), Put(h));
    JoinIs(Over(Put(h - 1), front), d, h - 1);
  }

  lemma JoinIs(k: seq<bv8>, d: seq<bv8>, h: nat)
    requires |k| > 0 && |d| > 0 && HeaderLen(k) == h <= |k| && |Put(h + 1)| <= |k| + |d|
    ensures JoinKey(k, d) == Over(Put(h + 1), k[..h] + [d[0]] + k[h..] + d[1..])
  {
    hide Over, Put, HeaderLen;
  }

  lemma SplitHeader(h: nat, s: seq<bv8>)
    requires 1 <= h < MAX32 && |Put(h - 1)| <= |s|
    ensures |Over(Put(h - 1), s)| > 0 && HeaderLen(Over(Put(h - 1), s)) == h - 1
  {
    hide Get, Put;
    PutLength(h - 1);
    GetPut(Over(Put(h - 1), s), 0, h - 1);
  }

  /** Taking out byte h - 1 and the bytes from r on, and putting them back. */
  lemma Rejoined(key: seq<bv8>, h: nat, r: nat, p: seq<bv8>, q: seq<bv8>)
    requires 2 <= h <= r <= |key| && |p| <= h - 1 && |p| <= |q| <= h && key[..|q|] == q
    ensures var k := Over(p, key[..h - 1] + key[h..r]);
            var d := [key[h - 1]] + key[r..];
            && h - 1 <= |k| && |q| <= |k| + |d|
            && Over(q, k[..h - 1] + [d[0]] + k[h - 1..] + d[1..]) == key
  {
    hide Over;
    var front := key[..h - 1] + key[h..r];
    var k, d := Over(p, front), [key[h - 1]] + key[r..];
    forall i | h - 1 <= i < |k|
      ensures k[i] == key[i + 1]
    {
      OverAt(p, front, i);
    }
    assert k[h - 1..] == key[h..r] && d[1..] == key[r..];
    var joined := k[..h - 1] + [d[0]] + k[h - 1..] + d[1..];
    assert joined[h - 1..] == key[h - 1..];
    forall j | 0 <= j < |key|
      ensures Over(q, joined)[j] == key[j]
    {
      OverAt(q, joined, j);
      if j < |q| {
        assert key[j] == key[..|q|][j];
      } else if j >= h - 1 {
        assert joined[j] == joined[h - 1..][j - (h - 1)];
      } else {
        OverAt(p, front, j);
      }
    }
  }
}
