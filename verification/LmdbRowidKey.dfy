/** Rowid keys of the LMDB backend: as many big-endian bytes as the unsigned number needs, at least one,
    compared by length first. */
module LmdbRowidKey {
  import opened Bits
  import opened Common
  import opened Varint

  /** The big-endian bytes of a number, without leading zeros but for the number zero itself. */
  function KeyOf(v: nat): (key: seq<bv8>)
    ensures |key| > 0
  {
    if v < 256 then [Byte(v)] else KeyOf(v / 256) + [Byte(v % 256)]
  }

  function NumberOf(key: seq<bv8>): nat
  {
    if |key| == 0 then 0 else NumberOf(key[..|key| - 1]) * 256 + Val(key[|key| - 1])
  }

  lemma NumberAppend(key: seq<bv8>, b: bv8)
    ensures NumberOf(key + [b]) == NumberOf(key) * 256 + Val(b)
  {
    hide Val;
    assert (key + [b])[..|key|] == key;
  }

  lemma {:induction false} NumberOfKey(v: nat)
    ensures NumberOf(KeyOf(v)) == v
  {
    hide Val, Byte;
    ValByte(v % 256);
    if v < 256 {
      NumberAppend([], Byte(v));
      assert [] + [Byte(v)] == [Byte(v)];
    } else {
      NumberOfKey(v / 256);
      NumberAppend(KeyOf(v / 256), Byte(v % 256));
      hide NumberOf, KeyOf;
    }
  }

  /** 256 to the power n. */
  function Weight(n: nat): (w: nat)
    ensures w > 0
  {
    if n == 0 then 1 else 256 * Weight(n - 1)
  }

  /** A key is as short as it can be. */
  lemma {:induction false} KeyLength(v: nat)
    ensures v < Weight(|KeyOf(v)|) && (|KeyOf(v)| > 1 ==> Weight(|KeyOf(v)| - 1) <= v)
  {
    hide Byte;
    if v < 256 {
      assert Weight(1) == 256;
    } else {
      KeyLength(v / 256);
      var n := |KeyOf(v / 256)|;
      assert |KeyOf(v)| == n + 1;
      assert Weight(n + 1) == 256 * Weight(n);
      if n > 1 { assert Weight(n) == 256 * Weight(n - 1); }
      hide Weight, KeyOf;
      assert v / 256 + 1 <= Weight(n);
    }
  }

  lemma {:induction false} WeightMonotone(a: nat, b: nat)
    requires a <= b
    ensures Weight(a) <= Weight(b)
  {
    if a < b { WeightMonotone(a, b - 1); }
  }

  /** A 64-bit number takes at most eight bytes. */
  lemma KeyFits(v: nat)
    requires v < WORD64
    ensures |KeyOf(v)| <= 8
  {
    KeyLength(v);
    hide KeyOf;
    var n := |KeyOf(v)|;
    if n > 8 {
      WeightMonotone(8, n - 1);
      assert Weight(8) == WORD64 by {
        assert Weight(4) == 0x1_0000_0000;
        assert Weight(6) == 0x1_0000_0000_0000;
      }
    }
  }

  /** Writes the key into the end of an eight-byte buffer and says where it starts. */
  method Put8(b: array<bv8>, v: nat) returns (size: nat)
    requires b.Length == 8 && v < WORD64
    modifies b
    ensures 1 <= size <= 8 && b[8 - size..] == KeyOf(v)
  {
    hide Byte;
    KeyFits(v);
    var at := 8;
    var rest := v;
    size := 0;
    b[at - 1] := Byte(rest % 256);
    at := at - 1;
    size := size + 1;
    KeySplit(v);
    rest := rest / 256;
    while rest > 0
      invariant 1 <= size <= |KeyOf(v)| && at == 8 - size
      invariant rest == 0 ==> b[at..] == KeyOf(v)
      invariant rest > 0 ==> KeyOf(rest) + b[at..] == KeyOf(v)
      decreases rest
    {
      KeySplit(rest);
      ghost var was := b[at..];
      b[at - 1] := Byte(rest % 256);
      at := at - 1;
      assert b[at..] == [Byte(rest % 256)] + was;
      size := size + 1;
      if rest >= 256 {
        assert KeyOf(rest / 256) + [Byte(rest % 256)] + was == KeyOf(rest / 256) + b[at..];
      }
      rest := rest / 256;
    }
  }

  lemma KeySplit(v: nat)
    ensures KeyOf(v) == (if v < 256 then [] else KeyOf(v / 256)) + [Byte(v % 256)]
  {
    hide Byte;
    if v < 256 { assert v % 256 == v; }
  }

  /** Reads a key back, shifting it into 64 bits. */
  method Get8(key: seq<bv8>) returns (v: nat)
    ensures v < WORD64 && v == NumberOf(key) % WORD64
  {
    hide Val;
    v := 0;
    assert key[..0] == [];
    for i := 0 to |key|
      invariant v < WORD64 && v == NumberOf(key[..i]) % WORD64
    {
      ghost var n := NumberOf(key[..i]);
      assert key[..i + 1] == key[..i] + [key[i]];
      NumberAppend(key[..i], key[i]);
      ShiftIn(n, Val(key[i]));
      v := (v * 256) % WORD64 + Val(key[i]);
    }
    assert key[..|key|] == key;
  }

  lemma ShiftIn(n: nat, b: nat)
    requires b < 256
    ensures ((n % WORD64) * 256) % WORD64 + b == (n * 256 + b) % WORD64 < WORD64
  {
    var q, r := n / WORD64, n % WORD64;
    var s, t := (r * 256) / WORD64, (r * 256) % WORD64;
    assert r * 256 == WORD64 * s + t;
    var m := r - s * 0x100_0000_0000_0000;
    assert t == 256 * m;
    assert t + b < WORD64;
    assert n * 256 + b == WORD64 * (q * 256 + s) + (t + b);
    DivModUnique(n * 256 + b, WORD64, q * 256 + s, t + b);
  }

  // ----- comparing -----

  function Sign(a: nat, b: nat): int
  {
    if a < b then -1 else if a > b then 1 else 0
  }

  /** How two strings of the same length compare: as their first different bytes do. */
  function MemCmp(a: seq<bv8>, b: seq<bv8>): (c: int)
    requires |a| == |b|
    ensures -1 <= c <= 1
  {
    if |a| == 0 then 0
    else
      var before := MemCmp(a[..|a| - 1], b[..|b| - 1]);
      if before != 0 then before else Sign(Val(a[|a| - 1]), Val(b[|b| - 1]))
  }

  function Compare(a: seq<bv8>, b: seq<bv8>): (c: int)
    ensures -1 <= c <= 1
  {
    if |a| != |b| then Sign(|a|, |b|) else MemCmp(a, b)
  }

  lemma {:induction false} FirstDifference(a: seq<bv8>, b: seq<bv8>, i: nat)
    requires |a| == |b| && i <= |a| && a[..i] == b[..i]
    ensures i == |a| ==> MemCmp(a, b) == 0
    ensures i < |a| && Val(a[i]) != Val(b[i]) ==> MemCmp(a, b) == Sign(Val(a[i]), Val(b[i]))
    decreases |a|
  {
    hide Val;
    if |a| > 0 {
      var n := |a| - 1;
      var k := if i < |a| then i else n;
      assert a[..n][..k] == a[..k] && b[..n][..k] == b[..k];
      assert a[..k] == a[..i][..k] && b[..k] == b[..i][..k];
      FirstDifference(a[..n], b[..n], k);
      if i == |a| { assert a[n] == a[..i][n] == b[..i][n] == b[n]; }
    }
  }

  method RowidCompare(a: seq<bv8>, b: seq<bv8>) returns (c: int)
    ensures c == Compare(a, b)
  {
    hide Val, MemCmp;
    if |a| < |b| {
      return -1;
    }
    if |a| > |b| {
      return 1;
    }
    for i := 0 to |a|
      invariant a[..i] == b[..i]
    {
      FirstDifference(a, b, i);
      if Val(a[i]) != Val(b[i]) {
        return Sign(Val(a[i]), Val(b[i]));
      }
      SameByte(a[i], b[i]);
      assert a[..i + 1] == a[..i] + [a[i]] && b[..i + 1] == b[..i] + [b[i]];
    }
    FirstDifference(a, b, |a|);
    c := 0;
  }

  lemma SameByte(a: bv8, b: bv8)
    requires Val(a) == Val(b)
    ensures a == b
  {
  }

  /** Strings of one length compare as their numbers. */
  lemma {:induction false} MemCmpNumbers(a: seq<bv8>, b: seq<bv8>)
    requires |a| == |b|
    ensures MemCmp(a, b) == Sign(NumberOf(a), NumberOf(b))
  {
    hide Val;
    if |a| > 0 {
      MemCmpNumbers(a[..|a| - 1], b[..|b| - 1]);
    }
  }

  lemma ShorterIsSmaller(a: nat, b: nat)
    requires |KeyOf(a)| < |KeyOf(b)|
    ensures a < b
  {
    KeyLength(a);
    KeyLength(b);
    hide KeyOf, Weight;
    WeightMonotone(|KeyOf(a)|, |KeyOf(b)| - 1);
  }

  /** Keys compare exactly as the unsigned numbers they stand for. */
  lemma CompareIsUnsigned(a: nat, b: nat)
    ensures Compare(KeyOf(a), KeyOf(b)) == Sign(a, b)
  {
    hide KeyOf, NumberOf, MemCmp;
    if |KeyOf(a)| == |KeyOf(b)| {
      MemCmpNumbers(KeyOf(a), KeyOf(b));
      NumberOfKey(a);
      NumberOfKey(b);
    } else if |KeyOf(a)| < |KeyOf(b)| {
      ShorterIsSmaller(a, b);
    } else {
      ShorterIsSmaller(b, a);
    }
  }

  // ----- moving a cursor -----

  function ToU64(i: int): nat
    requires -0x8000_0000_0000_0000 <= i < 0x8000_0000_0000_0000
  {
    if i < 0 then WORD64 + i else i
  }

  /** A table as LMDB keeps it: the keys of its rowids in increasing order. */
  ghost predicate IsTable(keys: seq<seq<bv8>>, rows: seq<nat>)
  {
    && |keys| == |rows|
    && (forall i :: 0 <= i < |rows| ==> rows[i] < WORD64 && keys[i] == KeyOf(rows[i]))
    && (forall i, j :: 0 <= i < j < |rows| ==> rows[i] < rows[j])
  }

  /** The first entry that does not compare below the key, as LMDB's range search finds it. */
  method SetRange(keys: seq<seq<bv8>>, key: seq<bv8>) returns (at: nat)
    ensures at <= |keys| && forall i :: 0 <= i < at ==> Compare(keys[i], key) < 0
    ensures at < |keys| ==> Compare(keys[at], key) >= 0
  {
    hide Compare;
    at := 0;
    while at < |keys|
      invariant at <= |keys| && forall i :: 0 <= i < at ==> Compare(keys[i], key) < 0
    {
      var c := RowidCompare(keys[at], key);
      if c >= 0 {
        return;
      }
      at := at + 1;
    }
  }

  /** Moves the cursor to the first entry that is not below a rowid, and says how that entry compares with
      it, as unsigned numbers. If all are below, the cursor is left on the first entry, which is the last
      one below only in a table of one row; an empty table has no entry to be on. */
  method TableMoveto(keys: seq<seq<bv8>>, ghost rows: seq<nat>, intKey: int) returns (at: nat, res: int)
    requires IsTable(keys, rows) && -0x8000_0000_0000_0000 <= intKey < 0x8000_0000_0000_0000
    ensures rows == [] ==> res < 0
    ensures rows != [] ==> at < |rows| && res == Sign(rows[at], ToU64(intKey))
    ensures res >= 0 <==> exists i :: 0 <= i < |rows| && rows[i] >= ToU64(intKey)
    ensures res >= 0 ==> forall i :: 0 <= i < at ==> rows[i] < ToU64(intKey)
    ensures rows != [] && res < 0 ==> at == 0
  {
    hide KeyOf, Compare, NumberOf;
    var keyVal := ToU64(intKey);
    var b64 := new bv8[8];
    var size := Put8(b64, keyVal);
    var key := b64[8 - size..];
    at := SetRange(keys, key);
    forall i | 0 <= i < at
      ensures rows[i] < keyVal
    {
      CompareIsUnsigned(rows[i], keyVal);
      assert Compare(keys[i], key) < 0;
    }
    if at < |keys| {
      CompareIsUnsigned(rows[at], keyVal);
      assert rows[at] >= keyVal;
      NumberOfKey(rows[at]);
      var found := Get8(keys[at]);
      res := if keyVal != found then 1 else 0;
      return;
    }
    at := 0;
    res := -1;
  }

  /** The unsigned order of two rowids is their signed order exactly if they have the same sign. */
  lemma SignedOrder(a: int, b: int)
    requires -0x8000_0000_0000_0000 <= a < 0x8000_0000_0000_0000
    requires -0x8000_0000_0000_0000 <= b < 0x8000_0000_0000_0000 && a != b
    ensures (Compare(KeyOf(ToU64(a)), KeyOf(ToU64(b))) < 0 <==> a < b) <==> (a < 0 <==> b < 0)
  {
    hide Compare, KeyOf;
    CompareIsUnsigned(ToU64(a), ToU64(b));
  }

  /** The rowid -1 comes after 0. */
  lemma SignedOrderInput()
    ensures Compare(KeyOf(ToU64(-1)), KeyOf(ToU64(0))) > 0
  {
    hide Compare, KeyOf;
    CompareIsUnsigned(ToU64(-1), ToU64(0));
  }
}
