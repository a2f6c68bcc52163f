/** The file of persistent pragmas: a header of 256 bytes that says where each pragma's record is, then a
    log of records, of which the last one written for each pragma is the live one; and the cache in front
    of it. */
module BdbPragmaFile {
  import opened Bits
  import opened Common
  import opened Varint

  datatype Code = Ok | Corrupt | IoErr

  const HDR_SIZE: nat := 256
  const RECORD_HDR_SIZE: nat := 8
  const VERSION_RECORD_SIZE: nat := 12
  const DEFINED_PRAGMAS: nat := 8
  const WORD: nat := 0x1_0000_0000

  type Bytes = seq<bv8>

  /** A checksum of four bytes. */
  type Sum = s: Bytes | |s| == 4 witness [0, 0, 0, 0]

  type Pragma = i: nat | i < DEFINED_PRAGMAS

  /** The text of the version with its final zero. */
  function Version(): (v: Bytes)
    ensures |v| == 4
  {
    [0x31, 0x2e, 0x30, 0]
  }

  // ----- numbers in bytes -----

  /** A 32-bit number as four bytes, the lowest first. */
  function Four(n: nat): (b: Bytes)
    ensures |b| == 4
  {
    [Byte(n % 256), Byte(n / 256 % 256), Byte(n / 65536 % 256), Byte(n / 16777216 % 256)]
  }

  /** The number in the four bytes at a place. */
  function Field(b: Bytes, at: nat): (n: nat)
    requires at + 4 <= |b|
  {
    Val(b[at]) + 256 * Val(b[at + 1]) + 65536 * Val(b[at + 2]) + 16777216 * Val(b[at + 3])
  }

  lemma FourDigits(n: nat)
    requires n < WORD
    ensures n == n % 256 + 256 * (n / 256 % 256) + 65536 * (n / 65536 % 256) + 16777216 * (n / 16777216 % 256)
  {
    var a := n / 256;
    var b := a / 256;
    var c := b / 256;
    DivModUnique(n, 65536, b, 256 * (a % 256) + n % 256);
    DivModUnique(n, 16777216, c, 65536 * (b % 256) + 256 * (a % 256) + n % 256);
  }

  lemma FieldOfFour(b: Bytes, at: nat, n: nat)
    requires at + 4 <= |b| && n < WORD && b[at..at + 4] == Four(n)
    ensures Field(b, at) == n
  {
    hide Val, Byte;
    forall k | 0 <= k < 4 ensures b[at + k] == Four(n)[k] {
      assert b[at + k] == b[at..at + 4][k];
    }
    assert b[at + 0] == b[at];
    ValByte(n % 256);
    ValByte(n / 256 % 256);
    ValByte(n / 65536 % 256);
    ValByte(n / 16777216 % 256);
    FourDigits(n);
  }

  /** The lowest byte decides whether the number is a multiple of 256. */
  lemma LowByte(b: Bytes, at: nat)
    requires at + 4 <= |b|
    ensures b[at] != 0 <==> Field(b, at) % 256 != 0
  {
    assert Field(b, at) % 256 == Val(b[at]) by {
      hide Val;
    }
    if Val(b[at]) == 0 {
      assert b[at] == 0;
    }
  }

  // ----- writing into a file -----

  /** The file after writing some bytes at a place not past its end. */
  function Written(file: Bytes, at: nat, bytes: Bytes): (r: Bytes)
    requires at <= |file|
    ensures |r| == if at + |bytes| < |file| then |file| else at + |bytes|
    ensures forall k :: 0 <= k < |r| ==> r[k] == if at <= k < at + |bytes| then bytes[k - at] else file[k]
  {
    file[..at] + bytes + (if at + |bytes| < |file| then file[at + |bytes|..] else [])
  }

  lemma WrittenThere(file: Bytes, at: nat, bytes: Bytes)
    requires at <= |file|
    ensures Written(file, at, bytes)[at..at + |bytes|] == bytes
  {
  }

  lemma WrittenElsewhere(file: Bytes, at: nat, bytes: Bytes, from: nat, to: nat)
    requires at <= |file| && from <= to <= |file| && (to <= at || at + |bytes| <= from)
    ensures to <= |Written(file, at, bytes)| && Written(file, at, bytes)[from..to] == file[from..to]
  {
  }

  // ----- what the file holds -----

  function SizeAt(i: Pragma): nat
  {
    8 * i + 8
  }

  function OffsetAt(i: Pragma): nat
  {
    8 * i + 12
  }

  /** The place of the next record. */
  function Next(file: Bytes): nat
    requires HDR_SIZE <= |file|
  {
    Field(file, 4)
  }

  function Size(file: Bytes, i: Pragma): nat
    requires HDR_SIZE <= |file|
  {
    Field(file, SizeAt(i))
  }

  /** The place of a pragma's record, or 0. */
  function Offset(file: Bytes, i: Pragma): nat
    requires HDR_SIZE <= |file|
  {
    Field(file, OffsetAt(i))
  }

  function Summed(chksum: Bytes -> Sum, bytes: Bytes): (r: Bytes)
    ensures |r| == 4 + |bytes|
  {
    chksum(bytes) + bytes
  }

  predicate HeaderSound(chksum: Bytes -> Sum, file: Bytes)
  {
    HDR_SIZE <= |file| && file[..4] == chksum(file[4..HDR_SIZE])
  }

  /** The pragma has no record, or its record is inside the file and its checksum fits. */
  predicate RecordSound(chksum: Bytes -> Sum, file: Bytes, i: Pragma)
    requires HDR_SIZE <= |file|
  {
    var at := Offset(file, i);
    at == 0
    || (RecordInside(file, i)
        && file[at + 4..at + 8] == chksum(file[at + 8..at + 8 + Size(file, i)]))
  }

  /** The pragma has no record, or its record is inside the file. */
  predicate RecordInside(file: Bytes, i: Pragma)
    requires HDR_SIZE <= |file|
  {
    var at := Offset(file, i);
    at == 0 || at + RECORD_HDR_SIZE + Size(file, i) <= |file|
  }

  /** The pragma's record is in the log and holds the value. */
  ghost predicate HasRecord(chksum: Bytes -> Sum, file: Bytes, i: Pragma, value: Bytes)
    requires HDR_SIZE <= |file|
  {
    var at := Offset(file, i);
    && Size(file, i) == |value| && HDR_SIZE <= at && at + RECORD_HDR_SIZE + |value| <= |file|
    && file[at + 4..at + 8 + |value|] == Summed(chksum, value)
  }

  /** The records of two pragmas have no byte in common. */
  ghost predicate Apart(file: Bytes, i: Pragma, j: Pragma)
    requires HDR_SIZE <= |file|
  {
    || Offset(file, i) + RECORD_HDR_SIZE + Size(file, i) <= Offset(file, j)
    || Offset(file, j) + RECORD_HDR_SIZE + Size(file, j) <= Offset(file, i)
  }

  type Store = map<Pragma, Bytes>

  /** The header has a place for the pragma just when the store has a value, and the record there is this
      value, marked with its pragma but for the version's. */
  ghost predicate Kept(chksum: Bytes -> Sum, file: Bytes, store: Store, i: Pragma)
    requires HDR_SIZE <= |file|
  {
    && (Offset(file, i) != 0 <==> i in store)
    && (i in store ==> HasRecord(chksum, file, i, store[i]))
    && (i in store && i != 0 ==> file[Offset(file, i)..Offset(file, i) + 4] == Four(i))
  }

  /** The live records are the values of the store, apart from each other, and the next record goes to the
      end of the file. */
  ghost predicate Holds(chksum: Bytes -> Sum, file: Bytes, store: Store)
  {
    && HeaderSound(chksum, file) && Next(file) == |file|
    && 0 in store && store[0] == Version()
    && (forall i: Pragma :: Kept(chksum, file, store, i))
    && (forall i: Pragma, j: Pragma :: i in store && j in store && i != j ==> Apart(file, i, j))
  }

  lemma Halves(b: Bytes, at: nat, sum: Bytes, value: Bytes)
    requires at + |sum| + |value| <= |b| && b[at..at + |sum| + |value|] == sum + value
    ensures b[at..at + |sum|] == sum && b[at + |sum|..at + |sum| + |value|] == value
  {
    var r := b[at..at + |sum| + |value|];
    assert r[..|sum|] == sum && r[|sum|..] == value;
    assert b[at..at + |sum|] == r[..|sum|];
    assert b[at + |sum|..at + |sum| + |value|] == r[|sum|..];
  }

  lemma HasRecordSound(chksum: Bytes -> Sum, file: Bytes, i: Pragma, value: Bytes)
    requires HDR_SIZE <= |file| && HasRecord(chksum, file, i, value)
    ensures RecordSound(chksum, file, i)
    ensures file[Offset(file, i) + 8..Offset(file, i) + 8 + Size(file, i)] == value
  {
    hide Offset, Size;
    Halves(file, Offset(file, i) + 4, chksum(value), value);
  }

  // ----- adding a record -----

  lemma FieldWritten(b: Bytes, at: nat, n: nat)
    requires at + 4 <= |b| && n < WORD
    ensures Field(Written(b, at, Four(n)), at) == n
  {
    hide Written, Field, Four;
    WrittenThere(b, at, Four(n));
    FieldOfFour(Written(b, at, Four(n)), at, n);
  }

  lemma FieldKept(b: Bytes, at: nat, bytes: Bytes, other: nat)
    requires at + |bytes| <= |b| && other + 4 <= |b| && (other + 4 <= at || at + |bytes| <= other)
    ensures Field(Written(b, at, bytes), other) == Field(b, other)
  {
    hide Written, Val;
  }

  /** The header after its checksum is written into its first four bytes. */
  function Sealed(chksum: Bytes -> Sum, header: Bytes): (r: Bytes)
    requires |header| == HDR_SIZE
    ensures |r| == HDR_SIZE
  {
    Written(header, 0, chksum(header[4..]))
  }

  lemma SealedSound(chksum: Bytes -> Sum, header: Bytes, at: nat)
    requires |header| == HDR_SIZE && 4 <= at <= HDR_SIZE - 4
    ensures HeaderSound(chksum, Sealed(chksum, header))
    ensures Field(Sealed(chksum, header), at) == Field(header, at)
  {
    hide Written, Field;
    var r := Sealed(chksum, header);
    WrittenThere(header, 0, chksum(header[4..]));
    WrittenElsewhere(header, 0, chksum(header[4..]), 4, HDR_SIZE);
    assert r[4..HDR_SIZE] == header[4..HDR_SIZE] == header[4..];
    FieldKept(header, 0, chksum(header[4..]), at);
  }

  /** The header with a pragma's record of some size put at the next place. */
  function Relocated(header: Bytes, i: Pragma, size: nat): (r: Bytes)
    requires |header| == HDR_SIZE
    ensures |r| == HDR_SIZE
  {
    var sized := Written(header, SizeAt(i), Four(size));
    var placed := Written(sized, OffsetAt(i), sized[4..8]);
    Written(placed, 4, Four(Offset(placed, i) + size + RECORD_HDR_SIZE))
  }

  /** The place is copied from the header's own next place. */
  lemma PlacedAtNext(header: Bytes, i: Pragma, size: nat)
    requires |header| == HDR_SIZE && size < WORD
    ensures var sized := Written(header, SizeAt(i), Four(size));
      Offset(Written(sized, OffsetAt(i), sized[4..8]), i) == Next(header)
  {
    hide Written, Field, Four;
    var sized := Written(header, SizeAt(i), Four(size));
    FieldKept(header, SizeAt(i), Four(size), 4);
    WrittenThere(sized, OffsetAt(i), sized[4..8]);
    SameField(sized, 4, Written(sized, OffsetAt(i), sized[4..8]), OffsetAt(i));
  }

  lemma RelocatedFields(header: Bytes, i: Pragma, size: nat, j: Pragma)
    requires |header| == HDR_SIZE && Next(header) + size + RECORD_HDR_SIZE < WORD
    ensures var r := Relocated(header, i, size);
      && Next(r) == Next(header) + size + RECORD_HDR_SIZE
      && Size(r, j) == (if j == i then size else Size(header, j))
      && Offset(r, j) == (if j == i then Next(header) else Offset(header, j))
  {
    hide Written, Field, Four;
    var sized := Written(header, SizeAt(i), Four(size));
    FieldWritten(header, SizeAt(i), size);
    if j != i { FieldKept(header, SizeAt(i), Four(size), SizeAt(j)); }
    FieldKept(header, SizeAt(i), Four(size), OffsetAt(j));
    var placed := Written(sized, OffsetAt(i), sized[4..8]);
    PlacedAtNext(header, i, size);
    FieldKept(sized, OffsetAt(i), sized[4..8], SizeAt(j));
    if j != i { FieldKept(sized, OffsetAt(i), sized[4..8], OffsetAt(j)); }
    var next := Offset(placed, i) + size + RECORD_HDR_SIZE;
    FieldWritten(placed, 4, next);
    FieldKept(placed, 4, Four(next), SizeAt(j));
    FieldKept(placed, 4, Four(next), OffsetAt(j));
  }

  lemma SameField(a: Bytes, at: nat, b: Bytes, bt: nat)
    requires at + 4 <= |a| && bt + 4 <= |b| && a[at..at + 4] == b[bt..bt + 4]
    ensures Field(a, at) == Field(b, bt)
  {
    hide Val;
    var x, y := a[at..at + 4], b[bt..bt + 4];
    assert x[0] == a[at] && x[1] == a[at + 1] && x[2] == a[at + 2] && x[3] == a[at + 3];
    assert y[0] == b[bt] && y[1] == b[bt + 1] && y[2] == b[bt + 2] && y[3] == b[bt + 3];
  }

  function RecordOf(chksum: Bytes -> Sum, i: Pragma, value: Bytes): (r: Bytes)
    ensures |r| == RECORD_HDR_SIZE + |value|
  {
    Four(i) + Summed(chksum, value)
  }

  /** The next record goes to the end of the file, and the old one is in the log. */
  predicate CanInsert(file: Bytes, i: Pragma)
  {
    && HDR_SIZE <= |file| && Next(file) == |file|
    && (Offset(file, i) == 0 || HDR_SIZE <= Offset(file, i)) && Offset(file, i) + RECORD_HDR_SIZE <= |file|
  }

  /** The file with the old record of a pragma marked as dead, where the code sees that there is one. */
  function Invalidated(file: Bytes, i: Pragma): (r: Bytes)
    requires CanInsert(file, i)
    ensures |r| == |file|
  {
    if file[OffsetAt(i)] != 0 then Written(file, Offset(file, i), Four(0)) else file
  }

  /** The file after a record for the pragma is added. */
  function Inserted(chksum: Bytes -> Sum, file: Bytes, i: Pragma, value: Bytes): (r: Bytes)
    requires CanInsert(file, i)
  {
    var header := Sealed(chksum, Relocated(file[..HDR_SIZE], i, |value|));
    Written(Written(Invalidated(file, i), 0, header), Next(file), RecordOf(chksum, i, value))
  }

  /** The fields of a longer file are those of its header. */
  lemma FieldOfFront(file: Bytes, at: nat)
    requires HDR_SIZE <= |file| && at + 4 <= HDR_SIZE
    ensures Field(file[..HDR_SIZE], at) == Field(file, at)
  {
    hide Val;
  }

  /** What an insertion leaves: the new header, the old log but for the mark of the old record, and the new
      record. */
  lemma InsertedParts(chksum: Bytes -> Sum, file: Bytes, i: Pragma, value: Bytes)
    requires CanInsert(file, i)
    ensures var r := Inserted(chksum, file, i, value);
      && |r| == |file| + RECORD_HDR_SIZE + |value|
      && r[..HDR_SIZE] == Sealed(chksum, Relocated(file[..HDR_SIZE], i, |value|))
      && r[|file|..] == RecordOf(chksum, i, value)
      && (forall k :: HDR_SIZE <= k < |file| ==> r[k] == Invalidated(file, i)[k])
  {
    hide Offset, Next, Sealed, Relocated, RecordOf, Invalidated;
    var header := Sealed(chksum, Relocated(file[..HDR_SIZE], i, |value|));
    var marked := Invalidated(file, i);
    var headed := Written(marked, 0, header);
    WrittenThere(marked, 0, header);
    WrittenThere(headed, |file|, RecordOf(chksum, i, value));
    WrittenElsewhere(headed, |file|, RecordOf(chksum, i, value), 0, HDR_SIZE);
    assert header == headed[0..HDR_SIZE];
  }

  lemma InsertedFields(chksum: Bytes -> Sum, file: Bytes, i: Pragma, value: Bytes, j: Pragma)
    requires CanInsert(file, i)
    requires |file| + RECORD_HDR_SIZE + |value| < WORD
    ensures var r := Inserted(chksum, file, i, value);
      && HDR_SIZE <= |r| && HeaderSound(chksum, r) && Next(r) == |r|
      && Size(r, j) == (if j == i then |value| else Size(file, j))
      && Offset(r, j) == (if j == i then |file| else Offset(file, j))
  {
    InsertedParts(chksum, file, i, value);
    var r := Inserted(chksum, file, i, value);
    var header := file[..HDR_SIZE];
    hide Inserted, Written, Field, RecordOf, Invalidated, Sealed, Relocated, HeaderSound;
    var moved := Relocated(header, i, |value|);
    FieldOfFront(file, 4);
    FieldOfFront(file, SizeAt(j));
    FieldOfFront(file, OffsetAt(j));
    RelocatedFields(header, i, |value|, j);
    SealedSound(chksum, moved, 4);
    SealedSound(chksum, moved, SizeAt(j));
    SealedSound(chksum, moved, OffsetAt(j));
    FieldOfFront(r, 4);
    FieldOfFront(r, SizeAt(j));
    FieldOfFront(r, OffsetAt(j));
    SoundInFront(chksum, r);
  }

  lemma SoundInFront(chksum: Bytes -> Sum, file: Bytes)
    requires HDR_SIZE <= |file| && HeaderSound(chksum, file[..HDR_SIZE])
    ensures HeaderSound(chksum, file)
  {
    assert file[..4] == file[..HDR_SIZE][..4] && file[4..HDR_SIZE] == file[..HDR_SIZE][4..HDR_SIZE];
  }

  lemma SliceOfSlice(b: Bytes, from: nat, to: nat, c: nat, d: nat)
    requires from <= to <= |b| && c <= d <= to - from
    ensures b[from..to][c..d] == b[from + c..from + d]
  {
    var x, y := b[from..to][c..d], b[from + c..from + d];
    forall k | 0 <= k < d - c ensures x[k] == y[k] {
      assert x[k] == b[from..to][c + k];
    }
    assert x == y;
  }

  lemma SameSlice(a: Bytes, b: Bytes, from: nat, to: nat)
    requires from <= to <= |a| && to <= |b| && forall k :: from <= k < to ==> a[k] == b[k]
    ensures a[from..to] == b[from..to]
  {
  }

  /** An insertion leaves the records of the other pragmas alone. */
  lemma OthersKept(chksum: Bytes -> Sum, file: Bytes, store: Store, i: Pragma, value: Bytes, j: Pragma)
    requires Holds(chksum, file, store) && i != 0 && j in store && j != i
    requires |file| + RECORD_HDR_SIZE + |value| < WORD
    ensures CanInsert(file, i)
    ensures var r := Inserted(chksum, file, i, value);
      && HDR_SIZE <= |r| && HasRecord(chksum, r, j, store[j])
      && (j != 0 ==> r[Offset(r, j)..Offset(r, j) + 4] == Four(j))
  {
    hide Inserted, Field, Holds, HeaderSound, CanInsert, Invalidated, Sealed, Relocated, RecordOf, Summed;
    OldInside(chksum, file, store, i);
    OneRecord(chksum, file, store, j);
    InsertedParts(chksum, file, i, value);
    InsertedFields(chksum, file, i, value, j);
    var r := Inserted(chksum, file, i, value);
    var at := Offset(file, j);
    forall k | at <= k < at + RECORD_HDR_SIZE + |store[j]| ensures r[k] == file[k] {
      MarkOnlyOld(chksum, file, store, i, j, k);
    }
    hide Offset, Size;
    SameSlice(r, file, at + 4, at + 8 + |store[j]|);
    SameSlice(r, file, at, at + 4);
  }

  /** The mark touches no byte of another pragma's record. */
  lemma MarkOnlyOld(chksum: Bytes -> Sum, file: Bytes, store: Store, i: Pragma, j: Pragma, k: nat)
    requires Holds(chksum, file, store) && CanInsert(file, i) && i != 0 && j in store && j != i
    requires Offset(file, j) <= k < Offset(file, j) + RECORD_HDR_SIZE + |store[j]| <= |file|
    ensures Invalidated(file, i)[k] == file[k]
  {
    hide Holds, Field, HasRecord, HeaderSound;
    LowByte(file, OffsetAt(i));
    OneRecord(chksum, file, store, j);
    if i in store {
      OneRecord(chksum, file, store, i);
      TwoApart(chksum, file, store, i, j);
      hide Offset;
    } else {
      NoRecord(chksum, file, store, i);
    }
  }

  lemma OneRecord(chksum: Bytes -> Sum, file: Bytes, store: Store, i: Pragma)
    requires Holds(chksum, file, store) && i in store
    ensures HasRecord(chksum, file, i, store[i]) && (i != 0 ==> file[Offset(file, i)..Offset(file, i) + 4] == Four(i))
    ensures HDR_SIZE <= Offset(file, i) && Offset(file, i) + RECORD_HDR_SIZE + |store[i]| <= |file|
    ensures Size(file, i) == |store[i]|
  {
    assert Kept(chksum, file, store, i);
    hide Field, HeaderSound;
  }

  lemma NoRecord(chksum: Bytes -> Sum, file: Bytes, store: Store, i: Pragma)
    requires Holds(chksum, file, store) && i !in store
    ensures Offset(file, i) == 0
  {
    assert Kept(chksum, file, store, i);
    hide Field, HeaderSound;
  }

  lemma TwoApart(chksum: Bytes -> Sum, file: Bytes, store: Store, i: Pragma, j: Pragma)
    requires Holds(chksum, file, store) && i in store && j in store && i != j
    ensures Apart(file, i, j)
  {
    hide Field, HeaderSound;
  }

  lemma OldInside(chksum: Bytes -> Sum, file: Bytes, store: Store, i: Pragma)
    requires Holds(chksum, file, store)
    ensures CanInsert(file, i)
  {
    hide Field, Kept, HasRecord, HeaderSound, Apart;
    OneRecord(chksum, file, store, 0);
    if i in store { OneRecord(chksum, file, store, i); } else { NoRecord(chksum, file, store, i); }
  }

  /** After an insertion the file holds the store with the new value, and is longer. */
  lemma InsertedHolds(chksum: Bytes -> Sum, file: Bytes, store: Store, i: Pragma, value: Bytes)
    requires Holds(chksum, file, store) && i != 0 && |file| + RECORD_HDR_SIZE + |value| < WORD
    ensures CanInsert(file, i)
    ensures var r := Inserted(chksum, file, i, value);
      Holds(chksum, r, store[i := value]) && |r| == |file| + RECORD_HDR_SIZE + |value| && Offset(r, i) == |file|
  {
    hide *;
    OldInside(chksum, file, store, i);
    InsertedParts(chksum, file, i, value);
    InsertedFields(chksum, file, i, value, i);
    var r := Inserted(chksum, file, i, value);
    var now := store[i := value];
    forall j: Pragma ensures Kept(chksum, r, now, j) {
      KeptAfter(chksum, file, store, i, value, j);
    }
    forall j: Pragma, k: Pragma | j in now && k in now && j != k ensures Apart(r, j, k) {
      StillApart(chksum, file, store, i, value, j, k);
    }
    Version0(chksum, file, store);
    HoldsFrom(chksum, r, now);
  }

  lemma Version0(chksum: Bytes -> Sum, file: Bytes, store: Store)
    requires Holds(chksum, file, store)
    ensures 0 in store && store[0] == Version() && HeaderSound(chksum, file) && Next(file) == |file|
  {
    hide Field, Kept, HeaderSound, Apart;
  }

  lemma HoldsFrom(chksum: Bytes -> Sum, file: Bytes, store: Store)
    requires HDR_SIZE <= |file| && HeaderSound(chksum, file) && Next(file) == |file|
    requires 0 in store && store[0] == Version()
    requires forall i: Pragma :: Kept(chksum, file, store, i)
    requires forall i: Pragma, j: Pragma :: i in store && j in store && i != j ==> Apart(file, i, j)
    ensures Holds(chksum, file, store)
  {
    hide Field, Kept, HeaderSound, Apart;
  }

  lemma KeptAfter(chksum: Bytes -> Sum, file: Bytes, store: Store, i: Pragma, value: Bytes, j: Pragma)
    requires Holds(chksum, file, store) && i != 0 && |file| + RECORD_HDR_SIZE + |value| < WORD && CanInsert(file, i)
    ensures HDR_SIZE <= |Inserted(chksum, file, i, value)|
    ensures Kept(chksum, Inserted(chksum, file, i, value), store[i := value], j)
  {
    hide Holds, Inserted, Field, HeaderSound, CanInsert, Sealed, Relocated, Summed, Invalidated, RecordOf;
    InsertedFields(chksum, file, i, value, j);
    if j == i {
      NewRecord(chksum, file, i, value);
    } else if j in store {
      OneRecord(chksum, file, store, j);
      OthersKept(chksum, file, store, i, value, j);
    } else {
      NoRecord(chksum, file, store, j);
    }
  }

  lemma NewRecord(chksum: Bytes -> Sum, file: Bytes, i: Pragma, value: Bytes)
    requires CanInsert(file, i) && |file| + RECORD_HDR_SIZE + |value| < WORD
    ensures var r := Inserted(chksum, file, i, value);
      && HDR_SIZE <= |r| && HasRecord(chksum, r, i, value)
      && r[Offset(r, i)..Offset(r, i) + 4] == Four(i)
  {
    hide Inserted, Field, HeaderSound, Sealed, Relocated, Summed, Invalidated;
    InsertedParts(chksum, file, i, value);
    InsertedFields(chksum, file, i, value, i);
    TailOf(Inserted(chksum, file, i, value), |file|, Four(i), Summed(chksum, value));
    hide RecordOf, Four, Offset, Size, Next;
  }

  lemma TailOf(r: Bytes, at: nat, front: Bytes, rest: Bytes)
    requires at <= |r| && r[at..] == front + rest
    ensures |r| == at + |front| + |rest|
    ensures r[at..at + |front|] == front && r[at + |front|..at + |front| + |rest|] == rest
  {
    assert r[at..at + |front| + |rest|] == r[at..];
    Halves(r, at, front, rest);
  }

  lemma StillApart(chksum: Bytes -> Sum, file: Bytes, store: Store, i: Pragma, value: Bytes, j: Pragma, k: Pragma)
    requires CanInsert(file, i) && Holds(chksum, file, store) && |file| + RECORD_HDR_SIZE + |value| < WORD
    requires j in store || j == i
    requires k in store || k == i
    requires j != k
    ensures HDR_SIZE <= |Inserted(chksum, file, i, value)|
    ensures Apart(Inserted(chksum, file, i, value), j, k)
  {
    hide Inserted, Field, HeaderSound, CanInsert, HasRecord, Holds;
    InsertedFields(chksum, file, i, value, j);
    InsertedFields(chksum, file, i, value, k);
    if j in store { OneRecord(chksum, file, store, j); }
    if k in store { OneRecord(chksum, file, store, k); }
    if j in store && k in store { TwoApart(chksum, file, store, j, k); }
    hide Offset, Size;
  }

  // ----- a new file -----

  function Put4(b: Bytes, at: nat, n: nat): (r: Bytes)
    requires at + 4 <= |b|
    ensures |r| == |b|
  {
    Written(b, at, Four(n))
  }

  lemma Put4Field(b: Bytes, at: nat, n: nat, other: nat)
    requires at + 4 <= |b| && other + 4 <= |b| && n < WORD
    requires other == at || other + 4 <= at || at + 4 <= other
    ensures Field(Put4(b, at, n), other) == if other == at then n else Field(b, other)
  {
    hide Written, Field;
    if other == at { FieldWritten(b, at, n); } else { FieldKept(b, at, Four(n), other); }
  }

  /** The header of a new file with the version and one pragma. */
  function NewHeader(i: Pragma, size: nat): (h: Bytes)
    ensures |h| == HDR_SIZE
  {
    var next := Put4(Zeros(HDR_SIZE), 4, HDR_SIZE + VERSION_RECORD_SIZE + size + RECORD_HDR_SIZE);
    var version := Put4(Put4(next, SizeAt(0), 4), OffsetAt(0), HDR_SIZE);
    Put4(Put4(version, SizeAt(i), size), OffsetAt(i), HDR_SIZE + VERSION_RECORD_SIZE)
  }

  function Created(chksum: Bytes -> Sum, i: Pragma, value: Bytes): (r: Bytes)
  {
    var header := Sealed(chksum, NewHeader(i, |value|));
    var version := Written(Written([], 0, header), HDR_SIZE, Four(i) + Summed(chksum, Version()));
    Written(version, HDR_SIZE + VERSION_RECORD_SIZE, RecordOf(chksum, i, value))
  }

  lemma ZeroField(at: nat)
    requires at + 4 <= HDR_SIZE
    ensures Field(Zeros(HDR_SIZE), at) == 0
  {
    hide Zeros;
  }

  /** One field of the new header. */
  lemma NewHeaderField(i: Pragma, size: nat, at: nat)
    requires i != 0 && HDR_SIZE + VERSION_RECORD_SIZE + size + RECORD_HDR_SIZE < WORD
    requires at + 4 <= HDR_SIZE && at % 4 == 0
    ensures Field(NewHeader(i, size), at) ==
      if at == OffsetAt(i) then HDR_SIZE + VERSION_RECORD_SIZE
      else if at == SizeAt(i) then size
      else if at == OffsetAt(0) then HDR_SIZE
      else if at == SizeAt(0) then 4
      else if at == 4 then HDR_SIZE + VERSION_RECORD_SIZE + size + RECORD_HDR_SIZE
      else 0
  {
    hide Field, Put4;
    var next := HDR_SIZE + VERSION_RECORD_SIZE + size + RECORD_HDR_SIZE;
    var h0 := Zeros(HDR_SIZE);
    var h1 := Put4(h0, 4, next);
    var h2 := Put4(h1, SizeAt(0), 4);
    var h3 := Put4(h2, OffsetAt(0), HDR_SIZE);
    var h4 := Put4(h3, SizeAt(i), size);
    ZeroField(at);
    Put4Field(h0, 4, next, at);
    Put4Field(h1, SizeAt(0), 4, at);
    Put4Field(h2, OffsetAt(0), HDR_SIZE, at);
    Put4Field(h3, SizeAt(i), size, at);
    Put4Field(h4, OffsetAt(i), HDR_SIZE + VERSION_RECORD_SIZE, at);
  }

  lemma CreatedParts(chksum: Bytes -> Sum, i: Pragma, value: Bytes)
    ensures var r := Created(chksum, i, value);
      && |r| == HDR_SIZE + VERSION_RECORD_SIZE + RECORD_HDR_SIZE + |value|
      && r[..HDR_SIZE] == Sealed(chksum, NewHeader(i, |value|))
      && r[HDR_SIZE..HDR_SIZE + 12] == Four(i) + Summed(chksum, Version())
      && r[HDR_SIZE + 12..HDR_SIZE + 12 + RECORD_HDR_SIZE + |value|] == RecordOf(chksum, i, value)
  {
    hide Written, Sealed, NewHeader, Summed, Four, RecordOf;
    var header := Sealed(chksum, NewHeader(i, |value|));
    var mark := Four(i) + Summed(chksum, Version());
    var w0 := Written([], 0, header);
    WrittenThere([], 0, header);
    assert w0 == header;
    var w1 := Written(w0, HDR_SIZE, mark);
    WrittenThere(w0, HDR_SIZE, mark);
    WrittenElsewhere(w0, HDR_SIZE, mark, 0, HDR_SIZE);
    var record := RecordOf(chksum, i, value);
    WrittenThere(w1, HDR_SIZE + 12, record);
    WrittenElsewhere(w1, HDR_SIZE + 12, record, 0, HDR_SIZE);
    WrittenElsewhere(w1, HDR_SIZE + 12, record, HDR_SIZE, HDR_SIZE + 12);
  }

  lemma CreatedFields(chksum: Bytes -> Sum, i: Pragma, value: Bytes, j: Pragma)
    requires i != 0 && HDR_SIZE + VERSION_RECORD_SIZE + |value| + RECORD_HDR_SIZE < WORD
    ensures var r := Created(chksum, i, value);
      && HDR_SIZE <= |r| && HeaderSound(chksum, r) && Next(r) == |r|
      && Offset(r, j) == (if j == i then HDR_SIZE + 12 else if j == 0 then HDR_SIZE else 0)
      && Size(r, j) == (if j == i then |value| else if j == 0 then 4 else 0)
  {
    hide Created, Sealed, NewHeader, Summed, Four, RecordOf, Field, HeaderSound;
    CreatedParts(chksum, i, value);
    var r := Created(chksum, i, value);
    var h := NewHeader(i, |value|);
    NewHeaderField(i, |value|, 4);
    NewHeaderField(i, |value|, SizeAt(j));
    NewHeaderField(i, |value|, OffsetAt(j));
    SealedSound(chksum, h, 4);
    SealedSound(chksum, h, SizeAt(j));
    SealedSound(chksum, h, OffsetAt(j));
    FieldOfFront(r, 4);
    FieldOfFront(r, SizeAt(j));
    FieldOfFront(r, OffsetAt(j));
    SoundInFront(chksum, r);
  }

  lemma CreatedKept(chksum: Bytes -> Sum, i: Pragma, value: Bytes, j: Pragma)
    requires i != 0 && HDR_SIZE + VERSION_RECORD_SIZE + |value| + RECORD_HDR_SIZE < WORD
    ensures HDR_SIZE <= |Created(chksum, i, value)|
    ensures Kept(chksum, Created(chksum, i, value), map[0 := Version(), i := value], j)
  {
    hide Created, Sealed, NewHeader, Summed, Four, Field, HeaderSound, Version;
    CreatedParts(chksum, i, value);
    CreatedFields(chksum, i, value, j);
    var r := Created(chksum, i, value);
    if j == i {
      Halves(r, HDR_SIZE + 12, Four(i), Summed(chksum, value));
    } else if j == 0 {
      Halves(r, HDR_SIZE, Four(i), Summed(chksum, Version()));
    }
  }

  /** A new file holds the version and the pragma it was made for. */
  lemma CreatedHolds(chksum: Bytes -> Sum, i: Pragma, value: Bytes)
    requires i != 0 && HDR_SIZE + VERSION_RECORD_SIZE + |value| + RECORD_HDR_SIZE < WORD
    ensures Holds(chksum, Created(chksum, i, value), map[0 := Version(), i := value])
  {
    hide Created, Kept, Field, HeaderSound, Version;
    var r := Created(chksum, i, value);
    var store: Store := map[0 := Version(), i := value];
    CreatedFields(chksum, i, value, 0);
    CreatedFields(chksum, i, value, i);
    assert Apart(r, 0, i) && Apart(r, i, 0);
    hide *;
    forall j: Pragma ensures Kept(chksum, r, store, j) {
      CreatedKept(chksum, i, value, j);
    }
    HoldsFrom(chksum, r, store);
  }

  /** A new file with the pragma 3, set to five bytes: where its numbers are and what they say, and the
      two records behind the header. */
  lemma CreatedSpelled(chksum: Bytes -> Sum, value: Bytes)
    requires |value| == 5
    ensures var r := Created(chksum, 3, value);
      && |r| == 281 && r[..4] == chksum(r[4..256])
      && Field(r, 4) == 281 && Field(r, 8) == 4 && Field(r, 12) == 256 && Field(r, 32) == 5 && Field(r, 36) == 268
      && r[256..268] == Four(3) + chksum([0x31, 0x2e, 0x30, 0]) + [0x31, 0x2e, 0x30, 0]
      && r[268..281] == Four(3) + chksum(value) + value
  {
    hide Created, Sealed, NewHeader, Four, Field;
    CreatedParts(chksum, 3, value);
    CreatedFields(chksum, 3, value, 3);
    CreatedFields(chksum, 3, value, 0);
    var v: Bytes := [0x31, 0x2e, 0x30, 0];
    assert Four(3) + (chksum(v) + v) == Four(3) + chksum(v) + v;
    assert Four(3) + (chksum(value) + value) == Four(3) + chksum(value) + value;
  }

  /** A number in memory has its lowest byte first. */
  lemma FourSpelled(b0: nat, b1: nat, b2: nat, b3: nat)
    requires b0 < 256 && b1 < 256 && b2 < 256 && b3 < 256
    ensures Four(b0 + 256 * b1 + 65536 * b2 + 16777216 * b3) == [Byte(b0), Byte(b1), Byte(b2), Byte(b3)]
  {
    hide Byte;
    var n := b0 + 256 * b1 + 65536 * b2 + 16777216 * b3;
    DivModUnique(n, 256, b1 + 256 * b2 + 65536 * b3, b0);
    DivModUnique(n, 65536, b2 + 256 * b3, b0 + 256 * b1);
    DivModUnique(n, 16777216, b3, b0 + 256 * b1 + 65536 * b2);
    DivModUnique(n / 256, 256, b2 + 256 * b3, b1);
    DivModUnique(n / 65536, 256, b3, b2);
  }

  /** The old record of a pragma is marked as dead just when its place is no multiple of 256: the code looks
      at one byte of the place to see whether there is an old record. */
  lemma OldIsMarked(chksum: Bytes -> Sum, file: Bytes, store: Store, i: Pragma, value: Bytes)
    requires Holds(chksum, file, store) && i != 0 && i in store && |file| + RECORD_HDR_SIZE + |value| < WORD
    ensures CanInsert(file, i)
    ensures var at := Offset(file, i);
      at + 4 <= |Inserted(chksum, file, i, value)|
      && (Inserted(chksum, file, i, value)[at..at + 4] == Four(0) <==> at % 256 != 0)
  {
    hide Holds, Field, HeaderSound, HasRecord, Summed, Sealed, Relocated, RecordOf;
    OldInside(chksum, file, store, i);
    OneRecord(chksum, file, store, i);
    InsertedParts(chksum, file, i, value);
    LowByte(file, OffsetAt(i));
    hide Inserted;
    var r := Inserted(chksum, file, i, value);
    var at := Offset(file, i);
    SameSlice(r, Invalidated(file, i), at, at + 4);
    WrittenThere(file, at, Four(0));
    assert Four(i)[0] == Byte(i) && Four(0)[0] == Byte(0);
    ValByte(i);
    ValByte(0);
  }

  /** After the first pragma is set to 236 bytes, the second one's record is at 512, and setting that one
      again leaves the record unmarked. */
  lemma OldStaysUnmarkedInput(chksum: Bytes -> Sum, first: Bytes, second: Bytes, third: Bytes)
    requires |first| == 236 && |second| < 1000 && |third| < 1000
    ensures var one := Created(chksum, 1, first);
      CanInsert(one, 2)
      && var two := Inserted(chksum, one, 2, second);
      CanInsert(two, 2) && Offset(two, 2) == 512
      && var three := Inserted(chksum, two, 2, third);
      |three| >= 516 && three[512..516] != Four(0)
  {
    hide Holds, Created, Inserted, Field, HeaderSound, CanInsert, Four, Version;
    var store: Store := map[0 := Version(), 1 := first];
    CreatedHolds(chksum, 1, first);
    CreatedParts(chksum, 1, first);
    var one := Created(chksum, 1, first);
    InsertedHolds(chksum, one, store, 2, second);
    var two := Inserted(chksum, one, 2, second);
    OldIsMarked(chksum, two, store[2 := second], 2, third);
    hide Offset;
  }

  // ----- the cache and the calls -----

  /** What the cache has for one pragma; place 0 means that it is not loaded. */
  datatype Entry = Entry(size: nat, offset: nat, value: Bytes)

  /** A loaded entry holds the value of the store. */
  predicate Cached(e: Entry, store: Store, i: Pragma)
  {
    e.offset != 0 ==> i in store && e.value == store[i] && e.size == |e.value|
  }

  /** An entry after its pragma is read from the file. */
  function Loaded(file: Bytes, i: Pragma, e: Entry): (r: Entry)
    requires HDR_SIZE <= |file|
    requires Offset(file, i) != 0 ==> Offset(file, i) + RECORD_HDR_SIZE + Size(file, i) <= |file|
  {
    var at := Offset(file, i);
    if at == 0 then e.(size := Size(file, i), offset := 0)
    else Entry(Size(file, i), at, file[at + 8..at + 8 + Size(file, i)])
  }

  /** An entry after sizes and places of a range of pragmas are read from the header. */
  function Placed(file: Bytes, start: nat, stop: nat, i: Pragma, e: Entry): Entry
    requires HDR_SIZE <= |file|
  {
    if start <= i < stop then e.(size := Size(file, i), offset := Offset(file, i)) else e
  }

  lemma LoadedIsCached(chksum: Bytes -> Sum, file: Bytes, store: Store, i: Pragma, e: Entry)
    requires Holds(chksum, file, store)
    ensures HDR_SIZE <= |file| && RecordSound(chksum, file, i)
    ensures Cached(Loaded(file, i, e), store, i)
    ensures Loaded(file, i, e).offset != 0 <==> i in store
  {
    hide Holds, Field, HeaderSound;
    OldInside(chksum, file, store, i);
    if i in store {
      OneRecord(chksum, file, store, i);
      HasRecordSound(chksum, file, i, store[i]);
    } else {
      NoRecord(chksum, file, store, i);
    }
  }

  /** Whether there is room for a record: 32 bits must be enough for the place after it. */
  predicate Room(present: bool, file: Bytes, value: Bytes)
  {
    (if present then |file| else HDR_SIZE + VERSION_RECORD_SIZE) + RECORD_HDR_SIZE + |value| < WORD
  }

  /** If there is a file with a sound header, the places in it make sense for the pragma. */
  predicate Insertable(chksum: Bytes -> Sum, present: bool, file: Bytes, i: Pragma)
  {
    present && HeaderSound(chksum, file) ==> CanInsert(file, i)
  }

  /** The file after a value is inserted: none if its header was found to be corrupt. */
  function AfterInsert(chksum: Bytes -> Sum, present: bool, file: Bytes, i: Pragma, value: Bytes): Option<Bytes>
    requires Insertable(chksum, present, file, i)
  {
    if !present then Some(Created(chksum, i, value))
    else if HeaderSound(chksum, file) then Some(Inserted(chksum, file, i, value))
    else None
  }

  /** Setting a value always finds the file in order, and leaves it holding the value. */
  lemma SetHolds(chksum: Bytes -> Sum, present: bool, file: Bytes, store: Store, i: Pragma, value: Bytes)
    requires if present then Holds(chksum, file, store) else store == map[0 := Version()] && file == []
    requires i != 0 && Room(present, file, value)
    ensures Insertable(chksum, present, file, i)
    ensures var after := AfterInsert(chksum, present, file, i, value);
      after.Some? && Holds(chksum, after.value, store[i := value]) && |after.value| > |file|
  {
    hide Holds, Field, CanInsert, Inserted, Created, HeaderSound;
    if present {
      Version0(chksum, file, store);
      InsertedHolds(chksum, file, store, i, value);
    } else {
      CreatedHolds(chksum, i, value);
      CreatedParts(chksum, i, value);
    }
  }

  class PragmaFile {
    const chksum: Bytes -> Sum
    var present: bool
    var file: Bytes
    var cache: seq<Entry>
    var cacheLoaded: bool
    /** The last value set for each pragma, and the version. */
    ghost var store: Store

    ghost predicate Valid()
      reads this
    {
      && |cache| == DEFINED_PRAGMAS
      && (if present then Holds(chksum, file, store) else store == map[0 := Version()] && file == [])
      && forall i: Pragma :: Cached(cache[i], store, i)
    }

    /** A connection opened on what an earlier one left: nothing is cached. */
    constructor (chksum: Bytes -> Sum, present: bool, file: Bytes, ghost store: Store)
      requires if present then Holds(chksum, file, store) else store == map[0 := Version()] && file == []
      ensures Valid() && this.chksum == chksum
      ensures this.present == present && this.file == file && this.store == store && !cacheLoaded
    {
      this.chksum := chksum;
      this.present := present;
      this.file := file;
      this.store := store;
      cacheLoaded := false;
      cache := NothingCached();
    }

    static function NothingCached(): (c: seq<Entry>)
      ensures |c| == DEFINED_PRAGMAS && forall i: Pragma :: c[i].offset == 0
    {
      var e := Entry(0, 0, []);
      [e, e, e, e, e, e, e, e]
    }

    /** The file is corrupt beyond repair: it is deleted and the cache reset. */
    method RemoveCorrupted()
      modifies this
      ensures !present && file == [] && cache == NothingCached() && cacheLoaded == old(cacheLoaded)
      ensures store == old(store)
    {
      cache := NothingCached();
      present := false;
      file := [];
    }

    /** The header of a new file, built in a buffer. */
    method HeaderForNew(i: Pragma, size: nat) returns (buf: Bytes)
      ensures buf == Sealed(chksum, NewHeader(i, size))
    {
      hide Put4, Written;
      buf := Put4(Zeros(HDR_SIZE), 4, HDR_SIZE + VERSION_RECORD_SIZE + size + RECORD_HDR_SIZE);
      buf := Put4(buf, SizeAt(0), 4);
      buf := Put4(buf, OffsetAt(0), HDR_SIZE);
      buf := Put4(buf, SizeAt(i), size);
      buf := Put4(buf, OffsetAt(i), HDR_SIZE + VERSION_RECORD_SIZE);
      buf := Written(buf, 0, chksum(buf[4..]));
    }

    /** The header of an old file with a pragma moved to the next place, built in a buffer. */
    method HeaderForMove(header: Bytes, i: Pragma, size: nat) returns (buf: Bytes, at: nat)
      requires |header| == HDR_SIZE && Next(header) + size + RECORD_HDR_SIZE < WORD
      ensures buf == Sealed(chksum, Relocated(header, i, size)) && at == Next(header)
    {
      hide Written, Field;
      PlacedAtNext(header, i, size);
      buf := Written(header, SizeAt(i), Four(size));
      buf := Written(buf, OffsetAt(i), buf[4..8]);
      at := Field(buf, OffsetAt(i));
      buf := Written(buf, 4, Four(at + size + RECORD_HDR_SIZE));
      buf := Written(buf, 0, chksum(buf[4..]));
    }

    /** Writes the cached value of a pragma into the file. */
    method InsertPragmaIntoFile(i: Pragma) returns (code: Code)
      requires |cache| == DEFINED_PRAGMAS && cache[i].size == |cache[i].value| && i != 0
      requires Insertable(chksum, present, file, i)
      requires Room(present, file, cache[i].value)
      modifies this
      ensures var after := AfterInsert(chksum, old(present), old(file), i, old(cache[i].value));
        && code == (if after.Some? then Ok else Corrupt)
        && present == after.Some?
        && file == if after.Some? then after.value else []
      ensures code != Ok ==> cache == NothingCached()
      ensures |cache| == DEFINED_PRAGMAS
      ensures code == Ok ==> cache[i].offset != 0 && cache == old(cache)[i := old(cache[i]).(offset := cache[i].offset)]
      ensures store == old(store) && cacheLoaded == old(cacheLoaded)
    {
      hide Written, Field, Four, Sealed, Relocated, NewHeader;
      var value := cache[i].value;
      var data := Four(i) + (chksum(value) + value);
      if !present {
        var mark := Four(i) + (chksum(Version()) + Version());
        var buf := HeaderForNew(i, |value|);
        present := true;
        file := Written([], 0, buf);
        file := Written(file, HDR_SIZE, mark);
        file := Written(file, HDR_SIZE + VERSION_RECORD_SIZE, data);
        cache := cache[i := cache[i].(offset := HDR_SIZE + VERSION_RECORD_SIZE)];
        code := Ok;
      } else if |file| < HDR_SIZE || file[..4] != chksum(file[4..HDR_SIZE]) {
        RemoveCorrupted();
        code := Corrupt;
      } else {
        FieldOfFront(file, OffsetAt(i));
        FieldOfFront(file, 4);
        var buf, at := HeaderForMove(file[..HDR_SIZE], i, |value|);
        if file[OffsetAt(i)] != 0 {
          file := Written(file, Offset(file, i), Four(0));
        }
        file := Written(file, 0, buf);
        file := Written(file, at, data);
        cache := cache[i := cache[i].(offset := at)];
        code := Ok;
      }
    }

    /** Reads a record and checks it. */
    method ReadRecord(at: nat, size: nat) returns (code: Code, value: Bytes)
      ensures code == IoErr <==> |file| < at + RECORD_HDR_SIZE + size
      ensures code == Ok <==>
        at + RECORD_HDR_SIZE + size <= |file| && file[at + 4..at + 8] == chksum(file[at + 8..at + 8 + size])
      ensures code == Ok ==> value == file[at + 8..at + 8 + size]
    {
      value := [];
      if |file| < at + RECORD_HDR_SIZE + size { return IoErr, value; }
      var data := file[at..at + RECORD_HDR_SIZE + size];
      SliceOfSlice(file, at, at + RECORD_HDR_SIZE + size, 4, 8);
      SliceOfSlice(file, at, at + RECORD_HDR_SIZE + size, 8, RECORD_HDR_SIZE + size);
      code := if data[4..8] == chksum(data[8..]) then Ok else Corrupt;
      value := data[8..];
    }

    /** Loads one pragma, or all of them, from the file into the cache. The code is Ok just when the header
        and the records that were read are sound. */
    method ReadPragmaFromFile(all: bool, i: Pragma) returns (code: Code)
      requires |cache| == DEFINED_PRAGMAS && present
      modifies this
      ensures |cache| == DEFINED_PRAGMAS && store == old(store)
      ensures !HeaderSound(chksum, old(file)) ==> code == Corrupt && !present && cache == NothingCached()
      ensures HeaderSound(chksum, old(file)) ==> file == old(file) && present
      ensures HeaderSound(chksum, old(file)) ==>
        (code == Ok <==> forall j: Pragma :: all || j == i ==> RecordSound(chksum, file, j))
      ensures code == Ok ==> HDR_SIZE <= |file| && cacheLoaded
      ensures HeaderSound(chksum, old(file)) ==>
        (cacheLoaded <==> old(cacheLoaded) || forall j: Pragma :: all || j == i ==> RecordInside(file, j))
      ensures code == Ok ==> forall j: Pragma ::
        if all || j == i then RecordSound(chksum, file, j) && cache[j] == Loaded(file, j, old(cache[j]))
        else cache[j] == old(cache[j])
    {
      var start, stop := if all then 0 else i, if all then DEFINED_PRAGMAS else i + 1;
      if |file| < HDR_SIZE || file[..4] != chksum(file[4..HDR_SIZE]) {
        RemoveCorrupted();
        code := Corrupt;
        return;
      }
      assert HeaderSound(chksum, file);
      hide HeaderSound;
      LoadPlaces(start, stop);
      code := LoadValues(start, stop, old(cache));
    }

    /** Loads sizes and places of a range of pragmas into the cache. */
    method LoadPlaces(start: nat, stop: nat)
      requires |cache| == DEFINED_PRAGMAS && HDR_SIZE <= |file| && start <= stop <= DEFINED_PRAGMAS
      modifies this`cache
      ensures |cache| == DEFINED_PRAGMAS
      ensures forall j: Pragma :: cache[j] == Placed(file, start, stop, j, old(cache[j]))
    {
      hide Offset, Size;
      var k := start;
      while k < stop
        invariant start <= k <= stop && |cache| == DEFINED_PRAGMAS
        invariant forall j: Pragma :: cache[j] == Placed(file, start, k, j, old(cache[j]))
      {
        cache := cache[k := cache[k].(size := Size(file, k), offset := Offset(file, k))];
        k := k + 1;
      }
    }

    /** Loads the values of a range of pragmas whose places are loaded; was is the cache before these. A
        record with a wrong checksum is passed over, one that ends behind the file stops the loading. */
    method LoadValues(start: nat, stop: nat, ghost was: seq<Entry>) returns (code: Code)
      requires |cache| == |was| == DEFINED_PRAGMAS && HDR_SIZE <= |file| && start <= stop <= DEFINED_PRAGMAS
      requires forall j: Pragma :: cache[j] == Placed(file, start, stop, j, was[j])
      modifies this`cache, this`cacheLoaded
      ensures |cache| == DEFINED_PRAGMAS
      ensures cacheLoaded <==>
        old(cacheLoaded) || forall j: Pragma :: start <= j < stop ==> RecordInside(file, j)
      ensures code == Ok ==> cacheLoaded
      ensures code == Ok <==> forall j: Pragma :: start <= j < stop ==> RecordSound(chksum, file, j)
      ensures code == Ok ==> forall j: Pragma :: start <= j < stop ==>
        RecordSound(chksum, file, j) && cache[j] == Loaded(file, j, was[j])
      ensures code == Ok ==> forall j: Pragma :: !(start <= j < stop) ==> cache[j] == was[j]
    {
      hide Offset, Size, HeaderSound;
      var corrupted: seq<Pragma> := [];
      var k := start;
      while k < stop
        invariant start <= k <= stop && |cache| == DEFINED_PRAGMAS && cacheLoaded == old(cacheLoaded)
        invariant forall j: Pragma :: start <= j < k ==> RecordInside(file, j)
        invariant corrupted == [] ==> forall j: Pragma :: start <= j < k ==> RecordSound(chksum, file, j)
        invariant corrupted != [] ==> start <= corrupted[0] < k && !RecordSound(chksum, file, corrupted[0])
        invariant forall j: Pragma :: start <= j < k && RecordSound(chksum, file, j) ==>
          cache[j] == Loaded(file, j, was[j])
        invariant forall j: Pragma :: !(start <= j < k) ==> cache[j] == Placed(file, start, stop, j, was[j])
      {
        var at, size := cache[k].offset, cache[k].size;
        assert at == 0 ==> RecordSound(chksum, file, k);
        if at != 0 {
          var result, value := ReadRecord(at, size);
          assert result == Ok <==> RecordSound(chksum, file, k);
          if result == IoErr {
            assert !RecordInside(file, k) && !RecordSound(chksum, file, k);
            code := if corrupted == [] then IoErr else Corrupt;
            return;
          }
          if result == Corrupt {
            corrupted := corrupted + [k];
            cache := cache[k := cache[k].(offset := 0, size := 0)];
          } else {
            cache := cache[k := cache[k].(value := value)];
          }
        }
        k := k + 1;
      }
      code := if corrupted == [] then Ok else Corrupt;
      cacheLoaded := true;
      assert corrupted != [] ==> !RecordSound(chksum, file, corrupted[0]);
    }

    /** The value last set for a pragma, from the cache or from the file. */
    method GetPersistentPragma(i: Pragma) returns (code: Code, value: Option<Bytes>)
      requires Valid()
      modifies this
      ensures Valid() && store == old(store) && file == old(file) && present == old(present)
      ensures code == Ok
      ensures value == if i in store then Some(store[i]) else None
    {
      hide Holds, Field;
      code, value := Ok, None;
      if !present {
        if i == 0 { value := Some(Version()); }
        return;
      }
      Version0(chksum, file, store);
      forall j: Pragma ensures RecordSound(chksum, file, j) {
        LoadedIsCached(chksum, file, store, j, cache[j]);
      }
      forall j: Pragma, e: Entry
        ensures RecordSound(chksum, file, j) && Cached(Loaded(file, j, e), store, j)
        ensures Loaded(file, j, e).offset != 0 <==> j in store
      {
        LoadedIsCached(chksum, file, store, j, e);
      }
      hide RecordSound, Loaded, HeaderSound;
      if cache[i].offset == 0 {
        code := ReadPragmaFromFile(!cacheLoaded, i);
      }
      if code == Ok {
        if !cacheLoaded {
          cacheLoaded := false;
          cache := cache[0 := Entry(4, HDR_SIZE, Version())];
        }
        if cache[i].offset != 0 {
          assert Cached(cache[i], store, i) && cache[i].value[..cache[i].size] == cache[i].value;
          value := Some(cache[i].value[..cache[i].size]);
        }
      }
    }

    /** Sets a pragma's value, a string of bytes without a zero, in the cache and in the file. */
    method SetPersistentPragma(i: Pragma, value: Bytes) returns (code: Code)
      requires Valid() && i != 0 && Room(present, file, value + [0])
      modifies this
      ensures Valid() && code == Ok && present
      ensures store == old(store)[i := value + [0]]
      ensures |file| > |old(file)|
    {
      hide Holds, HeaderSound, AfterInsert, Insertable, Room;
      var stored := value + [0];
      SetHolds(chksum, present, file, store, i, stored);
      cache := cache[i := Entry(|value| + 1, cache[i].offset, stored)];
      code := InsertPragmaIntoFile(i);
      store := store[i := stored];
    }
  }
}
