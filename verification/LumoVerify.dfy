/** Checking the Lumo extension of a row that has been read. */
module LumoVerify {
  import opened Blake3Subtree
  import opened Blake3Tree
  import opened Common
  import opened LumoExtension
  import opened LumoRecord
  import opened Rowsum
  import opened Varint

  // ----- entries -----

  datatype Entry = Entry(kind: nat, subtype: nat, payload: seq<bv8>)

  /** The entries from pos to end, if the bytes are whole entries of no end type. */
  function Entries(z: seq<bv8>, pos: nat, end: nat): Option<seq<Entry>>
    requires pos <= end < |z|
    decreases end - pos
  {
    if pos == end then Some([])
    else
      var kind := Get(z, pos);
      var subAt := pos + kind.len;
      if kind.value == END_TYPE || subAt >= end then None
      else
        var sub := Get(z, subAt);
        var lenAt := subAt + sub.len;
        if lenAt >= end then None
        else
          var len := Get(z, lenAt);
          var at := lenAt + len.len;
          if at + len.value > end then None
          else
            var rest := Entries(z, at + len.value, end);
            if rest == None then None
            else Some([Entry(kind.value, sub.value, z[at..at + len.value])] + rest.value)
  }

  /** The entries of an extension: after the magic string, up to the end type that closes it. */
  function Parsed(z: seq<bv8>): Option<seq<Entry>>
    requires |z| > MAGIC_LEN
  {
    if Val(z[|z| - 1]) != END_TYPE then None else Entries(z, MAGIC_LEN, |z| - 1)
  }

  // ----- checking -----

  /** What the check of one row sum finds. */
  datatype Check = Bad | Mismatch | Satisfied

  /** The first bytes of a payload, if it has as many: else reading them fails. */
  function FirstBytes(payload: seq<bv8>, n: nat): Option<seq<bv8>>
  {
    if n <= |payload| then Some(payload[..n]) else None
  }

  /** A row sum of a known algorithm but another length is bad; an unknown algorithm is let pass; data that
      cannot be read match no digest. */
  function Checked(m: Mode, e: Entry, data: Option<seq<bv8>>): Check
  {
    if e.subtype >= N_ALGORITHMS then Satisfied
    else if DigestLength(e.subtype) != |e.payload| then Bad
    else if |e.payload| == 0 || (data.Some? && DigestOf(m, e.subtype, data.value) == e.payload) then Satisfied
    else Mismatch
  }

  predicate IsRowsum(e: Entry)
  {
    e.kind == ROWSUM_TYPE
  }

  /** No row sum is bad. */
  ghost predicate NoneBad(m: Mode, es: seq<Entry>, data: Option<seq<bv8>>)
  {
    forall i :: 0 <= i < |es| && IsRowsum(es[i]) ==> Checked(m, es[i], data) != Bad
  }

  ghost predicate SomeSatisfied(m: Mode, es: seq<Entry>, data: Option<seq<bv8>>)
  {
    exists i :: 0 <= i < |es| && IsRowsum(es[i]) && Checked(m, es[i], data) == Satisfied
  }

  /** The digest of the first nSum bytes of the payload, read in pieces of 4096; none if a piece cannot be
      read. */
  method DigestOfPayload(p: Platform, algorithm: nat, payload: seq<bv8>, nSum: nat, aligned: bool)
    returns (rowsum: Option<seq<bv8>>)
    requires 0 < algorithm < N_ALGORITHMS && GoodPlatform(p) && nSum < SIZE_LIMIT
    ensures rowsum == if nSum <= |payload| then Some(DigestOf(p.mode, algorithm, payload[..nSum])) else None
  {
    hide DigestOf, Digester.Valid;
    var ctx := new Digester(algorithm, p);
    var nCheck: nat, nPos: nat := nSum, 0;
    while nCheck > 0
      invariant nPos + nCheck == nSum && nPos <= |payload| && ctx.Valid() && fresh(ctx.Repr())
      invariant ctx.content == payload[..nPos]
    {
      var todo := if nCheck < 4096 then nCheck else 4096;
      if nPos + todo > |payload| {
        return None;
      }
      var buffer := payload[nPos..nPos + todo];
      ctx.Update(buffer, aligned);
      assert payload[..nPos] + buffer == payload[..nPos + todo];
      nCheck := nCheck - todo;
      nPos := nPos + todo;
    }
    var digest := ctx.Final();
    rowsum := Some(digest);
  }

  /** Checks one row sum; the result is 0 only for a wrong length, and needRowsum is cleared when the row
      sum is satisfied. */
  method CheckRowsum(p: Platform, zH: seq<bv8>, xsubtype: nat, payload: seq<bv8>, nSum: nat, aligned: bool,
                     needRowsum: bool)
    returns (result: int, stillNeeded: bool)
    requires GoodPlatform(p) && nSum < SIZE_LIMIT
    ensures var c := Checked(p.mode, Entry(ROWSUM_TYPE, xsubtype, zH), FirstBytes(payload, nSum));
            && (result == 0 <==> c == Bad) && (stillNeeded <==> needRowsum && c != Satisfied)
  {
    hide DigestOf, DigestLength;
    stillNeeded := needRowsum;
    if xsubtype >= N_ALGORITHMS {
      return 1, false;
    }
    if DigestLength(xsubtype) != |zH| {
      return 0, stillNeeded;
    }
    if |zH| != 0 {
      var rowsum := DigestOfPayload(p, xsubtype, payload, nSum, aligned);
      if rowsum != Some(zH) {
        return -1, stillNeeded;
      }
    }
    return 1, false;
  }

  /** Reading a number before the end type never reads past it. */
  lemma ReadsWithin(z: seq<bv8>, pos: nat)
    requires pos < |z| && Val(z[|z| - 1]) == END_TYPE
    ensures pos + Get(z, pos).len <= |z|
  {
    hide Get, Val;
    StopsAtLast(z, pos, |z| - 1);
  }

  lemma OneMore(m: Mode, done: seq<Entry>, e: Entry, data: Option<seq<bv8>>)
    ensures NoneBad(m, done + [e], data) <==> NoneBad(m, done, data) && (IsRowsum(e) ==> Checked(m, e, data) != Bad)
    ensures SomeSatisfied(m, done + [e], data)
            <==> SomeSatisfied(m, done, data) || (IsRowsum(e) && Checked(m, e, data) == Satisfied)
  {
    hide Checked, IsRowsum;
    var all := done + [e];
    assert all[|done|] == e;
    forall i | 0 <= i < |done|
      ensures all[i] == done[i]
    {
    }
    if SomeSatisfied(m, done, data) {
      var i :| 0 <= i < |done| && IsRowsum(done[i]) && Checked(m, done[i], data) == Satisfied;
      assert IsRowsum(all[i]);
    }
  }

  /** One entry read, its fields as far as they go. */
  datatype Step = Broken | Whole(entry: Entry, next: nat)

  /** Reads the entry at pos, or finds that there is none. */
  method ReadEntry(z: seq<bv8>, pos: nat) returns (r: Step)
    requires |z| > 0 && pos < |z| - 1 && Val(z[|z| - 1]) == END_TYPE
    ensures r == Broken ==> Entries(z, pos, |z| - 1) == None
    ensures r.Whole? ==>
              && pos < r.next <= |z| - 1
              && var rest := Entries(z, r.next, |z| - 1);
              Entries(z, pos, |z| - 1) == if rest == None then None else Some([r.entry] + rest.value)
  {
    hide Get, Val;
    var zEnd := |z| - 1;
    ReadsWithin(z, pos);
    var kind := Get(z, pos);
    var zH := pos + kind.len;
    if kind.value == END_TYPE {
      return Broken;
    }
    if zH >= zEnd {
      return Broken;
    }
    ReadsWithin(z, zH);
    var sub := Get(z, zH);
    zH := zH + sub.len;
    if zH >= zEnd {
      return Broken;
    }
    ReadsWithin(z, zH);
    var len := Get(z, zH);
    zH := zH + len.len;
    if zH + len.value > zEnd {
      return Broken;
    }
    r := Whole(Entry(kind.value, sub.value, z[zH..zH + len.value]), zH + len.value);
  }

  /** Whether a row's extension is accepted: it parses, from level 1 on no row sum is bad, and from level
      2 on some row sum is satisfied. */
  ghost predicate Accepted(m: Mode, z: seq<bv8>, data: Option<seq<bv8>>, level: nat)
    requires |z| > MAGIC_LEN
  {
    && Parsed(z).Some?
    && (level >= 1 ==> NoneBad(m, Parsed(z).value, data))
    && (level >= 2 ==> SomeSatisfied(m, Parsed(z).value, data))
  }

  /** What has been parsed so far and what is left make up the whole. */
  lemma Regroup(z: seq<bv8>, done: seq<Entry>, e: Entry, pos: nat, next: nat, end: nat)
    requires pos < next <= end < |z|
    requires var rest := Entries(z, next, end);
             Entries(z, pos, end) == if rest == None then None else Some([e] + rest.value)
    ensures Entries(z, next, end) == None <==> Entries(z, pos, end) == None
    ensures Entries(z, next, end).Some? ==>
              done + Entries(z, pos, end).value == done + [e] + Entries(z, next, end).value
  {
    hide Entries;
    if Entries(z, next, end).Some? {
      assert done + ([e] + Entries(z, next, end).value) == done + [e] + Entries(z, next, end).value;
    }
  }

  /** Handles what may be an extension: 0 if it is not one, 1 if it is accepted and -1 if not. */
  method ExtensionHandle(p: Platform, zRow: seq<bv8>, payload: seq<bv8>, nSum: nat, aligned: bool, level: nat)
    returns (result: int)
    requires GoodPlatform(p) && nSum < SIZE_LIMIT
    ensures result == 0 <==> |zRow| <= MAGIC_LEN || zRow[..MAGIC_LEN] != Magic()
    ensures result == 1 <==>
            && |zRow| > MAGIC_LEN && zRow[..MAGIC_LEN] == Magic()
            && Accepted(p.mode, zRow, FirstBytes(payload, nSum), level)
    ensures -1 <= result <= 1
  {
    hide Get, Val, Entries, Checked, Magic, GoodPlatform, NoneBad, SomeSatisfied;
    var needRowsum := level > 1;
    if |zRow| <= MAGIC_LEN {
      return 0;
    }
    if zRow[..MAGIC_LEN] != Magic() {
      return 0;
    }
    var zEnd := |zRow| - 1;
    if Val(zRow[zEnd]) != END_TYPE {
      return -1;
    }
    ghost var data := FirstBytes(payload, nSum);
    ghost var done: seq<Entry> := [];
    NothingYet(p.mode, data);
    StartOf(zRow);
    var zH := MAGIC_LEN;
    while zH < zEnd
      invariant MAGIC_LEN <= zH <= zEnd
      invariant Entries(zRow, zH, zEnd) == None <==> Parsed(zRow) == None
      invariant Parsed(zRow).Some? ==> Parsed(zRow).value == done + Entries(zRow, zH, zEnd).value
      invariant level >= 1 ==> NoneBad(p.mode, done, data)
      invariant needRowsum <==> level > 1 && !SomeSatisfied(p.mode, done, data)
      decreases zEnd - zH
    {
      var step := ReadEntry(zRow, zH);
      if step == Broken {
        return -1;
      }
      var e := step.entry;
      Regroup(zRow, done, e, zH, step.next, zEnd);
      OneMore(p.mode, done, e, data);
      if e.kind == ROWSUM_TYPE && level > 0 {
        var checked;
        checked, needRowsum := CheckRowsum(p, e.payload, e.subtype, payload, nSum, aligned, needRowsum);
        if checked == 0 {
          if Parsed(zRow).Some? {
            BadStays(p.mode, done + [e], Entries(zRow, step.next, zEnd).value, data);
          }
          return -1;
        }
      }
      done := done + [e];
      zH := step.next;
    }
    EndOf(zRow, zEnd);
    assert Parsed(zRow).Some? && Parsed(zRow).value == done by { assert done + [] == done; }
    if needRowsum {
      return -1;
    }
    return 1;
  }

  lemma NothingYet(m: Mode, data: Option<seq<bv8>>)
    ensures NoneBad(m, [], data) && !SomeSatisfied(m, [], data)
  {
  }

  lemma StartOf(z: seq<bv8>)
    requires |z| > MAGIC_LEN && Val(z[|z| - 1]) == END_TYPE
    ensures Parsed(z) == Entries(z, MAGIC_LEN, |z| - 1)
    ensures Parsed(z).Some? ==> Parsed(z).value == [] + Entries(z, MAGIC_LEN, |z| - 1).value
  {
  }

  lemma EndOf(z: seq<bv8>, end: nat)
    requires end < |z|
    ensures Entries(z, end, end) == Some([])
  {
  }

  lemma BadStays(m: Mode, done: seq<Entry>, rest: seq<Entry>, data: Option<seq<bv8>>)
    requires !NoneBad(m, done, data)
    ensures !NoneBad(m, done + rest, data)
  {
    hide Checked, IsRowsum;
    var i :| 0 <= i < |done| && IsRowsum(done[i]) && Checked(m, done[i], data) == Bad;
    assert (done + rest)[i] == done[i];
  }

  // ----- what has been added is accepted -----

  lemma PutEnd()
    ensures Put(END_TYPE) == [Byte(0)] && Val(Byte(0)) == 0
  {
    assert Front(0) == [];
    ValByte(0);
    hide Byte, Val;
  }

  /** An entry whose numbers fit 32 bits and whose type is not that of the end. */
  predicate Storable(e: Entry)
  {
    e.kind != END_TYPE && e.kind <= MAX32 && e.subtype <= MAX32 && |e.payload| <= MAX32
  }

  function EntryBytes(e: Entry): seq<bv8>
  {
    Put(e.kind) + Put(e.subtype) + Put(|e.payload|) + e.payload
  }

  function EntriesBytes(es: seq<Entry>): seq<bv8>
  {
    if es == [] then [] else EntryBytes(es[0]) + EntriesBytes(es[1..])
  }

  /** An extension with the entries given. */
  function ExtensionOf(es: seq<Entry>): seq<bv8>
  {
    Magic() + EntriesBytes(es) + Put(END_TYPE)
  }

  lemma HasParts(z: seq<bv8>, pos: nat, a: seq<bv8>, b: seq<bv8>)
    requires HasAt(z, pos, a + b)
    ensures HasAt(z, pos, a) && HasAt(z, pos + |a|, b)
  {
    assert z[pos..pos + |a|] == z[pos..pos + |a + b|][..|a|];
    assert z[pos + |a|..pos + |a| + |b|] == z[pos..pos + |a + b|][|a|..];
  }

  /** The numbers before a payload are read back. */
  lemma EntryReads(z: seq<bv8>, pos: nat, e: Entry)
    requires Storable(e) && HasAt(z, pos, EntryBytes(e))
    ensures var subAt := pos + Len(e.kind);
            var lenAt := subAt + Len(e.subtype);
            var at := lenAt + Len(|e.payload|);
            && |EntryBytes(e)| == at + |e.payload| - pos && HasAt(z, at, e.payload) && lenAt < |z|
            && Get(z, pos) == Read(e.kind, Len(e.kind)) && Get(z, subAt) == Read(e.subtype, Len(e.subtype))
            && Get(z, lenAt) == Read(|e.payload|, Len(|e.payload|))
  {
    hide Get, Put, HasAt, Len;
    var a, b, c := Put(e.kind), Put(e.subtype), Put(|e.payload|);
    HasParts(z, pos, a + b + c, e.payload);
    HasParts(z, pos, a + b, c);
    HasParts(z, pos, a, b);
    PutLength(e.kind);
    PutLength(e.subtype);
    PutLength(|e.payload|);
    GetPut(z, pos, e.kind);
    GetPut(z, pos + |a|, e.subtype);
    GetPut(z, pos + |a| + |b|, |e.payload|);
  }

  /** Written entries are read back. */
  lemma {:induction false} EntriesRead(z: seq<bv8>, pos: nat, es: seq<Entry>)
    requires (forall i :: 0 <= i < |es| ==> Storable(es[i])) && HasAt(z, pos, EntriesBytes(es))
    requires pos + |EntriesBytes(es)| < |z|
    ensures Entries(z, pos, pos + |EntriesBytes(es)|) == Some(es)
    decreases |es|
  {
    hide Get, Put, HasAt, Len, EntryBytes;
    if es != [] {
      var next := pos + |EntryBytes(es[0])|;
      HasParts(z, pos, EntryBytes(es[0]), EntriesBytes(es[1..]));
      EntryReads(z, pos, es[0]);
      EntriesRead(z, next, es[1..]);
      PayloadAt(z, next - |es[0].payload|, es[0].payload);
      hide Storable, EntriesBytes;
      assert [es[0]] + es[1..] == es;
    }
  }

  lemma PayloadAt(z: seq<bv8>, at: nat, payload: seq<bv8>)
    requires HasAt(z, at, payload)
    ensures at + |payload| <= |z| && z[at..at + |payload|] == payload
  {
  }

  /** An extension with any entries parses as them. */
  lemma ParsesBack(es: seq<Entry>)
    requires forall i :: 0 <= i < |es| ==> Storable(es[i])
    ensures var z := ExtensionOf(es);
            |z| > MAGIC_LEN && z[..MAGIC_LEN] == Magic() && Parsed(z) == Some(es)
  {
    hide Put, Magic, Val, Entries, Storable, EntriesBytes;
    var z := ExtensionOf(es);
    PutEnd();
    assert HasAt(z, MAGIC_LEN, EntriesBytes(es));
    EntriesRead(z, MAGIC_LEN, es);
  }

  /** What is written is the extension with the one entry. */
  lemma OneEntry(m: Mode, algorithm: nat, data: seq<bv8>)
    requires algorithm < N_ALGORITHMS
    ensures Extension(m, algorithm, data) == ExtensionOf([Entry(ROWSUM_TYPE, algorithm, RowDigest(m, algorithm, data))])
  {
    hide Put, Magic, RowDigest, DigestLength;
    var e := Entry(ROWSUM_TYPE, algorithm, RowDigest(m, algorithm, data));
    assert EntriesBytes([e]) == EntryBytes(e) + EntriesBytes([e][1..]) == EntryBytes(e);
    assert EntryBytes(e) == EntryHead(algorithm) + e.payload;
    hide EntriesBytes, EntryBytes, EntryHead;
    assert Magic() + (EntryHead(algorithm) + e.payload) + Put(END_TYPE)
        == Magic() + EntryHead(algorithm) + e.payload + Put(END_TYPE);
  }

  /** An extension that was written parses as its one entry. */
  lemma ExtensionParses(m: Mode, algorithm: nat, data: seq<bv8>)
    requires algorithm < N_ALGORITHMS
    ensures var z := Extension(m, algorithm, data);
            && |z| > MAGIC_LEN && z[..MAGIC_LEN] == Magic()
            && Parsed(z) == Some([Entry(ROWSUM_TYPE, algorithm, RowDigest(m, algorithm, data))])
  {
    hide Parsed, Magic, RowDigest, Extension, ExtensionOf;
    OneEntry(m, algorithm, data);
    assert |RowDigest(m, algorithm, data)| <= 64 by { hide DigestLength; }
    ParsesBack([Entry(ROWSUM_TYPE, algorithm, RowDigest(m, algorithm, data))]);
  }

  lemma OneRowsum(m: Mode, z: seq<bv8>, e: Entry, data: Option<seq<bv8>>, level: nat)
    requires |z| > MAGIC_LEN && Parsed(z) == Some([e]) && IsRowsum(e)
    ensures Accepted(m, z, data, level)
            <==> (level >= 1 ==> Checked(m, e, data) != Bad) && (level >= 2 ==> Checked(m, e, data) == Satisfied)
  {
    hide Parsed, Checked;
    var es := [e];
    assert es[0] == e;
    assert NoneBad(m, es, data) <==> Checked(m, e, data) != Bad;
    assert SomeSatisfied(m, es, data) <==> Checked(m, e, data) == Satisfied;
  }

  /** What the check of a written digest finds against other data. */
  lemma WrittenChecked(m: Mode, algorithm: nat, data: seq<bv8>, other: Option<seq<bv8>>)
    requires algorithm < N_ALGORITHMS
    ensures var c := Checked(m, Entry(ROWSUM_TYPE, algorithm, RowDigest(m, algorithm, data)), other);
            && c != Bad
            && (other.Some? ==>
                  (c == Satisfied <==> RowDigest(m, algorithm, data) == RowDigest(m, algorithm, other.value)))
  {
    hide DigestOf, DigestLength;
  }

  /** Whatever the level, an extension is accepted against the data it was written for. */
  lemma WrittenIsAccepted(m: Mode, algorithm: nat, data: seq<bv8>, level: nat)
    requires algorithm < N_ALGORITHMS
    ensures |Extension(m, algorithm, data)| > MAGIC_LEN && Accepted(m, Extension(m, algorithm, data), Some(data), level)
  {
    ExtensionParses(m, algorithm, data);
    hide Extension, Parsed, Checked, RowDigest, Accepted;
    var e := Entry(ROWSUM_TYPE, algorithm, RowDigest(m, algorithm, data));
    OneRowsum(m, Extension(m, algorithm, data), e, Some(data), level);
    WrittenChecked(m, algorithm, data, Some(data));
  }

  /** An extension between the data it was written for and whatever follows. */
  lemma AcceptedInPlace(m: Mode, algorithm: nat, data: seq<bv8>, rest: seq<bv8>, level: nat)
    requires algorithm < N_ALGORITHMS
    ensures var row := data + Extension(m, algorithm, data) + rest;
            var len := ExtensionLength(algorithm);
            && MAGIC_LEN < len && |data| + len + |rest| == |row|
            && row[|data|..|data| + len][..MAGIC_LEN] == Magic()
            && Accepted(m, row[|data|..|data| + len], FirstBytes(row, |data|), level)
  {
    hide Extension, Accepted, Magic, ExtensionLength;
    ExtensionSize(m, algorithm, data);
    ExtensionParses(m, algorithm, data);
    WrittenIsAccepted(m, algorithm, data, level);
    var row := data + Extension(m, algorithm, data) + rest;
    assert row[|data|..|data| + ExtensionLength(algorithm)] == Extension(m, algorithm, data) && row[..|data|] == data;
  }

  /** What was found is what was written, and passes. */
  ghost predicate FoundAccepted(m: Mode, row: seq<bv8>, found: Found, level: nat)
  {
    && found.Found? && MAGIC_LEN < found.len && found.start + found.len <= |row|
    && row[found.start..found.start + found.len][..MAGIC_LEN] == Magic()
    && Accepted(m, row[found.start..found.start + found.len], FirstBytes(row, found.start), level)
  }

  /** A table row that has been extended passes, read from any point of its header. */
  lemma RoundTripTable(m: Mode, algorithm: nat, z: seq<bv8>, nZero: nat, s: Scan, k: nat, level: nat)
    requires algorithm < N_ALGORITHMS && WellFormed(z, nZero) && Minimal(z) && Fits(z, nZero)
    requires k <= |TypesOf(z, nZero)|
    requires ParsedTo(Extended(m, algorithm, false, z, nZero), s, TypesOf(z, nZero) + [BlobType(algorithm)], k)
    ensures var row := Extended(m, algorithm, false, z, nZero);
            FoundAccepted(m, row, Located(false, row, HeaderLen(row), |TypesOf(z, nZero)|, s), level)
  {
    FoundAfterAddTable(m, algorithm, z, nZero, s, k);
    AcceptedInPlace(m, algorithm, Hashed(false, algorithm, z, nZero), [], level);
    hide Located, Get, Extension, Accepted, Magic, Hashed, ParsedTo, WellFormed, Minimal, ExtensionLength;
  }

  /** So does an index row. */
  lemma RoundTripIndex(m: Mode, algorithm: nat, z: seq<bv8>, s: Scan, k: nat, level: nat)
    requires algorithm < N_ALGORITHMS && RowidIndex(z) && HasRowid(RowidType(z)) && Fits(z, 0)
    requires k <= |TypesOf(z, 0)| && ParsedTo(Extended(m, algorithm, true, z, 0), s, TypesOf(z, 0), k)
    ensures var row := Extended(m, algorithm, true, z, 0);
            && 0 < HeaderLen(z) <= |row|
            && FoundAccepted(m, row, Located(true, row, HeaderLen(z), |TypesOf(z, 0)|, s), level)
  {
    BadExactly(RowidType(z));
    hide HasRowid, BadRowidType;
    FoundAfterAddIndex(m, algorithm, z, s, k);
    AcceptedInPlace(m, algorithm, z, RowidBytes(z), level);
    hide Located, Get, Extension, Accepted, Magic, ParsedTo, ExtensionLength, RowidBytes;
  }

  // ----- what acceptance means -----

  /** A digest of the length of its algorithm, or of an algorithm that is not one of the known ones. */
  predicate LengthRight(e: Entry)
  {
    e.subtype >= N_ALGORITHMS || |e.payload| == DigestLength(e.subtype)
  }

  /** The digest of the data, or one of an algorithm that is not one of the known ones. If the data cannot be
      read, only an empty digest will do. */
  predicate Vouches(m: Mode, e: Entry, data: Option<seq<bv8>>)
  {
    || e.subtype >= N_ALGORITHMS
    || (if data.Some? then e.payload == RowDigest(m, e.subtype, data.value)
        else DigestLength(e.subtype) == |e.payload| == 0)
  }

  lemma CheckedMeans(m: Mode, e: Entry, data: Option<seq<bv8>>)
    ensures Checked(m, e, data) != Bad <==> LengthRight(e)
    ensures Checked(m, e, data) == Satisfied <==> Vouches(m, e, data)
  {
    hide DigestOf, DigestLength;
  }

  /** At level 2 an extension is accepted exactly if no row sum has a digest of a wrong length and one of
      them vouches for the data. */
  lemma AcceptedExactly(m: Mode, z: seq<bv8>, data: Option<seq<bv8>>)
    requires |z| > MAGIC_LEN && Parsed(z).Some?
    ensures var es := Parsed(z).value;
            Accepted(m, z, data, 2)
            <==> && (forall i :: 0 <= i < |es| && IsRowsum(es[i]) ==> LengthRight(es[i]))
                 && (exists i :: 0 <= i < |es| && IsRowsum(es[i]) && Vouches(m, es[i], data))
  {
    var es := Parsed(z).value;
    forall i | 0 <= i < |es|
      ensures Checked(m, es[i], data) != Bad <==> LengthRight(es[i])
      ensures Checked(m, es[i], data) == Satisfied <==> Vouches(m, es[i], data)
    {
      CheckedMeans(m, es[i], data);
    }
    hide Parsed, Checked, IsRowsum, LengthRight, Vouches;
  }

  /** At level 0 whatever parses is accepted; at level 1 what has no row sum with a digest of a wrong length. */
  lemma AcceptedBelow(m: Mode, z: seq<bv8>, data: Option<seq<bv8>>)
    requires |z| > MAGIC_LEN
    ensures Accepted(m, z, data, 0) <==> Parsed(z).Some?
    ensures Accepted(m, z, data, 1)
            <==> Parsed(z).Some?
                 && var es := Parsed(z).value;
                 forall i :: 0 <= i < |es| && IsRowsum(es[i]) ==> LengthRight(es[i])
  {
    if Parsed(z).Some? {
      var es := Parsed(z).value;
      forall i | 0 <= i < |es|
        ensures Checked(m, es[i], data) != Bad <==> LengthRight(es[i])
      {
        CheckedMeans(m, es[i], data);
      }
    }
    hide Parsed, Checked, IsRowsum, LengthRight, Vouches;
  }

  /** A digest that does not match is let pass at level 2 exactly if no row sum has a digest of a wrong length
      and another row sum vouches for the data. */
  lemma MismatchAccepted(m: Mode, z: seq<bv8>, data: Option<seq<bv8>>, k: nat)
    requires |z| > MAGIC_LEN && Parsed(z).Some? && k < |Parsed(z).value|
    requires IsRowsum(Parsed(z).value[k]) && LengthRight(Parsed(z).value[k]) && !Vouches(m, Parsed(z).value[k], data)
    ensures var es := Parsed(z).value;
            Accepted(m, z, data, 2)
            <==> && (forall i :: 0 <= i < |es| && i != k && IsRowsum(es[i]) ==> LengthRight(es[i]))
                 && (exists i :: 0 <= i < |es| && i != k && IsRowsum(es[i]) && Vouches(m, es[i], data))
  {
    AcceptedExactly(m, z, data);
    hide Accepted, Parsed, IsRowsum, LengthRight, Vouches;
  }

  /** At level 1 no digest is looked at: an extension is accepted against any data, readable or not, as it
      is against the data it was written for. */
  lemma LevelOneIgnoresDigests(m: Mode, algorithm: nat, data: seq<bv8>, other: Option<seq<bv8>>)
    requires algorithm < N_ALGORITHMS
    ensures |Extension(m, algorithm, data)| > MAGIC_LEN && Accepted(m, Extension(m, algorithm, data), other, 1)
    ensures other.Some? ==>
              (Accepted(m, Extension(m, algorithm, data), other, 2)
               <==> RowDigest(m, algorithm, data) == RowDigest(m, algorithm, other.value))
  {
    ExtensionParses(m, algorithm, data);
    hide Extension, Parsed, Checked, RowDigest, Accepted;
    var z, e := Extension(m, algorithm, data), Entry(ROWSUM_TYPE, algorithm, RowDigest(m, algorithm, data));
    OneRowsum(m, z, e, other, 1);
    OneRowsum(m, z, e, other, 2);
    WrittenChecked(m, algorithm, data, other);
  }

  /** Beside the empty row sum, any digest of the right length passes. */
  lemma WrongDigestPair(m: Mode, e: Entry, data: Option<seq<bv8>>)
    requires IsRowsum(e) && Storable(e) && LengthRight(e)
    ensures var z := ExtensionOf([e, Entry(ROWSUM_TYPE, 0, [])]);
            |z| > MAGIC_LEN && Accepted(m, z, data, 2)
  {
    hide DigestOf, DigestLength, Parsed, Accepted, ExtensionOf;
    var none := Entry(ROWSUM_TYPE, 0, []);
    assert Storable(none) && IsRowsum(none) && LengthRight(none) && Vouches(m, none, data);
    hide Storable, IsRowsum, LengthRight, Vouches;
    ParsesBack([e, none]);
    AcceptedExactly(m, ExtensionOf([e, none]), data);
    assert [e, none][1] == none;
  }

  /** Any wrong digest of the right length passes at level 1. At level 2 it does not pass alone, but with
      the empty row sum beside it. */
  lemma WrongDigestInput(m: Mode, algorithm: nat, data: seq<bv8>, d: seq<bv8>)
    requires algorithm < N_ALGORITHMS && |d| == DigestLength(algorithm) && d != RowDigest(m, algorithm, data)
    ensures var wrong, none := Entry(ROWSUM_TYPE, algorithm, d), Entry(ROWSUM_TYPE, 0, []);
            && |ExtensionOf([wrong])| > MAGIC_LEN && |ExtensionOf([wrong, none])| > MAGIC_LEN
            && Accepted(m, ExtensionOf([wrong]), Some(data), 1) && !Accepted(m, ExtensionOf([wrong]), Some(data), 2)
            && Accepted(m, ExtensionOf([wrong, none]), Some(data), 2)
  {
    var wrong := Entry(ROWSUM_TYPE, algorithm, d);
    assert Storable(wrong) by { hide DigestLength; }
    CheckedMeans(m, wrong, Some(data));
    ParsesBack([wrong]);
    WrongDigestPair(m, wrong, Some(data));
    hide Parsed, Accepted, ExtensionOf, Checked, DigestOf, DigestLength;
    OneRowsum(m, ExtensionOf([wrong]), wrong, Some(data), 1);
    OneRowsum(m, ExtensionOf([wrong]), wrong, Some(data), 2);
  }
}
