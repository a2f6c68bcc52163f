/** What each transaction call of the LMDB backend does to a connection, as functions on values. LMDB
    itself is a store with snapshot readers, one writer at a time and nested write transactions. */
module LmdbModel {
  import opened Bits
  import opened Common

  const WORD32: nat := 0x1_0000_0000
  datatype Code = Ok | Busy | ReadOnly | Internal | Failed

  datatype TransType = Optimistic | NoUpgrade | Serialise

  datatype TxnState = NoTxn | Reading | Writing

  /** What a transaction sees: the rows and the commit counter as it is stored. */
  datatype View = View(data: map<int, int>, counter: nat)

  function Lookup(v: View, key: int): Option<int>
  {
    if key in v.data then Some(v.data[key]) else None
  }

  function RowPut(v: View, key: int, value: int): View
  {
    v.(data := v.data[key := value])
  }

  function RowDelete(v: View, key: int): View
  {
    v.(data := v.data - {key})
  }

  function Cleared(v: View): View
  {
    v.(data := map[])
  }

  /** What is found after a write, a delete and a clear: the row written, no row, nothing at all, and
      everything else as it was. */
  lemma FoundAfter(v: View, key: int, value: int, other: int)
    ensures Lookup(RowPut(v, key, value), other) == if other == key then Some(value) else Lookup(v, other)
    ensures Lookup(RowDelete(v, key), other) == if other == key then None else Lookup(v, other)
    ensures Lookup(Cleared(v), other) == None
    ensures RowPut(v, key, value).counter == RowDelete(v, key).counter == Cleared(v).counter == v.counter
  {
  }

  /** What a cursor can be moved to. */
  datatype Look = First | Last | Above(key: int) | Below(key: int) | AtOrAbove(key: int)

  predicate InReach(look: Look, key: int)
  {
    match look
    case Above(k) => key > k
    case Below(k) => key < k
    case AtOrAbove(k) => key >= k
    case First => true
    case Last => true
  }

  /** What is found: the nearest row in reach, or none. */
  predicate Finds(v: View, look: Look, found: Option<int>)
  {
    match found
    case None => forall key :: key in v.data ==> !InReach(look, key)
    case Some(row) =>
      && row in v.data && InReach(look, row)
      && forall key :: key in v.data && InReach(look, key) ==>
           if look.Last? || look.Below? then key <= row else row <= key
  }

  /** There is always exactly one answer. */
  lemma LooksFindOne(v: View, look: Look) returns (found: Option<int>)
    ensures Finds(v, look, found) && forall other :: Finds(v, look, other) ==> other == found
  {
    var reach := set key | key in v.data && InReach(look, key);
    if reach == {} {
      assert forall key :: key in v.data && InReach(look, key) ==> key in reach;
      found := None;
    } else {
      var row := Extreme(reach, look.Last? || look.Below?);
      found := Some(row);
      assert forall key :: key in v.data && InReach(look, key) ==> key in reach;
    }
  }

  lemma SomeKey(s: set<int>)
    requires s != {}
    ensures exists m :: m in s
  {
    assert (forall m :: m !in s) ==> s == {};
  }

  /** The greatest or the least of some keys. */
  lemma {:induction false} Extreme(s: set<int>, greatest: bool) returns (m: int)
    requires s != {}
    ensures m in s && forall key :: key in s ==> if greatest then key <= m else m <= key
    decreases |s|
  {
    SomeKey(s);
    m :| m in s;
    var rest := s - {m};
    if rest != {} {
      var other := Extreme(rest, greatest);
      assert forall key :: key in s ==> key == m || key in rest;
      if (greatest && other > m) || (!greatest && other < m) { m := other; }
    }
  }

  // ----- the commit counter -----

  /** The counter as it is used: the 64-bit number comes back through an int, so it keeps only its low
      32 bits, sign-extended. */
  function CounterRead(v: View): (n: nat)
    ensures n < WORD64
  {
    var low := v.counter % WORD32;
    if low < WORD32 / 2 then low else WORD64 - WORD32 + low
  }

  function Stepped(v: View): View
  {
    v.(counter := (CounterRead(v) + 1) % WORD64)
  }

  lemma CounterReadEqual(a: View, b: View)
    ensures CounterRead(a) == CounterRead(b) <==> a.counter % WORD32 == b.counter % WORD32
  {
  }

  lemma CounterReadLow(v: View)
    ensures CounterRead(v) % WORD32 == v.counter % WORD32
  {
    var low := v.counter % WORD32;
    if low >= WORD32 / 2 {
      DivModUnique(WORD64 - WORD32 + low, WORD32, WORD32 - 1, low);
    }
  }

  /** Read as a signed number of 64 bits, the counter is the one signed number of 32 bits that agrees with
      the stored one in its low 32. */
  lemma CounterIsSigned(v: View)
    ensures var n := CounterRead(v);
            var s := if n < WORD64 / 2 then n else n - WORD64;
            -(WORD32 / 2) <= s < WORD32 / 2 && (s - v.counter) % WORD32 == 0
  {
    var low := v.counter % WORD32;
    var q := v.counter / WORD32;
    assert v.counter == WORD32 * q + low;
    if low < WORD32 / 2 {
      assert low - v.counter == WORD32 * -q;
    } else {
      assert low - WORD32 - v.counter == WORD32 * (-q - 1);
    }
  }

  lemma SteppedLow(v: View)
    ensures Stepped(v).counter % WORD32 == (v.counter + 1) % WORD32
  {
    var n := CounterRead(v);
    CounterReadLow(v);
    var q := n / WORD32;
    assert n == WORD32 * q + v.counter % WORD32;
    var k := v.counter / WORD32;
    assert v.counter == WORD32 * k + v.counter % WORD32;
    if n + 1 < WORD64 {
      SameRemainder(n + 1, v.counter + 1, WORD32, q - k);
    } else {
      SameRemainder(0, v.counter + 1, WORD32, -1 - k);
    }
  }

  lemma SameRemainder(a: nat, b: nat, d: nat, k: int)
    requires d > 0 && a == b + d * k
    ensures a % d == b % d
  {
    var q := b / d;
    assert b == d * q + b % d;
    assert a == d * (q + k) + b % d;
    MulLower(d, q + k);
    DivModUnique(a, d, q + k, b % d);
  }

  /** Every commit steps the counter. */
  predicate Chained(history: seq<View>)
  {
    |history| >= 1 && forall j :: 0 <= j < |history| - 1 ==> history[j + 1].counter == Stepped(history[j]).counter
  }

  lemma {:induction false} CounterAfter(history: seq<View>, i: nat, j: nat)
    requires Chained(history) && i <= j < |history|
    ensures history[j].counter % WORD32 == (history[i].counter + (j - i)) % WORD32
    decreases j
  {
    if i < j {
      CounterAfter(history, i, j - 1);
      SteppedLow(history[j - 1]);
      var a, b := history[j - 1].counter, history[i].counter + (j - 1 - i);
      var k := a / WORD32 - b / WORD32;
      assert a == b + WORD32 * k;
      SameRemainder(a + 1, b + 1, WORD32, k);
    }
  }

  /** Two states of the store look alike to an upgrade exactly when the number of commits between them
      is a multiple of 2^32. */
  lemma CountersAgree(history: seq<View>, i: nat, j: nat)
    requires Chained(history) && i <= j < |history|
    ensures CounterRead(history[i]) == CounterRead(history[j]) <==> (j - i) % WORD32 == 0
  {
    CounterReadEqual(history[i], history[j]);
    CounterAfter(history, i, j);
    var a, n := history[i].counter, j - i;
    if n % WORD32 == 0 {
      SameRemainder(a + n, a, WORD32, n / WORD32);
    }
    if (a + n) % WORD32 == a % WORD32 {
      var k := (a + n) / WORD32 - a / WORD32;
      assert n == 0 + WORD32 * k;
      SameRemainder(n, 0, WORD32, k);
    }
  }

  // ----- cursors -----

  /** A cursor: whether its LMDB cursor is open, the row it is on, the key saved for restoring it, and
      the code it returns instead of working. */
  datatype Cursor = Cursor(open: bool, row: Option<int>, saved: Option<int>, trip: Code, wr: bool)

  predicate Live(c: Cursor)
  {
    c.open && c.trip == Ok
  }

  /** Invalidating a live cursor: saved and closed for later (trip Ok), or made to return trip. */
  function Invalidated(c: Cursor, trip: Code, writeOnly: bool): Cursor
  {
    if !Live(c) then c
    else if trip == Ok then
      if c.row == None then c.(trip := Failed) else c.(saved := c.row, open := false)
    else if c.wr || !writeOnly then c.(trip := trip)
    else c
  }

  function AllInvalidated(cs: seq<Cursor>, trip: Code, writeOnly: bool): (r: seq<Cursor>)
    ensures |r| == |cs|
  {
    seq(|cs|, i requires 0 <= i < |cs| => Invalidated(cs[i], trip, writeOnly))
  }

  /** A live cursor that is on no row cannot be saved. */
  predicate SaveFails(cs: seq<Cursor>)
  {
    exists i :: 0 <= i < |cs| && Live(cs[i]) && cs[i].row == None
  }

  /** Restoring a saved cursor in the current transaction, on its row if it is to be put back there. */
  function Restored(c: Cursor, v: View, reposition: bool): (Code, Cursor)
  {
    if c.trip != Ok then (c.trip, c)
    else if c.saved == None then (Ok, c)
    else
      var reopened := c.(open := true, row := None);
      if !reposition then (Ok, reopened.(saved := None))
      else if Lookup(v, c.saved.value) == None then (Failed, reopened)
      else (Ok, reopened.(row := c.saved, saved := None))
  }

  /** A cursor is restored exactly if it was not tripped and its row, where it is to be put back, is there;
      it is on this row then, and works again. A tripped one gives its code and stays as it is. */
  lemma RestoredExactly(c: Cursor, v: View, reposition: bool)
    requires c.saved != None
    ensures var (code, next) := Restored(c, v, reposition);
            && (code == Ok <==> c.trip == Ok && (!reposition || Lookup(v, c.saved.value) != None))
            && (code == Ok ==> Live(next) && next.saved == None && (reposition ==> next.row == c.saved))
            && (code != Ok && c.trip == Ok ==> code == Failed && next.row == None && next.saved == c.saved)
            && (c.trip != Ok ==> code == c.trip && next == c)
  {
    hide Lookup;
  }

  /** Just the live cursors are tripped, and of them only the writers if only these are meant. */
  lemma TrippedExactly(cs: seq<Cursor>, trip: Code, writeOnly: bool, i: nat)
    requires trip != Ok && i < |cs|
    ensures var c := AllInvalidated(cs, trip, writeOnly)[i];
            && (c != cs[i] <==> Live(cs[i]) && (cs[i].wr || !writeOnly))
            && (c != cs[i] ==> c == cs[i].(trip := trip))
  {
  }

  lemma NoneLiveAfter(cs: seq<Cursor>, trip: Code)
    ensures forall i :: 0 <= i < |cs| ==> !Live(AllInvalidated(cs, trip, false)[i])
    ensures !SaveFails(AllInvalidated(cs, trip, false))
    ensures AllInvalidated(AllInvalidated(cs, trip, false), trip, false) == AllInvalidated(cs, trip, false)
  {
  }

  // ----- the stack of nested transactions -----

  /** A transaction on the stack; the level of the main one is -1. */
  datatype Entry = Entry(level: int, view: View)

  function Top<T>(s: seq<T>): T
    requires |s| > 0
  {
    s[|s| - 1]
  }

  function Under<T>(s: seq<T>): seq<T>
    requires |s| > 0
  {
    s[..|s| - 1]
  }

  function WithTopView(stack: seq<Entry>, v: View): (r: seq<Entry>)
    requires |stack| > 0
    ensures |r| == |stack|
  {
    Under(stack) + [Top(stack).(view := v)]
  }

  /** The stack after closing every transaction above the topmost one of the given level, or above the
      main one if there is none. */
  function Closed(stack: seq<Entry>, level: int, keep: bool): (r: seq<Entry>)
    ensures stack == [] ==> r == []
    ensures |stack| > 0 ==> 0 < |r| <= |stack|
    decreases |stack|
  {
    if |stack| <= 1 || Top(stack).level == level then stack
    else Closed(if keep then WithTopView(Under(stack), Top(stack).view) else Under(stack), level, keep)
  }

  /** Index of the entry that closing to a level leaves on top. */
  function Survivor(stack: seq<Entry>, level: int): (k: nat)
    requires |stack| > 0
    ensures k < |stack|
    decreases |stack|
  {
    if |stack| == 1 || Top(stack).level == level then |stack| - 1 else Survivor(Under(stack), level)
  }

  lemma {:induction false} SurvivorIs(stack: seq<Entry>, level: int)
    requires |stack| > 0
    ensures var k := Survivor(stack, level);
            && (k == 0 || stack[k].level == level)
            && forall j :: k < j < |stack| ==> stack[j].level != level
  {
    if |stack| > 1 && Top(stack).level != level {
      SurvivorIs(Under(stack), level);
    }
  }

  lemma {:induction false} SurvivorOfChanged(a: seq<Entry>, b: seq<Entry>, level: int)
    requires |a| == |b| > 0 && forall j :: 0 <= j < |a| ==> a[j].level == b[j].level
    ensures Survivor(a, level) == Survivor(b, level)
  {
    if |a| > 1 && Top(a).level != level {
      SurvivorOfChanged(Under(a), Under(b), level);
    }
  }

  /** Closing keeps exactly the entries up to the survivor, which takes over the writes of the closed
      ones or not. */
  lemma {:induction false} ClosedExactly(stack: seq<Entry>, level: int, keep: bool)
    requires |stack| > 0
    ensures var k := Survivor(stack, level);
            Closed(stack, level, keep)
            == stack[..k] + [if keep then stack[k].(view := Top(stack).view) else stack[k]]
    decreases |stack|
  {
    var k := Survivor(stack, level);
    if |stack| <= 1 || Top(stack).level == level {
    } else if keep {
      var next := WithTopView(Under(stack), Top(stack).view);
      SurvivorOfChanged(Under(stack), next, level);
      ClosedExactly(next, level, keep);
    } else {
      ClosedExactly(Under(stack), level, keep);
      assert Under(stack)[..k] == stack[..k];
    }
  }

  /** Savepoints are numbered upwards from the main transaction. */
  ghost predicate Numbered(stack: seq<Entry>)
  {
    && |stack| > 0 && stack[0].level == -1
    && forall i, j :: 0 <= i < j < |stack| ==> stack[i].level < stack[j].level
  }

  /** Closing to a level closes exactly the savepoints numbered above it if and only if the level is on
      the stack or nothing but the main transaction is at or below it. */
  lemma ClosesAboveExactly(stack: seq<Entry>, level: int)
    requires Numbered(stack) && level >= 0
    ensures (forall j :: 1 <= j < |stack| ==> (j > Survivor(stack, level) <==> stack[j].level > level))
            <==> (exists j :: 0 <= j < |stack| && stack[j].level == level)
                 || (forall j :: 1 <= j < |stack| ==> stack[j].level > level)
  {
    SurvivorIs(stack, level);
    var k := Survivor(stack, level);
    if exists j :: 0 <= j < |stack| && stack[j].level == level {
      var j :| 0 <= j < |stack| && stack[j].level == level;
      assert j == k;
    } else {
      assert k == 0;
    }
  }

  /** With savepoints 1 and 3 open, closing to the level 2 closes both, and 1 is below it. */
  lemma ClosesTooMuchInput(v: View)
    ensures var stack := [Entry(-1, v), Entry(1, v), Entry(3, v)];
      Numbered(stack) && Survivor(stack, 2) == 0 && stack[1].level <= 2
      && Closed(stack, 2, false) == [Entry(-1, v)]
  {
    var stack := [Entry(-1, v), Entry(1, v), Entry(3, v)];
    SurvivorIs(stack, 2);
    ClosedExactly(stack, 2, false);
  }

  // ----- connections -----

  /** A connection. writable says whether its main LMDB transaction can write, and so holds the writer
      lock. */
  datatype Conn = Conn(transType: TransType, readonly: bool, stack: seq<Entry>, writable: bool,
                       inTrans: TxnState, cursors: seq<Cursor>)

  ghost predicate ValidConn(c: Conn)
  {
    && (c.inTrans == NoTxn <==> c.stack == [])
    && (c.stack != [] ==> Numbered(c.stack))
    && (c.stack == [] ==> !c.writable)
    && (c.inTrans == Reading ==> |c.stack| == 1)
    && (c.inTrans == Writing ==> c.writable)
    && (c.inTrans == Reading && c.transType == Serialise && !c.readonly ==> c.writable)
    && (c.readonly ==> !c.writable)
  }

  /** Whether beginning a transaction begins an LMDB write transaction. */
  predicate TakesWriter(c: Conn, wr: bool)
  {
    && (wr ==> !c.readonly)
    && if c.inTrans == NoTxn then (if c.transType == Serialise then !c.readonly else wr)
       else c.inTrans == Reading && wr && c.transType == Optimistic && !SaveFails(c.cursors)
  }

  /** Beginning a transaction, or upgrading one, when the store's latest state is the given one. */
  function Begun(c: Conn, wr: bool, latest: View): (Code, Conn)
  {
    if c.inTrans == Writing then (Ok, c)
    else if wr && c.readonly then (ReadOnly, c)
    else if c.inTrans == Reading then
      if !wr then (Ok, c)
      else if c.transType == NoUpgrade then (Busy, c)
      else if c.transType == Optimistic then
        var cursors := AllInvalidated(c.cursors, Ok, false);
        if SaveFails(c.cursors) then (Failed, c.(cursors := cursors))
        else if |c.stack| == 0 then (Internal, c)
        else
          var next := c.(cursors := cursors, stack := WithTopView(c.stack, latest), writable := true);
          if CounterRead(Top(c.stack).view) != CounterRead(latest) then (Busy, next)
          else (Ok, next.(inTrans := Writing))
      else (Ok, c.(inTrans := Writing))
    else
      (Ok, c.(stack := [Entry(-1, latest)], writable := TakesWriter(c, wr),
              inTrans := if wr then Writing else Reading))
  }

  /** A transaction begins on the latest version, and every later request in a write transaction is granted.
      Only the serialising type takes the writer lock to read. */
  lemma BeginByType(c: Conn, wr: bool, latest: View)
    requires ValidConn(c) && c.inTrans != Reading
    ensures c.inTrans == Writing ==> Begun(c, wr, latest) == (Ok, c)
    ensures c.inTrans == NoTxn && wr && c.readonly ==> Begun(c, wr, latest) == (ReadOnly, c)
    ensures c.inTrans == NoTxn && !(wr && c.readonly) ==>
              && Begun(c, wr, latest).0 == Ok && Begun(c, wr, latest).1.stack == [Entry(-1, latest)]
              && Begun(c, wr, latest).1.inTrans == (if wr then Writing else Reading)
              && (Begun(c, wr, latest).1.writable <==> wr || (c.transType == Serialise && !c.readonly))
              && Begun(c, wr, latest).1.cursors == c.cursors
  {
  }

  /** What becomes of a transaction that reads and is asked to write, by the type of the transaction. Only
      an optimistic one depends on what was committed; a refusal under the other types changes nothing. */
  lemma UpgradeByType(c: Conn, latest: View)
    requires ValidConn(c) && c.inTrans == Reading
    ensures c.readonly ==> Begun(c, true, latest) == (ReadOnly, c)
    ensures !c.readonly && c.transType == NoUpgrade ==> Begun(c, true, latest) == (Busy, c)
    ensures !c.readonly && c.transType == Serialise ==> Begun(c, true, latest) == (Ok, c.(inTrans := Writing))
    ensures !c.readonly && c.transType == Optimistic && !SaveFails(c.cursors) ==>
              && (Begun(c, true, latest).0 == Ok <==> CounterRead(c.stack[0].view) == CounterRead(latest))
              && Begun(c, true, latest).1.stack == [Entry(-1, latest)]
              && (Begun(c, true, latest).1.inTrans == if Begun(c, true, latest).0 == Ok then Writing else Reading)
  {
    hide CounterRead, SaveFails, AllInvalidated;
    if c.transType == Optimistic { assert WithTopView(c.stack, latest) == [Entry(-1, latest)]; }
  }

  function StatementBegun(c: Conn, level: int): Conn
    requires |c.stack| > 0
  {
    c.(stack := c.stack + [Entry(level, Top(c.stack).view)])
  }

  /** A nested transaction starts with what its parent sees. Whatever it then makes of that, closing it gives
      the parent either all of it or nothing. */
  lemma NestedAndClosed(c: Conn, level: int, v: View, keep: bool)
    requires |c.stack| > 0 && Top(c.stack).level != level
    ensures var nested := StatementBegun(c, level).stack;
            && Top(nested).view == Top(c.stack).view && |nested| == |c.stack| + 1
            && Closed(WithTopView(nested, v), Top(c.stack).level, keep)
               == if keep then WithTopView(c.stack, v) else c.stack
  {
    var nested := StatementBegun(c, level).stack;
    var written := WithTopView(nested, v);
    assert Under(written) == c.stack && Top(written) == Entry(level, v);
    var next := if keep then WithTopView(c.stack, v) else c.stack;
    assert Closed(written, Top(c.stack).level, keep) == Closed(next, Top(c.stack).level, keep);
    assert Top(next).level == Top(c.stack).level;
  }

  /** Closing savepoints; the first failure to save a cursor turns the rest into rollbacks. */
  function SavepointsClosed(c: Conn, level: int, commit: bool, trip: Code): (Code, Conn)
  {
    if |c.stack| == 0 || Survivor(c.stack, level) == |c.stack| - 1 then (Ok, c)
    else
      var failed := trip == Ok && SaveFails(c.cursors);
      (if failed then Failed else Ok,
       c.(stack := Closed(c.stack, level, commit && !failed), cursors := AllInvalidated(c.cursors, trip, false)))
  }

  function Ended(c: Conn, trip: Code, writeOnly: bool): Conn
  {
    c.(stack := [], writable := false, inTrans := NoTxn, cursors := AllInvalidated(c.cursors, trip, writeOnly))
  }

  /** The state a committing connection publishes. */
  function Published(c: Conn): View
    requires |c.stack| > 0
  {
    Stepped(Top(c.stack).view)
  }

  function Committed(c: Conn): Conn
  {
    if c.inTrans == NoTxn then c else Ended(c, Internal, false)
  }

  function RolledBack(c: Conn, trip: Code, writeOnly: bool): Conn
  {
    if c.inTrans == NoTxn then c
    else Ended(SavepointsClosed(c, -1, false, trip).1, trip, writeOnly)
  }

  /** After a transaction has ended no cursor is live, but for readers if only writers were to be tripped. */
  lemma EndsCursors(c: Conn, trip: Code, writeOnly: bool, i: nat)
    requires c.inTrans != NoTxn && i < |c.cursors|
    ensures |Committed(c).cursors| == |RolledBack(c, trip, writeOnly).cursors| == |c.cursors|
    ensures !Live(Committed(c).cursors[i]) && !Live(RolledBack(c, trip, false).cursors[i])
    ensures Live(RolledBack(c, trip, writeOnly).cursors[i]) ==>
              writeOnly && trip != Ok && Live(c.cursors[i]) && !c.cursors[i].wr
    ensures Committed(c).stack == RolledBack(c, trip, writeOnly).stack == []
    ensures Live(c.cursors[i]) ==> Committed(c).cursors[i] == c.cursors[i].(trip := Internal)
    ensures Live(c.cursors[i]) && trip != Ok ==>
              RolledBack(c, trip, writeOnly).cursors[i].trip
              == if Live(RolledBack(c, trip, writeOnly).cursors[i]) then Ok else trip
  {
    hide Closed, Survivor, SaveFails;
  }

  function SavepointDone(c: Conn, release: bool, level: int): (Code, Conn)
  {
    var (code, next) := SavepointsClosed(c, level, release, Ok);
    if code != Ok || level >= 0 then (code, next) else (Ok, Ended(next, Ok, false))
  }

  /** Rolling back to -1 ends the transaction, unless a savepoint above it holds a cursor that cannot be
      saved. */
  lemma RollbackAllEnds(c: Conn)
    requires ValidConn(c) && c.inTrans != NoTxn
    ensures SavepointDone(c, false, -1).1.inTrans == NoTxn <==> |c.stack| == 1 || !SaveFails(c.cursors)
    ensures SavepointDone(c, false, -1).1.inTrans != NoTxn ==> SavepointDone(c, false, -1).1.inTrans == c.inTrans
  {
    CommitCloses(c, false);
    hide Closed, Survivor, AllInvalidated, SaveFails;
  }

  /** A write transaction without savepoints is ended by rolling back to -1. */
  lemma RollbackAllEndsInput(v: View)
    ensures var c := Conn(Optimistic, false, [Entry(-1, v)], true, Writing, []);
      ValidConn(c) && SavepointDone(c, false, -1) == (Ok, Conn(Optimistic, false, [], false, NoTxn, []))
  {
    hide Closed;
    assert AllInvalidated([], Ok, false) == [];
  }

  /** Closing everything leaves the main transaction, with the work of the top one if it is kept. */
  lemma CommitCloses(c: Conn, keep: bool)
    requires |c.stack| > 0 && Numbered(c.stack)
    ensures Survivor(c.stack, -1) == 0
    ensures |Closed(c.stack, -1, keep)| == 1
    ensures keep ==> Top(Closed(c.stack, -1, keep)).view == Top(c.stack).view
    ensures !keep ==> Closed(c.stack, -1, keep) == [c.stack[0]]
  {
    SurvivorIs(c.stack, -1);
    ClosedExactly(c.stack, -1, keep);
  }

  lemma ClosedKeeps(stack: seq<Entry>, level: int, keep: bool, counter: nat)
    requires Numbered(stack) && forall j :: 0 <= j < |stack| ==> stack[j].view.counter == counter
    ensures Numbered(Closed(stack, level, keep)) && |Closed(stack, level, keep)| <= |stack|
    ensures forall j :: 0 <= j < |Closed(stack, level, keep)| ==> Closed(stack, level, keep)[j].view.counter == counter
  {
    ClosedExactly(stack, level, keep);
  }
}
