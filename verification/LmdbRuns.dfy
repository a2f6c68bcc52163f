/** Runs of any number of connections over one store: every step is one call of one connection. */
module LmdbRuns {
  import opened Common
  import opened LmdbModel

  /** What a transaction does, as it could be done again from another starting state. */
  datatype Op =
    | DidGet(key: int, found: Option<int>)
    | DidLook(look: Look, row: Option<int>)
    | DidPut(key: int, value: int)
    | DidDelete(key: int)
    | DidClear(rows: nat)
    | DidNest(level: int)
    | DidClose(level: int, keep: bool)

  /** A connection, the version its transaction works on, what it has done on this version, and what it had
      done before on versions on which an upgrade was refused. refused marks that the last answer was such
      a Busy. */
  datatype Client = Client(conn: Conn, base: nat, stale: seq<Op>, ops: seq<Op>, refused: bool)

  /** The committed states, the transactions that made them, and who holds the writer lock. */
  datatype World = World(history: seq<View>, log: seq<seq<Op>>, writer: Option<nat>, clients: seq<Client>)

  /** A call. LookFor is what moving a cursor finds; where the cursors then are is left to UseCursors. LetGo
      is the first half of asking for an upgrade again, which gives up the writer lock before it waits for
      it. */
  datatype Action =
    | Begin(wr: bool)
    | LetGo
    | Get(key: int)
    | LookFor(look: Look, found: Option<int>)
    | Put(key: int, value: int)
    | Delete(key: int)
    | Clear
    | Nest(level: int)
    | Savepoint(release: bool, level: int)
    | Commit
    | Rollback(trip: Code, writeOnly: bool)
    | UseCursors(cursors: seq<Cursor>)

  // ----- doing a transaction again, alone -----

  function Apply(stack: seq<Entry>, op: Op): Option<seq<Entry>>
    requires |stack| > 0
    ensures Apply(stack, op).Some? ==> |Apply(stack, op).value| > 0
  {
    match op
    case DidGet(key, found) => if Lookup(Top(stack).view, key) == found then Some(stack) else None
    case DidLook(look, row) => if Finds(Top(stack).view, look, row) then Some(stack) else None
    case DidPut(key, value) => Some(WithTopView(stack, RowPut(Top(stack).view, key, value)))
    case DidDelete(key) => Some(WithTopView(stack, RowDelete(Top(stack).view, key)))
    case DidClear(rows) =>
      if |Top(stack).view.data| == rows then Some(WithTopView(stack, Cleared(Top(stack).view))) else None
    case DidNest(level) => Some(stack + [Entry(level, Top(stack).view)])
    case DidClose(level, keep) => Some(Closed(stack, level, keep))
  }

  /** The stack after doing all of it, or None if some read would have found something else. */
  function Replay(stack: seq<Entry>, ops: seq<Op>): Option<seq<Entry>>
    requires |stack| > 0
    ensures Replay(stack, ops).Some? ==> |Replay(stack, ops).value| > 0
  {
    if |ops| == 0 then Some(stack)
    else
      var before := Replay(stack, Under(ops));
      if before == None then None else Apply(before.value, Top(ops))
  }

  function Main(v: View): seq<Entry>
  {
    [Entry(-1, v)]
  }

  /** Running the transaction alone from one state gives all its reads the same answers and commits the
      other state. */
  ghost predicate RunsAlone(from: View, ops: seq<Op>, to: View)
  {
    var end := Replay(Main(from), ops);
    end.Some? && to == Stepped(Top(end.value).view)
  }

  /** The commits are what running their transactions one after another makes. */
  ghost predicate SerialHistory(history: seq<View>, log: seq<seq<Op>>)
  {
    |history| == |log| + 1 && forall j :: 0 <= j < |log| ==> RunsAlone(history[j], log[j], history[j + 1])
  }

  // ----- steps -----

  ghost predicate Enabled(w: World, i: nat, a: Action)
  {
    && i < |w.clients| && |w.history| > 0
    && var c := w.clients[i].conn;
    match a
    case Begin(wr) => TakesWriter(c, wr) ==> w.writer == None || w.writer == Some(i)
    case LetGo => c.inTrans == Reading && c.transType == Optimistic && c.writable
    case Get(_) => c.inTrans != NoTxn && |c.stack| > 0
    case LookFor(look, found) => c.inTrans != NoTxn && |c.stack| > 0 && Finds(Top(c.stack).view, look, found)
    case Put(_, _) => c.inTrans == Writing && |c.stack| > 0
    case Delete(_) => c.inTrans == Writing && |c.stack| > 0
    case Clear => c.inTrans == Writing && |c.stack| > 0
    case Nest(level) => c.inTrans == Writing && |c.stack| > 0 && level > Top(c.stack).level
    case Savepoint(release, level) => level >= -1 && (level == -1 ==> !release && c.inTrans != NoTxn)
    case Commit => c.inTrans == Writing ==> |c.stack| > 0
    case Rollback(_, _) => true
    case UseCursors(_) => true
  }

  /** Busy from an upgrade is answered by rolling back. */
  ghost predicate Disciplined(w: World, i: nat, a: Action)
    requires i < |w.clients|
  {
    w.clients[i].refused ==> a.Rollback? || a.UseCursors?
  }

  function Left(w: World, i: nat): Option<nat>
  {
    if w.writer == Some(i) then None else w.writer
  }

  function Did(x: Client, conn: Conn, op: Op): Client
  {
    x.(conn := conn, ops := x.ops + [op])
  }

  function Do(w: World, i: nat, a: Action): World
    requires Enabled(w, i, a)
  {
    var x := w.clients[i];
    var c := x.conn;
    match a
    case Begin(wr) =>
      var (code, next) := Begun(c, wr, Top(w.history));
      w.(writer := if TakesWriter(c, wr) then Some(i) else w.writer,
         clients := w.clients[i := if c.inTrans == NoTxn && next.inTrans != NoTxn
                                   then Client(next, |w.history| - 1, [], [], false)
                                   else if code == Busy && c.transType == Optimistic
                                   then Client(next, |w.history| - 1, x.stale + x.ops, [], true)
                                   else x.(conn := next, refused := false)])
    case Get(key) =>
      w.(clients := w.clients[i := Did(x, c, DidGet(key, Lookup(Top(c.stack).view, key)))])
    case LetGo =>
      w.(writer := Left(w, i), clients := w.clients[i := x.(conn := c.(writable := false))])
    case LookFor(look, found) =>
      w.(clients := w.clients[i := Did(x, c, DidLook(look, found))])
    case Delete(key) =>
      var next := c.(stack := WithTopView(c.stack, RowDelete(Top(c.stack).view, key)));
      w.(clients := w.clients[i := Did(x, next, DidDelete(key))])
    case Clear =>
      var next := c.(stack := WithTopView(c.stack, Cleared(Top(c.stack).view)));
      w.(clients := w.clients[i := Did(x, next, DidClear(|Top(c.stack).view.data|))])
    case Put(key, value) =>
      var next := c.(stack := WithTopView(c.stack, RowPut(Top(c.stack).view, key, value)));
      w.(clients := w.clients[i := Did(x, next, DidPut(key, value))])
    case Nest(level) =>
      w.(clients := w.clients[i := Did(x, StatementBegun(c, level), DidNest(level))])
    case Savepoint(release, level) =>
      var next := SavepointDone(c, release, level).1;
      w.(writer := if next.inTrans == NoTxn then Left(w, i) else w.writer,
         clients := w.clients[i := if next.inTrans == NoTxn then x.(conn := next, refused := false)
                                   else Did(x, next, DidClose(level, release && !SaveFails(c.cursors)))])
    case Commit =>
      if c.inTrans == Writing then
        w.(history := w.history + [Published(c)], log := w.log + [x.stale + x.ops], writer := Left(w, i),
           clients := w.clients[i := x.(conn := Committed(c), refused := false)])
      else
        w.(writer := Left(w, i), clients := w.clients[i := x.(conn := Committed(c), refused := false)])
    case Rollback(trip, writeOnly) =>
      w.(writer := Left(w, i),
         clients := w.clients[i := x.(conn := RolledBack(c, trip, writeOnly), refused := false)])
    case UseCursors(cursors) =>
      w.(clients := w.clients[i := x.(conn := c.(cursors := cursors))])
  }

  // ----- what every step keeps -----

  /** What can be done in a transaction that only reads. */
  predicate Reads(op: Op)
  {
    op.DidGet? || op.DidLook? || op.DidClose?
  }

  predicate OnlyReads(ops: seq<Op>)
  {
    forall k :: 0 <= k < |ops| ==> Reads(ops[k])
  }

  ghost predicate ClientOk(w: World, i: nat)
    requires i < |w.clients|
  {
    var x := w.clients[i];
    var c := x.conn;
    && ValidConn(c) && (c.writable <==> w.writer == Some(i))
    && (x.refused ==> c.inTrans == Reading && c.transType == Optimistic)
    && (c.inTrans != NoTxn ==>
          && x.base < |w.history| && OnlyReads(x.stale)
          && Replay(Main(w.history[x.base]), x.ops) == Some(c.stack)
          && (c.inTrans == Reading ==> c.stack == Main(w.history[x.base]) && OnlyReads(x.ops))
          && (c.writable ==> x.base == |w.history| - 1))
  }

  ghost predicate Inv(w: World)
  {
    && Chained(w.history) && |w.history| == |w.log| + 1
    && forall i :: 0 <= i < |w.clients| ==> ClientOk(w, i)
  }

  /** Fewer than 2^32 commits fall between any transaction and the version it works on. */
  ghost predicate Within(w: World)
  {
    forall i :: 0 <= i < |w.clients| ==>
      w.clients[i].conn.inTrans != NoTxn ==> |w.history| - 1 - w.clients[i].base < WORD32
  }

  /** A step of connection i leaves the others as they are: the history only grows, and only while i has
      the writer lock. */
  lemma OthersOk(w: World, w': World, i: nat, j: nat)
    requires i < |w.clients| == |w'.clients| && j < |w.clients| && j != i
    requires w'.clients[j] == w.clients[j] && ClientOk(w, j)
    requires w.history <= w'.history
    requires w'.history != w.history ==> w.writer == Some(i)
    requires w'.writer == w.writer || (w.writer != Some(j) && w'.writer != Some(j))
    ensures ClientOk(w', j)
  {
    hide Replay;
  }

  lemma ReplayStep(stack: seq<Entry>, ops: seq<Op>, op: Op)
    requires |stack| > 0 && Replay(stack, ops).Some?
    ensures Replay(stack, ops + [op]) == Apply(Replay(stack, ops).value, op)
  {
    hide Apply;
    assert Under(ops + [op]) == ops;
  }

  lemma {:induction false} BeginKeeps(w: World, i: nat, wr: bool)
    requires Inv(w) && Within(w) && Enabled(w, i, Begin(wr))
    ensures ClientOk(Do(w, i, Begin(wr)), i)
  {
    hide SerialHistory, Chained, AllInvalidated, SaveFails, Apply, OnlyReads;
    var x := w.clients[i];
    var c := x.conn;
    var latest := Top(w.history);
    assert ClientOk(w, i);
    if c.inTrans == NoTxn {
      assert Replay(Main(latest), []) == Some(Main(latest)) && OnlyReads([]) by { NoReads(); }
    } else if c.inTrans == Reading && TakesWriter(c, wr) {
      hide Replay;
      UpgradeKeeps(w, i, wr);
    } else {
      hide Replay;
    }
  }

  lemma NoReads()
    ensures OnlyReads([])
  {
  }

  lemma MoreReads(a: seq<Op>, b: seq<Op>)
    requires OnlyReads(a) && OnlyReads(b)
    ensures OnlyReads(a + b)
  {
  }

  /** An upgrade, refused or not, leaves the client on the latest version. */
  lemma {:induction false} UpgradeKeeps(w: World, i: nat, wr: bool)
    requires Inv(w) && Within(w) && Enabled(w, i, Begin(wr))
    requires w.clients[i].conn.inTrans == Reading && TakesWriter(w.clients[i].conn, wr)
    ensures ClientOk(Do(w, i, Begin(wr)), i)
  {
    hide SerialHistory, CounterRead, Apply, AllInvalidated, SaveFails, OnlyReads;
    var x := w.clients[i];
    var latest := Top(w.history);
    assert ClientOk(w, i);
    CountersAgree(w.history, x.base, |w.history| - 1);
    hide Chained;
    MoreReads(x.stale, x.ops);
    NoReads();
    assert Replay(Main(latest), []) == Some(Main(latest));
    hide Replay;
    assert WithTopView(x.conn.stack, latest) == Main(latest);
  }

  lemma CallKeeps(w: World, i: nat, a: Action)
    requires Inv(w) && Enabled(w, i, a)
    requires a.Get? || a.LookFor? || a.Put? || a.Delete? || a.Clear? || a.Nest?
    ensures ClientOk(Do(w, i, a), i)
  {
    hide SerialHistory, Chained, Replay, Finds, Lookup, RowPut, RowDelete, Cleared;
    var x := w.clients[i];
    assert ClientOk(w, i);
    ReplayStep(Main(w.history[x.base]), x.ops, Top(Do(w, i, a).clients[i].ops));
  }

  lemma SavepointKeeps(w: World, i: nat, release: bool, level: int)
    requires Inv(w) && Enabled(w, i, Savepoint(release, level))
    ensures ClientOk(Do(w, i, Savepoint(release, level)), i)
  {
    hide SerialHistory, Chained, Replay, Closed, Survivor, Numbered;
    var x := w.clients[i];
    var c := x.conn;
    assert ClientOk(w, i);
    var keep := release && !SaveFails(c.cursors);
    if c.inTrans != NoTxn {
      SavepointStack(c, release, level);
      ReplayStep(Main(w.history[x.base]), x.ops, DidClose(level, keep));
    }
  }

  lemma SavepointStack(c: Conn, release: bool, level: int)
    requires ValidConn(c) && c.stack != []
    ensures SavepointsClosed(c, level, release, Ok).1.stack == Closed(c.stack, level, release && !SaveFails(c.cursors))
    ensures ValidConn(SavepointsClosed(c, level, release, Ok).1)
    ensures |c.stack| == 1 ==> SavepointsClosed(c, level, release, Ok).1.stack == c.stack
    ensures SavepointsClosed(c, level, release, Ok).1.stack != []
  {
    ClosedExactly(c.stack, level, release && !SaveFails(c.cursors));
    SurvivorIs(c.stack, level);
    hide Closed, Survivor;
  }

  lemma EndKeeps(w: World, i: nat, a: Action)
    requires Inv(w) && Enabled(w, i, a) && (a.Commit? || a.Rollback?)
    ensures ClientOk(Do(w, i, a), i)
  {
    hide SerialHistory, Chained, Replay, SavepointsClosed, Numbered;
    assert ClientOk(w, i);
  }

  /** Doing two lists one after the other. */
  lemma {:induction false} ReplayAppend(stack: seq<Entry>, a: seq<Op>, b: seq<Op>)
    requires |stack| > 0
    ensures Replay(stack, a + b) == match Replay(stack, a) case None => None case Some(mid) => Replay(mid, b)
    decreases |b|
  {
    hide Apply;
    if |b| > 0 {
      assert Under(a + b) == a + Under(b) && Top(a + b) == Top(b);
      ReplayAppend(stack, a, Under(b));
    } else {
      assert a + b == a;
    }
  }

  /** What was read, looked for or counted is found the same again. */
  predicate SameFound(op: Op, v: View)
  {
    && (op.DidGet? ==> Lookup(v, op.key) == op.found)
    && (op.DidLook? ==> Finds(v, op.look, op.row))
  }

  predicate FoundAgain(ops: seq<Op>, v: View)
  {
    forall k :: 0 <= k < |ops| ==> SameFound(ops[k], v)
  }

  /** Reading does nothing, and can be done again where everything is as it was found. */
  lemma {:induction false} ReadsAgain(v: View, ops: seq<Op>)
    requires OnlyReads(ops)
    ensures Replay(Main(v), ops) == if FoundAgain(ops, v) then Some(Main(v)) else None
    decreases |ops|
  {
    if |ops| > 0 {
      var before, last := Under(ops), Top(ops);
      assert ops == before + [last] && Reads(last);
      ReadsAgain(v, before);
      assert ops[|ops| - 1] == last && forall k :: 0 <= k < |before| ==> ops[k] == before[k];
      assert FoundAgain(ops, v) <==> FoundAgain(before, v) && SameFound(last, v) by { hide SameFound; }
    }
  }

  /** A transaction that asked again runs alone from the version it was refused on, exactly if all it had
      read before is unchanged there. */
  lemma RunsAloneExactly(v: View, stale: seq<Op>, ops: seq<Op>)
    requires OnlyReads(stale) && Replay(Main(v), ops).Some?
    ensures RunsAlone(v, stale + ops, Stepped(Top(Replay(Main(v), ops).value).view)) <==> FoundAgain(stale, v)
  {
    hide OnlyReads, FoundAgain, Stepped;
    ReplayAppend(Main(v), stale, ops);
    ReadsAgain(v, stale);
  }

  /** A commit keeps the counters chained, and the history serial exactly if what the transaction had read
      before a refusal is unchanged in the version it was refused on. */
  lemma CommitSerialExactly(w: World, i: nat)
    requires Inv(w) && Enabled(w, i, Commit) && w.clients[i].conn.inTrans == Writing
    ensures Chained(Do(w, i, Commit).history)
    ensures SerialHistory(Do(w, i, Commit).history, Do(w, i, Commit).log)
            <==> SerialHistory(w.history, w.log) && FoundAgain(w.clients[i].stale, Top(w.history))
  {
    hide Replay, FoundAgain, OnlyReads;
    var x := w.clients[i];
    var w' := Do(w, i, Commit);
    assert ClientOk(w, i);
    var n := |w.log|;
    OwnCounter(w.history[n], x.ops);
    RunsAloneExactly(w.history[n], x.stale, x.ops);
    hide RunsAlone, Stepped, Committed;
    LastRuns(w.history, w.log, w'.history[n + 1], x.stale + x.ops);
  }

  /** A history with one more commit is serial exactly if it was, and the last transaction runs alone. */
  lemma LastRuns(history: seq<View>, log: seq<seq<Op>>, v: View, ops: seq<Op>)
    requires |history| == |log| + 1
    ensures SerialHistory(history + [v], log + [ops]) <==> SerialHistory(history, log) && RunsAlone(Top(history), ops, v)
  {
    hide RunsAlone;
    var h, l := history + [v], log + [ops];
    if SerialHistory(h, l) {
      assert RunsAlone(h[|log|], l[|log|], h[|log| + 1]);
      forall j | 0 <= j < |log|
        ensures RunsAlone(history[j], log[j], history[j + 1])
      {
        assert RunsAlone(h[j], l[j], h[j + 1]);
      }
    }
    if SerialHistory(history, log) && RunsAlone(Top(history), ops, v) {
      forall j | 0 <= j < |l|
        ensures RunsAlone(h[j], l[j], h[j + 1])
      {
        if j < |log| { assert RunsAlone(history[j], log[j], history[j + 1]); }
      }
    }
  }

  /** A transaction never changes the counter it started with. */
  lemma {:induction false} OwnCounter(v: View, ops: seq<Op>)
    requires Replay(Main(v), ops).Some?
    ensures forall j :: 0 <= j < |Replay(Main(v), ops).value| ==> Replay(Main(v), ops).value[j].view.counter == v.counter
  {
    if |ops| > 0 {
      OwnCounter(v, Under(ops));
      var before := Replay(Main(v), Under(ops)).value;
      match Top(ops)
      case DidGet(_, _) =>
      case DidLook(_, _) =>
      case DidPut(_, _) =>
      case DidDelete(_) =>
      case DidClear(_) =>
      case DidNest(_) =>
      case DidClose(level, keep) =>
        ClosedExactly(before, level, keep);
        hide Closed;
    }
  }

  /** Every step keeps the invariant. */
  lemma StepKeeps(w: World, i: nat, a: Action)
    requires Inv(w) && Within(w) && Enabled(w, i, a)
    ensures Inv(Do(w, i, a))
  {
    var w' := Do(w, i, a);
    assert ClientOk(w, i);
    match a {
      case Begin(wr) => BeginKeeps(w, i, wr);
      case Savepoint(release, level) => SavepointKeeps(w, i, release, level);
      case Commit => EndKeeps(w, i, a); if w.clients[i].conn.inTrans == Writing { CommitSerialExactly(w, i); }
      case Rollback(_, _) => EndKeeps(w, i, a);
      case LetGo => assert ClientOk(w', i) by { hide Replay, OnlyReads; }
      case UseCursors(_) => assert ClientOk(w', i) by { hide Replay, OnlyReads; }
      case _ => CallKeeps(w, i, a);
    }
    hide Replay, SerialHistory, Chained, Begun, SavepointDone, RolledBack, Committed, Published, OnlyReads;
    forall j | 0 <= j < |w'.clients|
      ensures ClientOk(w', j)
    {
      if j != i { OthersOk(w, w', i, j); }
    }
  }

  // ----- runs -----

  datatype Step = Step(client: nat, action: Action)

  /** A run: each world comes from the one before by one call. */
  ghost predicate IsRun(worlds: seq<World>, steps: seq<Step>)
  {
    && |worlds| == |steps| + 1
    && forall k :: 0 <= k < |steps| ==> IsStep(worlds[k], steps[k], worlds[k + 1])
  }

  ghost predicate IsStep(w: World, s: Step, w': World)
  {
    Enabled(w, s.client, s.action) && w' == Do(w, s.client, s.action)
  }

  ghost predicate Fresh(w: World)
  {
    && |w.history| == 1 && w.log == [] && w.writer == None
    && forall i :: 0 <= i < |w.clients| ==>
         && w.clients[i].conn.stack == [] && w.clients[i].conn.inTrans == NoTxn && !w.clients[i].conn.writable
         && !w.clients[i].refused
  }

  /** A step that publishes a transaction. */
  ghost predicate Publishes(w: World, s: Step)
  {
    s.client < |w.clients| && s.action.Commit? && w.clients[s.client].conn.inTrans == Writing
  }

  /** If the step publishes a transaction, all this had read before an upgrade was refused is unchanged in
      the version it was refused on. */
  ghost predicate ReadsStand(w: World, s: Step)
  {
    Publishes(w, s) ==> |w.history| > 0 && FoundAgain(w.clients[s.client].stale, Top(w.history))
  }

  /** In every run where fewer than 2^32 commits fall between a transaction and its version, whatever is
      done after a refused upgrade, the commits form a serial history exactly if each transaction's reads
      from before a refusal stood when it committed. */
  lemma {:induction false} RunsAreSerialExactly(worlds: seq<World>, steps: seq<Step>)
    requires IsRun(worlds, steps) && Fresh(worlds[0])
    requires forall k :: 0 <= k < |worlds| ==> Within(worlds[k])
    ensures Inv(Top(worlds))
    ensures SerialHistory(Top(worlds).history, Top(worlds).log)
            <==> forall k :: 0 <= k < |steps| ==> ReadsStand(worlds[k], steps[k])
    decreases |steps|
  {
    hide Replay, Do, Enabled, ClientOk, Within, ReadsStand, SerialHistory, Inv;
    if |steps| > 0 {
      var n := |steps| - 1;
      assert IsStep(worlds[n], steps[n], worlds[n + 1]);
      RunsAreSerialExactly(worlds[..n + 1], steps[..n]);
      assert forall k :: 0 <= k < n ==> worlds[..n + 1][k] == worlds[k] && steps[..n][k] == steps[k];
      StepKeeps(worlds[n], steps[n].client, steps[n].action);
      StepSerialExactly(worlds[n], steps[n]);
    } else {
      FreshOk(worlds[0]);
    }
  }

  lemma StepSerialExactly(w: World, s: Step)
    requires Inv(w) && Enabled(w, s.client, s.action)
    ensures var w' := Do(w, s.client, s.action);
            SerialHistory(w'.history, w'.log) <==> SerialHistory(w.history, w.log) && ReadsStand(w, s)
  {
    hide SerialHistory, FoundAgain, Begun, SavepointDone, RolledBack, Committed, Published, ClientOk;
    if Publishes(w, s) { CommitSerialExactly(w, s.client); }
  }

  // ----- runs in which Busy is answered by rollback -----

  ghost predicate Rollbacks(worlds: seq<World>, steps: seq<Step>)
  {
    && |worlds| == |steps| + 1
    && forall k :: 0 <= k < |steps| && steps[k].client < |worlds[k].clients| ==>
         Disciplined(worlds[k], steps[k].client, steps[k].action)
  }

  /** Nothing is left over from before a refusal, but in a transaction that is about to be rolled back. */
  ghost predicate NothingStale(w: World)
  {
    forall i :: 0 <= i < |w.clients| && w.clients[i].conn.inTrans != NoTxn && !w.clients[i].refused ==>
      w.clients[i].stale == []
  }

  lemma StepLeavesNothing(w: World, i: nat, a: Action)
    requires NothingStale(w) && Enabled(w, i, a) && Disciplined(w, i, a)
    ensures NothingStale(Do(w, i, a))
  {
    hide Begun, SavepointDone, Published, WithTopView, RowPut, SaveFails, StatementBegun;
    if a.Begin? { BegunFromNone(w.clients[i].conn, a.wr, Top(w.history)); }
    if a.Savepoint? { DoneInside(w.clients[i].conn, a.release, a.level); }
  }

  lemma BegunFromNone(c: Conn, wr: bool, latest: View)
    ensures c.inTrans != NoTxn ==> Begun(c, wr, latest).1.inTrans != NoTxn
    ensures c.inTrans == NoTxn && Begun(c, wr, latest).1.inTrans == NoTxn ==> Begun(c, wr, latest).1 == c
    ensures c.inTrans == NoTxn ==> Begun(c, wr, latest).0 != Busy
  {
  }

  lemma DoneInside(c: Conn, release: bool, level: int)
    ensures SavepointDone(c, release, level).1.inTrans != NoTxn ==> c.inTrans != NoTxn
  {
    hide Closed, Survivor, AllInvalidated, SaveFails;
  }

  lemma {:induction false} NothingStaleAt(worlds: seq<World>, steps: seq<Step>, n: nat)
    requires IsRun(worlds, steps) && Fresh(worlds[0]) && Rollbacks(worlds, steps) && n <= |steps|
    ensures NothingStale(worlds[n])
  {
    hide Do, Disciplined, NothingStale;
    if n > 0 {
      NothingStaleAt(worlds, steps, n - 1);
      assert IsStep(worlds[n - 1], steps[n - 1], worlds[n]);
      StepLeavesNothing(worlds[n - 1], steps[n - 1].client, steps[n - 1].action);
    } else {
      NoneStarted(worlds[0]);
    }
  }

  lemma NoneStarted(w: World)
    requires Fresh(w)
    ensures NothingStale(w)
  {
  }

  /** In every run where Busy from an upgrade is answered by rollback and fewer than 2^32 commits fall
      inside a transaction, the commits form a serial history. */
  lemma RunsAreSerial(worlds: seq<World>, steps: seq<Step>)
    requires IsRun(worlds, steps) && Fresh(worlds[0]) && Rollbacks(worlds, steps)
    requires forall k :: 0 <= k < |worlds| ==> Within(worlds[k])
    ensures SerialHistory(Top(worlds).history, Top(worlds).log)
  {
    RunsAreSerialExactly(worlds, steps);
    forall k | 0 <= k < |steps|
      ensures ReadsStand(worlds[k], steps[k])
    {
      assert IsStep(worlds[k], steps[k], worlds[k + 1]);
      NothingStaleAt(worlds, steps, k);
      assert steps[k].client < |worlds[k].clients|;
      NothingToStand(worlds[k], steps[k]);
    }
  }

  lemma NothingToStand(w: World, s: Step)
    requires NothingStale(w) && Enabled(w, s.client, s.action) && Disciplined(w, s.client, s.action)
    ensures ReadsStand(w, s)
  {
  }

  lemma FreshOk(w: World)
    requires Fresh(w)
    ensures Inv(w) && SerialHistory(w.history, w.log)
  {
  }

  /** An optimistic upgrade is accepted exactly when a multiple of 2^32 commits has been made since the
      version the transaction works on; then, unless the counter has gone all the way round, nothing was
      committed at all. */
  lemma UpgradeAccepted(w: World, i: nat)
    requires Inv(w) && i < |w.clients| && Enabled(w, i, Begin(true))
    requires var x := w.clients[i]; x.conn.inTrans == Reading && TakesWriter(x.conn, true)
    ensures var x := w.clients[i];
            var commits := |w.history| - 1 - x.base;
            && commits >= 0
            && (Begun(x.conn, true, Top(w.history)).0 == Ok <==> commits % WORD32 == 0)
            && (Begun(x.conn, true, Top(w.history)).0 != Ok ==> Begun(x.conn, true, Top(w.history)).0 == Busy)
            && (Begun(x.conn, true, Top(w.history)).0 == Ok && commits < WORD32 ==> x.base == |w.history| - 1)
  {
    hide Replay, SerialHistory, CounterRead;
    var x := w.clients[i];
    assert ClientOk(w, i);
    CountersAgree(w.history, x.base, |w.history| - 1);
  }

  /** The row a cursor is on, or was on when it was saved. */
  predicate OnRow(c: Cursor, row: int)
  {
    c.trip == Ok && if c.open then c.row == Some(row) && c.saved == None else c.saved == Some(row)
  }

  /** An accepted upgrade keeps cursors where they were: a cursor on a row of the snapshot, saved by this
      upgrade or by one before and restored in the write transaction, is on the same row. */
  lemma UpgradeKeepsCursors(w: World, i: nat, j: nat, row: int)
    requires Inv(w) && Within(w) && i < |w.clients| && Enabled(w, i, Begin(true))
    requires w.clients[i].conn.inTrans == Reading && TakesWriter(w.clients[i].conn, true)
    requires Begun(w.clients[i].conn, true, Top(w.history)).0 == Ok
    requires j < |w.clients[i].conn.cursors| && OnRow(w.clients[i].conn.cursors[j], row)
    requires Lookup(Top(w.clients[i].conn.stack).view, row).Some?
    ensures var next := Begun(w.clients[i].conn, true, Top(w.history)).1;
            && next.inTrans == Writing && |next.stack| > 0
            && Top(next.stack).view == Top(w.clients[i].conn.stack).view
            && Restored(next.cursors[j], Top(next.stack).view, true)
               == (Ok, w.clients[i].conn.cursors[j].(open := true, row := Some(row), saved := None))
  {
    UpgradeAccepted(w, i);
    assert ClientOk(w, i);
    hide Replay, SerialHistory, CounterRead, Chained;
  }

  // ----- the counter gone all the way round -----

  function WriteOp(): Op
  {
    DidPut(1, 11)
  }

  /** The versions that n transactions make which write 11 into row 1, 10 at first. */
  function Versions(n: nat): (h: seq<View>)
    ensures |h| == n + 1
  {
    if n == 0 then [View(map[1 := 10], 0)]
    else
      var before := Versions(n - 1);
      before + [Stepped(RowPut(Top(before), 1, 11))]
  }

  function Writers(n: nat): (log: seq<seq<Op>>)
    ensures |log| == n
  {
    if n == 0 then [] else Writers(n - 1) + [[WriteOp()]]
  }

  lemma {:induction false} VersionsAreSerial(n: nat)
    ensures Chained(Versions(n)) && SerialHistory(Versions(n), Writers(n))
    ensures Versions(n)[0] == View(map[1 := 10], 0) && (n > 0 ==> Lookup(Top(Versions(n)), 1) == Some(11))
  {
    if n > 0 {
      VersionsAreSerial(n - 1);
      var before, v := Versions(n - 1), Stepped(RowPut(Top(Versions(n - 1)), 1, 11));
      assert Under([WriteOp()]) == [] && Replay(Main(Top(before)), []) == Some(Main(Top(before)));
      hide Versions, Writers, CounterRead;
      assert RunsAlone(Top(before), [WriteOp()], v);
      LastRuns(before, Writers(n - 1), v, [WriteOp()]);
      assert Versions(n) == before + [v] && Writers(n) == Writers(n - 1) + [[WriteOp()]] by { MoreVersions(n); }
    }
  }

  lemma MoreVersions(n: nat)
    requires n > 0
    ensures Versions(n) == Versions(n - 1) + [Stepped(RowPut(Top(Versions(n - 1)), 1, 11))]
    ensures Writers(n) == Writers(n - 1) + [[WriteOp()]]
  {
    hide RowPut, Stepped;
  }

  /** A reader of the first version, which found 10, after n writers. */
  function Waited(n: nat): World
  {
    var v := View(map[1 := 10], 0);
    World(Versions(n), Writers(n), None,
          [Client(Conn(Optimistic, false, Main(v), false, Reading, []), 0, [], [DidGet(1, Some(10))], false)])
  }

  /** After any multiple of 2^32 commits the reader's upgrade is accepted, and the addition it commits
      makes an update lost. */
  lemma CounterGoneRound(n: nat)
    requires n > 0 && n % WORD32 == 0
    ensures var w := Waited(n);
      && Inv(w) && SerialHistory(w.history, w.log)
      && Enabled(w, 0, Begin(true)) && Begun(w.clients[0].conn, true, Top(w.history)).0 == Ok
      && var begun := Do(w, 0, Begin(true));
      Enabled(begun, 0, Put(1, 11))
      && var written := Do(begun, 0, Put(1, 11));
      Enabled(written, 0, Commit)
      && var done := Do(written, 0, Commit);
      !SerialHistory(done.history, done.log)
  {
    VersionsAreSerial(n);
    hide Versions, Writers;
    var w := Waited(n);
    WaitedOk(n);
    UpgradeAccepted(w, 0);
    hide SerialHistory, Inv;
    var begun := Do(w, 0, Begin(true));
    var written := Do(begun, 0, Put(1, 11));
    assert begun.history == w.history && begun.log == w.log;
    assert written.history == w.history && written.log == w.log;
    var ops := written.clients[0].stale + written.clients[0].ops;
    assert ops == [DidGet(1, Some(10)), DidPut(1, 11)];
    AdditionStartsAtTen(Top(w.history), Published(written.clients[0].conn));
    LastRuns(w.history, w.log, Published(written.clients[0].conn), ops);
  }

  lemma WaitedOk(n: nat)
    requires Chained(Versions(n)) && Versions(n)[0] == View(map[1 := 10], 0)
    ensures Inv(Waited(n))
  {
    hide Versions, Writers, Chained;
    var v := View(map[1 := 10], 0);
    var ops := [DidGet(1, Some(10))];
    assert Under(ops) == [] && Replay(Main(v), []) == Some(Main(v));
    assert ClientOk(Waited(n), 0);
  }

  lemma AdditionStartsAtTen(v: View, to: View)
    requires Lookup(v, 1) != Some(10)
    ensures !RunsAlone(v, [DidGet(1, Some(10)), DidPut(1, 11)], to)
  {
    var ops := [DidGet(1, Some(10)), DidPut(1, 11)];
    assert Under(ops) == [DidGet(1, Some(10))] && Under(Under(ops)) == [];
    assert Replay(Main(v), []) == Some(Main(v));
    assert Replay(Main(v), Under(ops)) == Apply(Main(v), DidGet(1, Some(10)));
  }

  // ----- asking again after Busy -----

  /** Two transactions that do the same on a version: one read, and a write. */
  datatype Twice = Twice(rows: map<int, int>, read: Action, did: Op, key: int, value: int)

  function FirstView(t: Twice): View
  {
    View(t.rows, 0)
  }

  predicate ReadsFirst(t: Twice)
  {
    match t.read
    case Get(key) => t.did == DidGet(key, Lookup(FirstView(t), key))
    case LookFor(look, found) => t.did == DidLook(look, found) && Finds(FirstView(t), look, found)
    case _ => false
  }

  function Transaction(t: Twice): seq<Op>
  {
    [t.did, DidPut(t.key, t.value)]
  }

  /** Two connections read; the second writes and commits; the first is told Busy, asks again, is let
      through, writes on what it read before and commits. */
  function Asking(t: Twice): seq<Step>
  {
    [Step(0, Begin(false)), Step(0, t.read), Step(1, Begin(true)), Step(1, t.read), Step(1, Put(t.key, t.value)),
     Step(1, Commit), Step(0, Begin(true)), Step(0, Begin(true)), Step(0, Put(t.key, t.value)), Step(0, Commit)]
  }

  function Asker(v: View, base: nat, writable: bool, inTrans: TxnState, stale: seq<Op>, ops: seq<Op>, refused: bool)
    : Client
  {
    Client(Conn(Optimistic, false, if inTrans == NoTxn then [] else Main(v), writable, inTrans, []), base, stale, ops,
           refused)
  }

  /** The world after k of those calls. */
  function Asked(t: Twice, k: nat): World
    requires k <= 10
  {
    var v0 := FirstView(t);
    var m0 := RowPut(v0, t.key, t.value);
    var v1 := Stepped(m0);
    var m1 := RowPut(v1, t.key, t.value);
    var v2 := Stepped(m1);
    var got, put, all := [t.did], [DidPut(t.key, t.value)], Transaction(t);
    var idle := Asker(v0, 0, false, NoTxn, [], [], false);
    var reading, done := Asker(v0, 0, false, Reading, [], got, false), Asker(v0, 0, false, NoTxn, [], all, false);
    match k
    case 0 => World([v0], [], None, [idle, idle])
    case 1 => World([v0], [], None, [Asker(v0, 0, false, Reading, [], [], false), idle])
    case 2 => World([v0], [], None, [reading, idle])
    case 3 => World([v0], [], Some(1), [reading, Asker(v0, 0, true, Writing, [], [], false)])
    case 4 => World([v0], [], Some(1), [reading, Asker(v0, 0, true, Writing, [], got, false)])
    case 5 => World([v0], [], Some(1), [reading, Asker(m0, 0, true, Writing, [], all, false)])
    case 6 => World([v0, v1], [all], None, [reading, done])
    case 7 => World([v0, v1], [all], Some(0), [Asker(v1, 1, true, Reading, got, [], true), done])
    case 8 => World([v0, v1], [all], Some(0), [Asker(v1, 1, true, Writing, got, [], false), done])
    case 9 => World([v0, v1], [all], Some(0), [Asker(m1, 1, true, Writing, got, put, false), done])
    case _ => World([v0, v1, v2], [all, all], None, [Asker(v1, 1, false, NoTxn, got, put, false), done])
  }

  /** The k-th of those calls can be made and leads from one of those worlds to the next. */
  ghost predicate Leads(t: Twice, k: nat)
    requires k < 10
  {
    IsStep(Asked(t, k), Asking(t)[k], Asked(t, k + 1))
  }

  /** Equalities of short sequences, and the counters of the versions. */
  lemma Short(t: Twice, v: View, u: View)
    ensures AllInvalidated([], Ok, false) == [] && AllInvalidated([], Internal, false) == []
    ensures WithTopView(Main(v), u) == Main(u) && Top(Main(v)).view == v && Under(Main(v)) == []
    ensures [] + [t.did] == [t.did] && [] + [DidPut(t.key, t.value)] == [DidPut(t.key, t.value)]
    ensures [t.did] + [DidPut(t.key, t.value)] == Transaction(t) && [] + Transaction(t) == Transaction(t)
    ensures CounterRead(FirstView(t)) == 0 && CounterRead(Stepped(RowPut(FirstView(t), t.key, t.value))) == 1
  {
  }

  lemma Leads01(t: Twice)
    requires ReadsFirst(t)
    ensures Leads(t, 0) && Leads(t, 1)
  {
    hide Replay, Fresh, CounterRead, Stepped, RowPut, Finds, Lookup, AllInvalidated, WithTopView;
    Short(t, FirstView(t), FirstView(t));
    assert Asking(t)[0] == Step(0, Begin(false)) && Asking(t)[1] == Step(0, t.read);
    assert Do(Asked(t, 0), 0, Begin(false)).clients == Asked(t, 1).clients;
    assert Do(Asked(t, 1), 0, t.read).clients == Asked(t, 2).clients;
  }

  lemma Leads23(t: Twice)
    requires ReadsFirst(t)
    ensures Leads(t, 2) && Leads(t, 3)
  {
    hide Replay, Fresh, CounterRead, Stepped, RowPut, Finds, Lookup, AllInvalidated, WithTopView;
    Short(t, FirstView(t), FirstView(t));
    assert Asking(t)[2] == Step(1, Begin(true)) && Asking(t)[3] == Step(1, t.read);
    assert Do(Asked(t, 2), 1, Begin(true)).clients == Asked(t, 3).clients;
    assert Do(Asked(t, 3), 1, t.read).clients == Asked(t, 4).clients;
  }

  lemma Leads45(t: Twice)
    ensures Leads(t, 4) && Leads(t, 5)
  {
    hide Replay, Fresh, CounterRead, Stepped, RowPut, Finds, Lookup, AllInvalidated, WithTopView;
    Short(t, FirstView(t), RowPut(FirstView(t), t.key, t.value));
    Short(t, RowPut(FirstView(t), t.key, t.value), FirstView(t));
    assert Asking(t)[4] == Step(1, Put(t.key, t.value)) && Asking(t)[5] == Step(1, Commit);
    assert Do(Asked(t, 4), 1, Put(t.key, t.value)).clients == Asked(t, 5).clients;
    assert Do(Asked(t, 5), 1, Commit).clients == Asked(t, 6).clients;
    assert Do(Asked(t, 5), 1, Commit).history == Asked(t, 6).history;
  }

  lemma Leads67(t: Twice)
    ensures Leads(t, 6) && Leads(t, 7)
  {
    var v0 := FirstView(t);
    var v1 := Stepped(RowPut(v0, t.key, t.value));
    Short(t, v0, v1);
    Short(t, v1, v1);
    hide Replay, Fresh, CounterRead, Stepped, RowPut, Finds, Lookup, AllInvalidated, WithTopView;
    assert !SaveFails([]);
    assert Asking(t)[6] == Step(0, Begin(true)) && Asking(t)[7] == Step(0, Begin(true));
    assert Do(Asked(t, 6), 0, Begin(true)).clients == Asked(t, 7).clients;
    assert Do(Asked(t, 7), 0, Begin(true)).clients == Asked(t, 8).clients;
  }

  lemma Leads89(t: Twice)
    ensures Leads(t, 8) && Leads(t, 9)
  {
    var v1 := Stepped(RowPut(FirstView(t), t.key, t.value));
    Short(t, v1, RowPut(v1, t.key, t.value));
    Short(t, RowPut(v1, t.key, t.value), v1);
    hide Replay, Fresh, CounterRead, Stepped, RowPut, Finds, Lookup, AllInvalidated, WithTopView;
    assert Asking(t)[8] == Step(0, Put(t.key, t.value)) && Asking(t)[9] == Step(0, Commit);
    assert Do(Asked(t, 8), 0, Put(t.key, t.value)).clients == Asked(t, 9).clients;
    assert Do(Asked(t, 9), 0, Commit).clients == Asked(t, 10).clients;
    assert Do(Asked(t, 9), 0, Commit).history == Asked(t, 10).history;
  }

  /** Without the rollback the history is not serial, whenever the first transaction leaves something else
      to be found by the second. */
  lemma AskingAgain(t: Twice)
    requires ReadsFirst(t) && !SameFound(t.did, RowPut(FirstView(t), t.key, t.value))
    ensures Fresh(Asked(t, 0)) && forall k :: 0 <= k < 10 ==> Leads(t, k)
    ensures Asked(t, 10).log == [Transaction(t), Transaction(t)]
    ensures !SerialHistory(Asked(t, 10).history, Asked(t, 10).log)
  {
    hide Leads, Replay, SameFound, Finds;
    Leads01(t);
    Leads23(t);
    Leads45(t);
    Leads67(t);
    Leads89(t);
    var w := Asked(t, 10);
    if SerialHistory(w.history, w.log) {
      assert RunsAlone(w.history[1], w.log[1], w.history[1 + 1]);
      ReadsElse(t, w.history[1], w.history[2]);
      CounterUnseen(t.did, RowPut(FirstView(t), t.key, t.value));
    }
  }

  /** The counter is no part of what a read finds. */
  lemma CounterUnseen(op: Op, v: View)
    ensures SameFound(op, Stepped(v)) <==> SameFound(op, v)
  {
    hide CounterRead;
    assert Stepped(v).data == v.data;
  }

  lemma ReadsElse(t: Twice, v: View, to: View)
    requires ReadsFirst(t) && RunsAlone(v, Transaction(t), to)
    ensures SameFound(t.did, v)
  {
    hide Finds, Stepped;
    assert Under(Transaction(t)) == [t.did] && Under([t.did]) == [];
    assert Replay(Main(v), []) == Some(Main(v));
    assert Replay(Main(v), [t.did]) == Apply(Main(v), t.did);
  }

  /** An addition: the row 1, read as 10, is written as 11. */
  function Add(): Twice
  {
    Twice(map[1 := 10], Get(1), DidGet(1, Some(10)), 1, 11)
  }

  /** One of two additions is lost. */
  lemma AskingAgainLosesAnUpdate()
    ensures Fresh(Asked(Add(), 0)) && forall k :: 0 <= k < 10 ==> Leads(Add(), k)
    ensures Asked(Add(), 10).log == [Transaction(Add()), Transaction(Add())]
    ensures Lookup(Top(Asked(Add(), 10).history), 1) == Some(11)
    ensures !SerialHistory(Asked(Add(), 10).history, Asked(Add(), 10).log)
  {
    AskingAgain(Add());
    hide Leads, SerialHistory;
  }

  /** An append: the last row is looked for, found to be 1, and the row 2 is written. */
  function Append(value: int): Twice
  {
    Twice(map[1 := 10], LookFor(Last, Some(1)), DidLook(Last, Some(1)), 2, value)
  }

  /** Of two appends one is written over, though the row that was read, 1, is unchanged. */
  lemma AskingAgainMissesARow(value: int)
    ensures var t := Append(value);
      && Fresh(Asked(t, 0)) && (forall k :: 0 <= k < 10 ==> Leads(t, k))
      && Lookup(Top(Asked(t, 6).history), 1) == Lookup(Top(Asked(t, 0).history), 1) == Some(10)
      && !SerialHistory(Asked(t, 10).history, Asked(t, 10).log)
  {
    var t := Append(value);
    assert 2 in RowPut(FirstView(t), t.key, t.value).data && InReach(Last, 2);
    AskingAgain(t);
    hide Leads, SerialHistory;
  }

  /** Whatever state the first addition starts from, the second does not find what it found. */
  lemma NoOrderExplains(first: View, middle: View, last: View)
    requires RunsAlone(first, Transaction(Add()), middle)
    ensures !RunsAlone(middle, Transaction(Add()), last)
  {
    AddFinds(first);
    AddFinds(middle);
  }

  lemma AddFinds(v: View)
    ensures Replay(Main(v), Transaction(Add())).Some? <==> Lookup(v, 1) == Some(10)
    ensures Replay(Main(v), Transaction(Add())).Some? ==>
              Top(Replay(Main(v), Transaction(Add())).value).view == RowPut(v, 1, 11)
  {
    var all, first := Transaction(Add()), [DidGet(1, Some(10))];
    assert Under(all) == first && Under(first) == [];
    assert Replay(Main(v), []) == Some(Main(v));
    assert Replay(Main(v), first) == Apply(Main(v), DidGet(1, Some(10)));
  }
}
