/** The transaction calls of the LMDB backend, updating a connection in place. */
module LmdbBtree {
  import opened Common
  import opened LmdbModel

  /** The LMDB environment: the committed states so far and whether its one writer lock is taken. Other
      connections may commit while a write transaction waits for the lock. */
  class Env {
    var history: seq<View>
    var writer: bool

    ghost predicate Valid()
      reads this
    {
      Chained(history)
    }

    constructor (first: View)
      ensures Valid() && history == [first] && !writer
    {
      history, writer := [first], false;
    }

    method BeginRead() returns (v: View)
      requires Valid()
      ensures v == Top(history)
    {
      v := history[|history| - 1];
    }

    /** Waits for the lock, during which other writers may finish. */
    method BeginWrite() returns (v: View)
      requires Valid()
      modifies this
      ensures Valid() && writer && old(history) <= history && v == Top(history)
    {
      var others: seq<View> := *;
      if Chained(history + others) {
        history := history + others;
      }
      writer := true;
      v := history[|history| - 1];
    }

    method Commit(v: View)
      requires Valid() && writer && v.counter == Stepped(Top(history)).counter
      modifies this
      ensures Valid() && !writer && history == old(history) + [v]
    {
      history := history + [v];
      writer := false;
    }

    method Abort(writable: bool)
      requires Valid() && (writable ==> writer)
      modifies this
      ensures Valid() && history == old(history) && writer == (old(writer) && !writable)
    {
      if writable {
        writer := false;
      }
    }
  }

  class Btree {
    const env: Env
    const transType: TransType
    const readonly: bool
    /** The stack of nested transactions, the main one first. */
    var svp: seq<Entry>
    var writable: bool
    var inTrans: TxnState
    var cursors: seq<Cursor>

    ghost function Abs(): Conn
      reads this
    {
      Conn(transType, readonly, svp, writable, inTrans, cursors)
    }

    ghost predicate Valid()
      reads this, env
    {
      ValidConn(Abs()) && env.Valid() && (writable ==> env.writer && BasedOnLatest())
    }

    /** Whoever holds the writer lock works on the latest commit. */
    ghost predicate BasedOnLatest()
      reads this, env
    {
      |env.history| > 0 && forall j :: 0 <= j < |svp| ==> svp[j].view.counter == Top(env.history).counter
    }

    constructor (env: Env, transType: TransType, readonly: bool)
      requires env.Valid()
      ensures Valid() && Abs() == Conn(transType, readonly, [], false, NoTxn, []) && this.env == env
    {
      this.env := env;
      this.transType := transType;
      this.readonly := readonly;
      svp, writable, inTrans, cursors := [], false, NoTxn, [];
    }

    method InvalidateCursors(trip: Code, writeOnly: bool) returns (failed: bool)
      modifies this`cursors
      ensures cursors == AllInvalidated(old(cursors), trip, writeOnly)
      ensures failed <==> trip == Ok && SaveFails(old(cursors))
    {
      failed := false;
      for i := 0 to |cursors|
        invariant |cursors| == |old(cursors)|
        invariant forall j :: 0 <= j < i ==> cursors[j] == Invalidated(old(cursors)[j], trip, writeOnly)
        invariant forall j :: i <= j < |cursors| ==> cursors[j] == old(cursors)[j]
        invariant failed <==>
                  trip == Ok && exists j :: 0 <= j < i && Live(old(cursors)[j]) && old(cursors)[j].row == None
      {
        var c := cursors[i];
        if c.trip == Ok && c.open {
          if trip == Ok {
            if c.row == None {
              cursors := cursors[i := c.(trip := Failed)];
              failed := true;
              continue;
            }
            c := c.(saved := c.row, open := false);
          }
          if c.wr || !writeOnly {
            c := c.(trip := trip);
          }
          cursors := cursors[i := c];
        }
      }
    }

    method CloseAllSavepoints(level: int, commit: bool, trip: Code) returns (code: Code)
      requires ValidConn(Abs())
      modifies this`svp, this`cursors
      ensures (code, Abs()) == SavepointsClosed(old(Abs()), level, commit, trip)
    {
      if |svp| <= 1 {
        return Ok;
      }
      ghost var was := Abs();
      ghost var fails := trip == Ok && SaveFails(cursors);
      NoneLiveAfter(cursors, trip);
      code := Ok;
      while |svp| > 1 && Top(svp).level != level
        invariant |svp| > 0 && Closed(svp, level, commit && !fails) == Closed(was.stack, level, commit && !fails)
        invariant svp == was.stack ==> code == Ok && cursors == was.cursors
        invariant svp != was.stack ==> code == (if fails then Failed else Ok)
        invariant svp != was.stack ==> cursors == AllInvalidated(was.cursors, trip, false)
        invariant svp != was.stack ==> Survivor(was.stack, level) < |was.stack| - 1
        invariant |svp| <= |was.stack|
      {
        var s := Top(svp);
        svp := Under(svp);
        var failed := InvalidateCursors(trip, false);
        if failed && code == Ok {
          code := Failed;
        }
        if commit && code == Ok {
          svp := WithTopView(svp, s.view);
        }
      }
    }

    /** The commit counter as the current transaction sees it. */
    method GetCounter() returns (n: nat)
      requires |svp| > 0
      ensures n == CounterRead(Top(svp).view)
    {
      n := CounterRead(Top(svp).view);
    }

    /** Begins a transaction, or upgrades a read transaction to a write one. */
    method BeginTrans(wr: bool) returns (code: Code)
      requires Valid()
      modifies this, env
      ensures Valid() && old(env.history) <= env.history
      ensures !TakesWriter(old(Abs()), wr) ==> env.history == old(env.history)
      ensures (code, Abs()) == Begun(old(Abs()), wr, Top(env.history))
    {
      if inTrans == Writing {
        return Ok;
      }
      if wr && readonly {
        return ReadOnly;
      }
      if inTrans != NoTxn {
        if !wr {
          return Ok;
        }
        if transType == NoUpgrade {
          return Busy;
        }
        if transType == Optimistic {
          code := UpgradeOptimistically();
          return;
        }
        inTrans := Writing;
        return Ok;
      }
      if |svp| > 0 {
        return Internal;
      }
      writable := if transType != Serialise then wr else !readonly;
      var v;
      if writable {
        v := env.BeginWrite();
      } else {
        v := env.BeginRead();
      }
      svp := [Entry(-1, v)];
      inTrans := if wr then Writing else Reading;
      code := Ok;
    }

    /** Gives up the snapshot for a write transaction, and sees whether anybody has committed since. */
    method UpgradeOptimistically() returns (code: Code)
      requires Valid() && inTrans == Reading && transType == Optimistic && !readonly
      modifies this, env
      ensures Valid() && old(env.history) <= env.history
      ensures !TakesWriter(old(Abs()), true) ==> env.history == old(env.history)
      ensures (code, Abs()) == Begun(old(Abs()), true, Top(env.history))
    {
      var counterRO := GetCounter();
      var failed := InvalidateCursors(Ok, false);
      if failed {
        return Failed;
      }
      env.Abort(writable);
      var v := env.BeginWrite();
      svp := WithTopView(svp, v);
      writable := true;
      var counterRW := GetCounter();
      if counterRO != counterRW {
        return Busy;
      }
      inTrans := Writing;
      code := Ok;
    }

    method BeginStmt(level: nat) returns (code: Code)
      requires Valid() && inTrans == Writing && level > Top(svp).level
      modifies this`svp
      ensures Valid() && code == Ok && Abs() == StatementBegun(old(Abs()), level)
      ensures Top(svp) == Entry(level, Top(old(svp)).view) && Under(svp) == old(svp)
    {
      svp := svp + [Entry(level, Top(svp).view)];
      code := Ok;
    }

    /** Steps the commit counter and commits the top transaction. */
    method Publish()
      requires |svp| > 0 && env.Valid() && env.writer && |env.history| > 0
      requires Top(svp).view.counter == Top(env.history).counter
      modifies env
      ensures env.Valid() && env.history == old(env.history) + [Stepped(Top(svp).view)]
    {
      var counter := GetCounter();
      var v := Top(svp).view.(counter := (counter + 1) % WORD64);
      env.Commit(v);
    }

    /** Publishes the work of a write transaction, or lets go of a snapshot. */
    method CommitPhaseOne() returns (code: Code)
      requires Valid()
      modifies this, env
      ensures Valid() && code == Ok && Abs() == Committed(old(Abs()))
      ensures env.history == old(env.history) + if old(inTrans) == Writing then [Published(old(Abs()))] else []
    {
      if inTrans != NoTxn {
        ghost var was := Abs();
        CommitCloses(was, inTrans == Writing);
        NoneLiveAfter(cursors, Internal);
        hide Closed, Survivor, AllInvalidated, SaveFails, Stepped, Chained;
        code := CloseAllSavepoints(-1, inTrans == Writing, Internal);
        assert inTrans == Writing ==> Top(svp).view == Top(was.stack).view;
        var _ := InvalidateCursors(Internal, false);
        if inTrans == Writing {
          Publish();
        } else {
          env.Abort(writable);
        }
        inTrans := NoTxn;
        writable := false;
        svp := [];
      }
      code := Ok;
    }

    method Rollback(trip: Code, writeOnly: bool)
      requires Valid()
      modifies this, env
      ensures Valid() && Abs() == RolledBack(old(Abs()), trip, writeOnly) && env.history == old(env.history)
    {
      if inTrans != NoTxn {
        var _ := CloseAllSavepoints(-1, false, trip);
        var _ := InvalidateCursors(trip, writeOnly);
        env.Abort(writable);
        inTrans := NoTxn;
        writable := false;
        svp := [];
      }
    }

    lemma KeepsBoth(level: int, keep: bool)
      requires Valid() && svp != []
      ensures Numbered(Closed(svp, level, keep)) && |Closed(svp, level, keep)| <= |svp|
      ensures writable ==>
                forall j :: 0 <= j < |Closed(svp, level, keep)| ==>
                  Closed(svp, level, keep)[j].view.counter == Top(env.history).counter
    {
      hide Closed;
      ClosedExactly(svp, level, keep);
      if writable {
        ClosedKeeps(svp, level, keep, Top(env.history).counter);
      }
    }

    /** Releases or rolls back to a savepoint; rolling back to -1 ends the whole transaction. */
    method Savepoint(release: bool, level: int) returns (code: Code)
      requires Valid() && level >= -1 && (level == -1 ==> !release && inTrans != NoTxn)
      modifies this, env
      ensures Valid() && (code, Abs()) == SavepointDone(old(Abs()), release, level)
      ensures env.history == old(env.history)
    {
      hide Closed, Survivor, Numbered;
      if svp != [] {
        KeepsBoth(level, release && !SaveFails(cursors));
      }
      code := CloseAllSavepoints(level, release, Ok);
      if code != Ok || level >= 0 {
        return;
      }
      var _ := InvalidateCursors(Ok, false);
      env.Abort(writable);
      svp := [];
      writable := false;
      inTrans := NoTxn;
    }

    method Put(key: int, value: int)
      requires Valid() && inTrans == Writing
      modifies this`svp
      ensures Valid()
      ensures Abs() == old(Abs()).(stack := WithTopView(old(svp), RowPut(Top(old(svp)).view, key, value)))
      ensures forall other :: Lookup(Top(svp).view, other)
                              == if other == key then Some(value) else Lookup(Top(old(svp)).view, other)
    {
      svp := WithTopView(svp, RowPut(Top(svp).view, key, value));
    }

    /** Deletes a row in the top transaction. */
    method Delete(key: int)
      requires Valid() && inTrans == Writing
      modifies this`svp
      ensures Valid()
      ensures Abs() == old(Abs()).(stack := WithTopView(old(svp), RowDelete(Top(old(svp)).view, key)))
      ensures forall other :: Lookup(Top(svp).view, other)
                              == if other == key then None else Lookup(Top(old(svp)).view, other)
    {
      svp := WithTopView(svp, RowDelete(Top(svp).view, key));
    }

    /** Deletes all rows in the top transaction and says how many there were. */
    method Clear() returns (rows: nat)
      requires Valid() && inTrans == Writing
      modifies this`svp
      ensures Valid() && rows == |Top(old(svp)).view.data|
      ensures Abs() == old(Abs()).(stack := WithTopView(old(svp), Cleared(Top(old(svp)).view)))
      ensures forall other :: Lookup(Top(svp).view, other) == None
    {
      rows := |Top(svp).view.data|;
      svp := WithTopView(svp, Cleared(Top(svp).view));
    }

    method Get(key: int) returns (v: Option<int>)
      requires Valid() && inTrans != NoTxn
      ensures v == Lookup(Top(svp).view, key)
    {
      v := Lookup(Top(svp).view, key);
    }
  }
}
