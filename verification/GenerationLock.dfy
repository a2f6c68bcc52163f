/** The lock file that processes sharing a private Berkeley DB environment synchronize on: a read/write
    lock between processes, counts of its holders inside each process, and a generation number that
    tells a process when another one has written. A step is what a thread does between two points
    where it may have to wait. */
module GenerationLock {

  type Tid = int

  /** What a process holds on the lock file. */
  datatype OsLock = Unlocked | Shared | Exclusive

  /** A process: the counts and flags its threads share, and where each lock request has got to.
      readBlocked and heldWait wait for the file with the mutex held, freeWait without it, got has the
      file and waits for the mutex. quiet are the requests that must not reopen the environment, the lock
      that covers the creation of the file among them. current says whether the environment was opened or
      reopened since the last write of another process; no code looks at it. */
  datatype Proc = Proc(
    os: OsLock, readCount: nat, writeCount: nat, waiting: bool, generation: int,
    readBlocked: set<Tid>, hasRead: set<Tid>,
    heldWait: set<Tid>, freeWait: set<Tid>, got: set<Tid>, hasWrite: set<Tid>, quiet: set<Tid>,
    current: bool)

  /** The shared generation counter and the processes. */
  datatype World = World(counter: int, procs: seq<Proc>)

  datatype Step =
    | AskRead(p: nat, t: Tid, dontReopen: bool)
    | GrantRead(p: nat, t: Tid)
    | AskWrite(p: nat, t: Tid, dontReopen: bool)
    | GrantWrite(p: nat, t: Tid)
    | GrantFile(p: nat, t: Tid)
    | Reenter(p: nat, t: Tid)
    | UnlockRead(p: nat, t: Tid)
    | UnlockWrite(p: nat, t: Tid)
    | OpenEnvironment(p: nat)

  predicate MutexFree(x: Proc)
  {
    x.readBlocked == {} && x.heldWait == {}
  }

  predicate Known(x: Proc, t: Tid)
  {
    t in x.readBlocked || t in x.hasRead || t in x.heldWait || t in x.freeWait || t in x.got || t in x.hasWrite
  }

  /** What the file system grants: a read lock if no other process has a write lock, a write lock if no
      other process has any. */
  predicate MayLock(w: World, p: nat, exclusive: bool)
  {
    forall q :: 0 <= q < |w.procs| && q != p ==>
      w.procs[q].os == Unlocked || (!exclusive && w.procs[q].os == Shared)
  }

  /** Whether the request is where the step finds it, and has the mutex if it needs it. */
  predicate Ready(x: Proc, s: Step)
  {
    match s
    case AskRead(_, t, _) => MutexFree(x) && !Known(x, t)
    case GrantRead(_, t) => t in x.readBlocked
    case AskWrite(_, t, _) => MutexFree(x) && !Known(x, t)
    case GrantWrite(_, t) => t in x.heldWait
    case GrantFile(_, t) => t in x.freeWait
    case Reenter(_, t) => t in x.got && MutexFree(x)
    case UnlockRead(_, t) => t in x.hasRead && MutexFree(x)
    case UnlockWrite(_, t) => t in x.hasWrite && MutexFree(x)
    case OpenEnvironment(_) => x.hasRead + x.hasWrite != {}
  }

  predicate Enabled(w: World, s: Step)
  {
    && s.p < |w.procs| && Ready(w.procs[s.p], s)
    && (s.GrantRead? ==> MayLock(w, s.p, false))
    && (s.GrantWrite? || s.GrantFile? ==> MayLock(w, s.p, true))
  }

  // ----- what each piece of code does to its process -----

  /** Whether a granted request reopens the environment, when the shared counter is as given. */
  predicate Reopens(counter: int, x: Proc, t: Tid)
  {
    counter != x.generation && t !in x.quiet
  }

  /** Taking over a generation, and reopening if the counter has changed and the request may reopen. */
  function Checked(counter: int, x: Proc, t: Tid, generation: int): Proc
  {
    x.(generation := generation, current := x.current || Reopens(counter, x, t))
  }

  function Marked(quiet: set<Tid>, t: Tid, dontReopen: bool): set<Tid>
  {
    if dontReopen then quiet + {t} else quiet - {t}
  }

  function AskedRead(x: Proc, t: Tid, dontReopen: bool): Proc
  {
    var y := x.(readCount := x.readCount + 1, quiet := Marked(x.quiet, t, dontReopen));
    if y.readCount == 1 && y.writeCount == 0 then y.(readBlocked := {t}) else y.(hasRead := x.hasRead + {t})
  }

  function GrantedRead(counter: int, x: Proc, t: Tid): Proc
  {
    Checked(counter, x, t, counter).(os := Shared, readBlocked := {}, hasRead := x.hasRead + {t})
  }

  function AskedWrite(x: Proc, t: Tid, dontReopen: bool): Proc
  {
    var y := x.(writeCount := x.writeCount + 1, quiet := Marked(x.quiet, t, dontReopen));
    if y.writeCount == 1 || y.waiting then
      if y.readCount != 0 then y.(waiting := true, freeWait := x.freeWait + {t})
      else y.(waiting := true, heldWait := {t})
    else y.(hasWrite := x.hasWrite + {t})
  }

  function GotFile(x: Proc, t: Tid): Proc
  {
    x.(os := Exclusive, freeWait := x.freeWait - {t}, got := x.got + {t})
  }

  /** The writer has the file and the mutex: it takes the next generation. */
  function GrantedWrite(counter: int, x: Proc, t: Tid): Proc
  {
    Checked(counter, x, t, counter + 1).(os := Exclusive, waiting := false, heldWait := x.heldWait - {t},
                                         got := x.got - {t}, hasWrite := x.hasWrite + {t})
  }

  /** What letting go of one lock does to the file. */
  function Released(x: Proc): Proc
  {
    if x.writeCount != 0 then x
    else if x.readCount == 0 then x.(os := Unlocked)
    else x.(os := Shared)
  }

  function UnlockedRead(x: Proc, t: Tid): Proc
  {
    if x.readCount == 0 then x else Released(x.(readCount := x.readCount - 1, hasRead := x.hasRead - {t}))
  }

  function UnlockedWrite(x: Proc, t: Tid): Proc
  {
    if x.writeCount == 0 then x else Released(x.(writeCount := x.writeCount - 1, hasWrite := x.hasWrite - {t}))
  }

  /** The environments of the other processes are out of date once p writes. */
  function Stale(procs: seq<Proc>): (r: seq<Proc>)
    ensures |r| == |procs|
    ensures forall q :: 0 <= q < |procs| ==> r[q] == procs[q].(current := false)
  {
    seq(|procs|, q requires 0 <= q < |procs| => procs[q].(current := false))
  }

  /** The process after its step. */
  function Moved(counter: int, x: Proc, s: Step): Proc
  {
    match s
    case AskRead(_, t, dontReopen) => AskedRead(x, t, dontReopen)
    case GrantRead(_, t) => GrantedRead(counter, x, t)
    case AskWrite(_, t, dontReopen) => AskedWrite(x, t, dontReopen)
    case GrantWrite(_, t) => GrantedWrite(counter, x, t)
    case GrantFile(_, t) => GotFile(x, t)
    case Reenter(_, t) => GrantedWrite(counter, x, t)
    case UnlockRead(_, t) => UnlockedRead(x, t)
    case UnlockWrite(_, t) => UnlockedWrite(x, t)
    case OpenEnvironment(_) => x.(current := true)
  }

  /** The steps that take the next generation. */
  predicate Counts(s: Step)
  {
    s.GrantWrite? || s.Reenter?
  }

  function Do(w: World, s: Step): World
    requires Enabled(w, s)
  {
    var mine := Moved(w.counter, w.procs[s.p], s);
    if Counts(s) then World(w.counter + 1, Stale(w.procs)[s.p := mine])
    else World(w.counter, w.procs[s.p := mine])
  }

  // ----- what every step keeps -----

  ghost predicate OnePlace(a: set<Tid>, b: set<Tid>, c: set<Tid>, d: set<Tid>)
  {
    && (forall t :: t in a ==> t !in b && t !in c && t !in d)
    && (forall t :: t in b ==> t !in c && t !in d)
    && (forall t :: t in c ==> t !in d)
  }

  /** The counts are the numbers of requests of each kind, each in one place. */
  ghost predicate Counted(x: Proc)
  {
    && x.readCount == |x.readBlocked| + |x.hasRead|
    && x.writeCount == |x.heldWait| + |x.freeWait| + |x.got| + |x.hasWrite|
    && x.readBlocked !! x.hasRead && OnePlace(x.heldWait, x.freeWait, x.got, x.hasWrite)
    && |x.readBlocked| + |x.heldWait| <= 1
  }

  ghost predicate Sound(x: Proc, counter: int)
  {
    && Counted(x)
    && (x.readBlocked != {} ==> x.hasRead == {} && x.writeCount == 0 && x.os == Unlocked)
    && (x.heldWait != {} ==> x.hasRead == {} && x.waiting)
    && (x.waiting ==> x.hasWrite == {} && x.heldWait + x.freeWait + x.got != {})
    && (x.writeCount > 0 && !x.waiting ==> x.os == Exclusive)
    && (x.got != {} ==> x.os == Exclusive)
    && (x.hasRead + x.freeWait != {} ==> x.os != Unlocked)
    && (x.os == Exclusive ==> x.writeCount > 0)
    && (x.os != Unlocked ==> x.readCount + x.writeCount > 0)
    && (x.os != Unlocked ==> x.generation == counter)
    && x.generation <= counter
    && (x.current ==> x.generation == counter)
  }

  /** Whoever of the two has a write lock is the only one with anything on the file. */
  ghost predicate Apart(x: Proc, y: Proc)
  {
    (x.os == Exclusive ==> y.os == Unlocked) && (y.os == Exclusive ==> x.os == Unlocked)
  }

  ghost predicate Inv(w: World)
  {
    && (forall p :: 0 <= p < |w.procs| ==> Sound(w.procs[p], w.counter))
    && (forall p, q :: 0 <= p < q < |w.procs| ==> Apart(w.procs[p], w.procs[q]))
  }

  /** What the counts say about the requests. */
  lemma CountFacts(x: Proc)
    requires Counted(x)
    ensures x.readCount == 0 <==> x.readBlocked == {} && x.hasRead == {}
    ensures x.writeCount == 0 <==> x.heldWait == {} && x.freeWait == {} && x.got == {} && x.hasWrite == {}
  {
  }

  lemma OnlyOne(s: set<Tid>, t: Tid)
    requires t in s && |s| <= 1
    ensures s == {t}
  {
    var rest := s - {t};
    assert s == rest + {t} && |s| == |rest| + 1;
  }

  lemma AskedReadSound(x: Proc, counter: int, t: Tid, dontReopen: bool)
    requires Sound(x, counter) && MutexFree(x) && !Known(x, t)
    ensures Sound(AskedRead(x, t, dontReopen), counter)
  {
  }

  lemma GrantedReadSound(x: Proc, counter: int, t: Tid)
    requires Sound(x, counter) && t in x.readBlocked
    ensures Sound(GrantedRead(counter, x, t), counter)
  {
    OnlyOne(x.readBlocked, t);
  }

  lemma OnePlaceMore(a: set<Tid>, b: set<Tid>, c: set<Tid>, d: set<Tid>, t: Tid)
    requires OnePlace(a, b, c, d) && t !in a && t !in b && t !in c && t !in d
    ensures OnePlace(a + {t}, b, c, d) && OnePlace(a, b + {t}, c, d) && OnePlace(a, b, c, d + {t})
  {
  }

  lemma AskedWriteCounted(x: Proc, t: Tid, dontReopen: bool)
    requires Counted(x) && MutexFree(x) && !Known(x, t)
    ensures Counted(AskedWrite(x, t, dontReopen))
  {
    Taken(x.freeWait, t);
    Taken(x.hasWrite, t);
    assert {t} == x.heldWait + {t};
    OnePlaceMore(x.heldWait, x.freeWait, x.got, x.hasWrite, t);
    hide OnePlace;
  }

  lemma AskedWriteSound(x: Proc, counter: int, t: Tid, dontReopen: bool)
    requires Sound(x, counter) && MutexFree(x) && !Known(x, t)
    ensures Sound(AskedWrite(x, t, dontReopen), counter)
  {
    AskedWriteCounted(x, t, dontReopen);
    CountFacts(x);
    hide Counted;
  }

  lemma GotFileSound(x: Proc, counter: int, t: Tid)
    requires Sound(x, counter) && t in x.freeWait
    ensures Sound(GotFile(x, t), counter)
  {
  }

  lemma Taken(s: set<Tid>, t: Tid)
    ensures |s - {t}| == if t in s then |s| - 1 else |s|
    ensures t !in s ==> s - {t} == s && |s + {t}| == |s| + 1
  {
  }

  lemma GrantedWriteCounted(x: Proc, counter: int, t: Tid)
    requires Counted(x) && (t in x.heldWait || t in x.got)
    ensures Counted(GrantedWrite(counter, x, t))
  {
    hide Checked, OnePlace;
    CheckedKeeps(counter, x, t, counter + 1);
    OnePlaceMoved(x.heldWait, x.freeWait, x.got, x.hasWrite, t);
    Taken(x.heldWait, t);
    Taken(x.got, t);
    Taken(x.hasWrite, t);
  }

  lemma OnePlaceMoved(a: set<Tid>, b: set<Tid>, c: set<Tid>, d: set<Tid>, t: Tid)
    requires OnePlace(a, b, c, d) && (t in a || t in c)
    ensures OnePlace(a - {t}, b, c - {t}, d + {t}) && t !in d && !(t in a && t in c)
  {
  }

  lemma CheckedKeeps(counter: int, x: Proc, t: Tid, generation: int)
    ensures Checked(counter, x, t, generation)
            == x.(generation := generation, current := Checked(counter, x, t, generation).current)
  {
  }

  lemma GrantedWriteSound(x: Proc, counter: int, t: Tid)
    requires Sound(x, counter) && (t in x.heldWait || (t in x.got && MutexFree(x)))
    ensures Sound(GrantedWrite(counter, x, t), counter + 1)
  {
    GrantedWriteCounted(x, counter, t);
    if t in x.heldWait { OnlyOne(x.heldWait, t); }
    CountFacts(x);
    CountFacts(GrantedWrite(counter, x, t));
    hide Counted;
  }

  lemma UnlockedReadSound(x: Proc, counter: int, t: Tid)
    requires Sound(x, counter) && MutexFree(x) && t in x.hasRead
    ensures Sound(UnlockedRead(x, t), counter)
  {
  }

  lemma UnlockedWriteSound(x: Proc, counter: int, t: Tid)
    requires Sound(x, counter) && MutexFree(x) && t in x.hasWrite
    ensures Sound(UnlockedWrite(x, t), counter)
  {
  }

  /** The process that takes a step stays sound. */
  lemma MovedSound(counter: int, x: Proc, s: Step)
    requires Sound(x, counter) && Ready(x, s)
    ensures Sound(Moved(counter, x, s), if Counts(s) then counter + 1 else counter)
  {
    hide Sound, AskedRead, GrantedRead, AskedWrite, GotFile, GrantedWrite, UnlockedRead, UnlockedWrite;
    match s
    case AskRead(_, t, dontReopen) => AskedReadSound(x, counter, t, dontReopen);
    case GrantRead(_, t) => GrantedReadSound(x, counter, t);
    case AskWrite(_, t, dontReopen) => AskedWriteSound(x, counter, t, dontReopen);
    case GrantWrite(_, t) => GrantedWriteSound(x, counter, t);
    case GrantFile(_, t) => GotFileSound(x, counter, t);
    case Reenter(_, t) => GrantedWriteSound(x, counter, t);
    case UnlockRead(_, t) => UnlockedReadSound(x, counter, t);
    case UnlockWrite(_, t) => UnlockedWriteSound(x, counter, t);
    case OpenEnvironment(_) => OpenedSound(x, counter);
  }

  lemma MoverKeeps(w: World, s: Step)
    requires Inv(w) && Enabled(w, s)
    ensures |Do(w, s).procs| == |w.procs| && Sound(Do(w, s).procs[s.p], Do(w, s).counter)
  {
    hide Sound, Ready, Moved;
    MovedSound(w.counter, w.procs[s.p], s);
  }

  lemma OpenedSound(x: Proc, counter: int)
    requires Sound(x, counter) && x.hasRead + x.hasWrite != {}
    ensures Sound(x.(current := true), counter)
  {
    CountFacts(x);
  }

  /** A step does nothing to the other processes, or makes their environments out of date. */
  lemma OthersChange(w: World, s: Step, q: nat)
    requires Enabled(w, s) && q < |w.procs| && q != s.p
    ensures |Do(w, s).procs| == |w.procs|
    ensures Do(w, s).procs[q] == if Counts(s) then w.procs[q].(current := false) else w.procs[q]
    ensures Do(w, s).counter == if Counts(s) then w.counter + 1 else w.counter
  {
    hide Ready, Moved;
  }

  lemma OthersSound(w: World, s: Step, q: nat)
    requires Inv(w) && Enabled(w, s) && q < |w.procs| && q != s.p
    ensures |Do(w, s).procs| == |w.procs| && Sound(Do(w, s).procs[q], Do(w, s).counter)
  {
    OthersChange(w, s, q);
    assert Sound(w.procs[q], w.counter);
    if Counts(s) {
      assert if s.p < q then Apart(w.procs[s.p], w.procs[q]) else Apart(w.procs[q], w.procs[s.p]);
      assert Sound(w.procs[s.p], w.counter);
      StaleSound(w.procs[q], w.counter);
    }
    hide Sound, Do;
  }

  lemma StaleSound(x: Proc, counter: int)
    requires Sound(x, counter) && x.os == Unlocked
    ensures Sound(x.(current := false), counter + 1)
  {
  }

  /** What a step makes of a process's lock on the file. */
  lemma MovedLock(counter: int, x: Proc, s: Step)
    requires Sound(x, counter) && Ready(x, s)
    ensures var os := Moved(counter, x, s).os;
            && (s.GrantWrite? || s.GrantFile? ==> os == Exclusive)
            && (s.GrantRead? ==> os == Shared)
            && (!s.GrantWrite? && !s.GrantFile? && !s.GrantRead? ==>
                  os == x.os || os == Unlocked || (os == Shared && x.os != Unlocked))
  {
    CountFacts(x);
    hide Counted;
  }

  /** A process gets no more on the file than the others leave room for. */
  lemma OthersApart(w: World, s: Step, q: nat)
    requires Inv(w) && Enabled(w, s) && q < |w.procs| && q != s.p
    ensures |Do(w, s).procs| == |w.procs| && Apart(Do(w, s).procs[s.p], Do(w, s).procs[q])
  {
    OthersChange(w, s, q);
    assert Sound(w.procs[s.p], w.counter);
    hide Sound, Ready, Moved;
    MovedLock(w.counter, w.procs[s.p], s);
    assert if s.p < q then Apart(w.procs[s.p], w.procs[q]) else Apart(w.procs[q], w.procs[s.p]);
  }

  /** Every step keeps the invariant. */
  lemma StepKeeps(w: World, s: Step)
    requires Inv(w) && Enabled(w, s)
    ensures Inv(Do(w, s))
  {
    var w' := Do(w, s);
    MoverKeeps(w, s);
    hide Sound, Do, Enabled, Apart;
    forall q | 0 <= q < |w.procs|
      ensures Sound(w'.procs[q], w'.counter)
    {
      if q != s.p { OthersSound(w, s, q); }
    }
    forall p, q | 0 <= p < q < |w'.procs|
      ensures Apart(w'.procs[p], w'.procs[q])
    {
      PairKeeps(w, s, p, q);
    }
  }

  lemma PairKeeps(w: World, s: Step, p: nat, q: nat)
    requires Inv(w) && Enabled(w, s) && p < q < |w.procs|
    ensures |Do(w, s).procs| == |w.procs| && Apart(Do(w, s).procs[p], Do(w, s).procs[q])
  {
    hide Sound, Do, Enabled;
    assert Apart(w.procs[p], w.procs[q]);
    if p == s.p {
      OthersApart(w, s, q);
    } else if q == s.p {
      OthersApart(w, s, p);
    } else {
      OthersChange(w, s, p);
      OthersChange(w, s, q);
    }
  }

  // ----- runs -----

  ghost predicate IsRun(worlds: seq<World>, steps: seq<Step>)
  {
    && |worlds| == |steps| + 1
    && forall k :: 0 <= k < |steps| ==> Enabled(worlds[k], steps[k]) && worlds[k + 1] == Do(worlds[k], steps[k])
  }

  /** A process that has just set up its lock file: idle, knowing the generation it read, or, if it
      created the file, inside the write lock that covers the creation. */
  ghost predicate SetUp(x: Proc, counter: int, creator: bool)
  {
    && x.readCount == 0 && !x.waiting && x.readBlocked == x.hasRead == x.heldWait == x.freeWait == x.got == {}
    && x.generation <= counter && !x.current
    && if creator
       then x.os == Exclusive && x.writeCount == |x.hasWrite| == 1 && x.generation == counter && x.quiet == x.hasWrite
       else x.os == Unlocked && x.writeCount == 0 && x.hasWrite == {}
  }

  ghost predicate Fresh(w: World, creator: int)
  {
    forall p :: 0 <= p < |w.procs| ==> SetUp(w.procs[p], w.counter, p == creator)
  }

  lemma {:induction false} RunsKeep(worlds: seq<World>, steps: seq<Step>, creator: int)
    requires IsRun(worlds, steps) && Fresh(worlds[0], creator)
    ensures Inv(worlds[|steps|])
    decreases |steps|
  {
    hide Do, Enabled, Sound;
    if |steps| == 0 {
      FreshSound(worlds[0], creator);
    } else {
      var n := |steps| - 1;
      RunsKeep(worlds[..n + 1], steps[..n], creator);
      StepKeeps(worlds[n], steps[n]);
    }
  }

  lemma FreshSound(w: World, creator: int)
    requires Fresh(w, creator)
    ensures Inv(w)
  {
  }

  // ----- what the invariant means -----

  function Holders(x: Proc): set<Tid>
  {
    x.hasRead + x.hasWrite
  }

  ghost predicate Holds(x: Proc)
  {
    Holders(x) != {}
  }

  /** A process inside a write lock excludes every lock holder of every other process. */
  lemma WritersExclude(w: World, p: nat, q: nat)
    requires Inv(w) && p < |w.procs| && q < |w.procs| && p != q && w.procs[p].hasWrite != {}
    ensures !Holds(w.procs[q])
  {
    hide Counted;
    assert Sound(w.procs[p], w.counter) && Sound(w.procs[q], w.counter);
    CountFacts(w.procs[p]);
    CountFacts(w.procs[q]);
  }

  /** Whoever holds a lock knows the current generation. */
  lemma HoldersKnow(w: World, p: nat)
    requires Inv(w) && p < |w.procs| && Holds(w.procs[p])
    ensures w.procs[p].generation == w.counter
  {
    hide Counted;
    assert Sound(w.procs[p], w.counter);
    CountFacts(w.procs[p]);
  }

  predicate Grants(s: Step)
  {
    s.GrantRead? || s.GrantWrite? || s.Reenter?
  }

  /** A changed counter is only met by a request that is alone in its process. */
  lemma ChangesMetAlone(w: World, s: Step)
    requires Inv(w) && Enabled(w, s) && Grants(s) && w.counter != w.procs[s.p].generation
    ensures !Holds(w.procs[s.p])
  {
    assert Sound(w.procs[s.p], w.counter);
    CountFacts(w.procs[s.p]);
    hide Counted;
  }

  /** A step that reopens an environment. */
  predicate IsReopening(w: World, s: Step)
    requires s.p < |w.procs|
  {
    Grants(s) && Reopens(w.counter, w.procs[s.p], s.t)
  }

  /** A step that opens or reopens the environment of a process. */
  predicate Refreshes(w: World, s: Step, p: nat)
  {
    s.p == p < |w.procs| && (s.OpenEnvironment? || IsReopening(w, s))
  }

  /** A step by which a process takes over a changed counter for a request that must not reopen. */
  predicate Hides(w: World, s: Step, p: nat)
  {
    s.p == p < |w.procs| && Grants(s) && w.counter != w.procs[p].generation && s.t in w.procs[p].quiet
  }

  /** In the first n steps the process has opened or reopened its environment, and since then no request
      that must not reopen took over a changed counter. */
  ghost predicate UpToDate(worlds: seq<World>, steps: seq<Step>, n: nat, p: nat)
    requires n <= |steps| < |worlds|
  {
    exists j :: 0 <= j < n && Refreshes(worlds[j], steps[j], p)
                && forall i :: j < i < n ==> !Hides(worlds[i], steps[i], p)
  }

  lemma UpToDateStep(worlds: seq<World>, steps: seq<Step>, n: nat, p: nat)
    requires n < |steps| < |worlds|
    ensures UpToDate(worlds, steps, n + 1, p)
            <==> Refreshes(worlds[n], steps[n], p)
                 || (UpToDate(worlds, steps, n, p) && !Hides(worlds[n], steps[n], p))
  {
    hide Refreshes, Hides;
    if UpToDate(worlds, steps, n + 1, p) {
      var j :| 0 <= j < n + 1 && Refreshes(worlds[j], steps[j], p)
               && forall i :: j < i < n + 1 ==> !Hides(worlds[i], steps[i], p);
      if j < n { assert UpToDate(worlds, steps, n, p); }
    }
    if UpToDate(worlds, steps, n, p) && !Hides(worlds[n], steps[n], p) {
      var j :| 0 <= j < n && Refreshes(worlds[j], steps[j], p)
               && forall i :: j < i < n ==> !Hides(worlds[i], steps[i], p);
      assert forall i :: j < i < n + 1 ==> !Hides(worlds[i], steps[i], p);
    }
  }

  lemma MovedCurrent(counter: int, x: Proc, s: Step)
    requires x.current ==> x.generation == counter
    ensures var y := Moved(counter, x, s);
            y.generation == (if Counts(s) then counter + 1 else counter) ==>
              if s.OpenEnvironment? || (Grants(s) && Reopens(counter, x, s.t)) then y.current
              else if Grants(s) && counter != x.generation then !y.current
              else x.generation == counter && y.current == x.current
  {
  }

  /** What a step makes of the environment of a process that knows the counter after it. */
  lemma CurrentStep(w: World, s: Step, p: nat)
    requires Inv(w) && Enabled(w, s) && p < |w.procs|
    ensures |Do(w, s).procs| == |w.procs|
    ensures var x, y := w.procs[p], Do(w, s).procs[p];
            y.generation == Do(w, s).counter ==>
              if Refreshes(w, s, p) then y.current
              else if Hides(w, s, p) then !y.current
              else x.generation == w.counter && y.current == x.current
  {
    hide Inv, Sound, Do, Enabled, Moved;
    KnownGeneration(w, p);
    if p != s.p {
      OthersChange(w, s, p);
    } else {
      MineChanges(w, s);
      MovedCurrent(w.counter, w.procs[p], s);
    }
  }

  lemma MineChanges(w: World, s: Step)
    requires Enabled(w, s)
    ensures s.p < |w.procs| == |Do(w, s).procs|
    ensures Do(w, s).procs[s.p] == Moved(w.counter, w.procs[s.p], s)
    ensures Do(w, s).counter == if Counts(s) then w.counter + 1 else w.counter
  {
    hide Ready, Moved;
  }

  lemma KnownGeneration(w: World, p: nat)
    requires Inv(w) && p < |w.procs|
    ensures w.procs[p].generation <= w.counter && (w.procs[p].current ==> w.procs[p].generation == w.counter)
  {
    hide Counted;
    assert Sound(w.procs[p], w.counter);
  }

  /** In every run a process that knows the counter has an environment that is current exactly if it was
      opened or reopened, and no request that must not reopen took over a change since. */
  lemma {:induction false} CurrentExactly(worlds: seq<World>, steps: seq<Step>, creator: int, n: nat, p: nat)
    requires IsRun(worlds, steps) && Fresh(worlds[0], creator) && n <= |steps| && p < |worlds[0].procs|
    ensures Inv(worlds[n]) && |worlds[n].procs| == |worlds[0].procs|
    ensures worlds[n].procs[p].generation == worlds[n].counter ==>
              (worlds[n].procs[p].current <==> UpToDate(worlds, steps, n, p))
    decreases n
  {
    hide Do, Enabled, Sound, Inv, Refreshes, Hides;
    RunsKeep(worlds[..n + 1], steps[..n], creator);
    if n > 0 {
      CurrentExactly(worlds, steps, creator, n - 1, p);
      CurrentStep(worlds[n - 1], steps[n - 1], p);
      UpToDateStep(worlds, steps, n - 1, p);
      hide UpToDate;
    }
  }

  /** The lock on the file is the one that the requests call for: write requests for a write lock, holders
      for any lock at all, and no lock without a request. */
  ghost predicate LockFits(x: Proc)
  {
    && (x.hasWrite != {} ==> x.os == Exclusive)
    && (x.hasRead != {} ==> x.os != Unlocked)
    && (x.os == Exclusive ==> x.heldWait + x.freeWait + x.got + x.hasWrite != {})
    && (x.os != Unlocked ==> x.hasRead + x.heldWait + x.freeWait + x.got + x.hasWrite != {})
  }

  lemma SoundFits(x: Proc, counter: int)
    requires Sound(x, counter)
    ensures LockFits(x)
  {
    CountFacts(x);
    hide Counted;
  }

  /** No two processes are at odds: a write lock excludes the holders of all other processes, and holders
      know the generation. */
  ghost predicate Safe(w: World)
  {
    && (forall p, q :: 0 <= p < |w.procs| && 0 <= q < |w.procs| && p != q && w.procs[p].hasWrite != {} ==>
          !Holds(w.procs[q]))
    && (forall p :: 0 <= p < |w.procs| && Holds(w.procs[p]) ==> w.procs[p].generation == w.counter)
    && (forall p :: 0 <= p < |w.procs| ==> LockFits(w.procs[p]))
  }

  /** In every run every world is safe, holders have a current environment exactly if it was opened or
      reopened and no request that must not reopen took over a change since, and every reopening happens
      while no thread of the process holds a lock. */
  lemma RunsAreSafe(worlds: seq<World>, steps: seq<Step>, creator: int)
    requires IsRun(worlds, steps) && Fresh(worlds[0], creator)
    ensures forall n :: 0 <= n < |worlds| ==> Safe(worlds[n]) && |worlds[n].procs| == |worlds[0].procs|
    ensures forall n, p :: 0 <= n < |worlds| && 0 <= p < |worlds[n].procs| && Holds(worlds[n].procs[p]) ==>
              (worlds[n].procs[p].current <==> UpToDate(worlds, steps, n, p))
    ensures forall n :: 0 <= n < |steps| ==>
              steps[n].p < |worlds[n].procs|
              && (IsReopening(worlds[n], steps[n]) ==> !Holds(worlds[n].procs[steps[n].p]))
  {
    hide Do, Enabled, Sound, Counted, Reopens, Holds, SetUp, UpToDate, Grants;
    forall n | 0 <= n < |worlds|
      ensures Inv(worlds[n]) && Safe(worlds[n]) && |worlds[n].procs| == |worlds[0].procs|
    {
      RunsKeep(worlds[..n + 1], steps[..n], creator);
      InvIsSafe(worlds[n]);
      SameProcesses(worlds, steps, n);
    }
    forall n, p | 0 <= n < |worlds| && 0 <= p < |worlds[n].procs| && Holds(worlds[n].procs[p])
      ensures worlds[n].procs[p].current <==> UpToDate(worlds, steps, n, p)
    {
      CurrentExactly(worlds, steps, creator, n, p);
      HoldersKnow(worlds[n], p);
    }
    forall n | 0 <= n < |steps|
      ensures steps[n].p < |worlds[n].procs|
      ensures IsReopening(worlds[n], steps[n]) ==> !Holds(worlds[n].procs[steps[n].p])
    {
      EnabledHere(worlds[n], steps[n]);
      if IsReopening(worlds[n], steps[n]) {
        ReopensAtChange(worlds[n], steps[n]);
        ChangesMetAlone(worlds[n], steps[n]);
      }
    }
  }

  lemma EnabledHere(w: World, s: Step)
    requires Enabled(w, s)
    ensures s.p < |w.procs|
  {
  }

  lemma ReopensAtChange(w: World, s: Step)
    requires s.p < |w.procs| && IsReopening(w, s)
    ensures Grants(s) && w.counter != w.procs[s.p].generation
  {
  }

  lemma {:induction false} SameProcesses(worlds: seq<World>, steps: seq<Step>, n: nat)
    requires IsRun(worlds, steps) && n < |worlds|
    ensures |worlds[n].procs| == |worlds[0].procs|
    decreases n
  {
    if n > 0 {
      SameProcesses(worlds, steps, n - 1);
      assert worlds[n] == Do(worlds[n - 1], steps[n - 1]);
      hide Moved, Ready;
    }
  }

  lemma InvIsSafe(w: World)
    requires Inv(w)
    ensures Safe(w)
  {
    forall p | 0 <= p < |w.procs|
      ensures LockFits(w.procs[p])
    {
      hide Sound, LockFits;
      SoundFits(w.procs[p], w.counter);
    }
    hide Inv, Holds, LockFits;
    forall p, q | 0 <= p < |w.procs| && 0 <= q < |w.procs| && p != q && w.procs[p].hasWrite != {}
      ensures !Holds(w.procs[q])
    {
      WritersExclude(w, p, q);
    }
    forall p | 0 <= p < |w.procs| && Holds(w.procs[p])
      ensures w.procs[p].generation == w.counter
    {
      HoldersKnow(w, p);
    }
  }

  /** A step after which a request holds its lock: it got the file, or passed for free. */
  ghost predicate LetsIn(w: World, s: Step)
    requires Enabled(w, s)
  {
    (s.AskRead? || s.AskWrite? || Grants(s)) && s.t in Holders(Do(w, s).procs[s.p])
  }

  /** A request that may reopen is let in, for free or not, with the current generation, and with a current
      environment exactly if it has just reopened it, or it was opened or reopened before and no request
      that must not reopen took over a change since. */
  lemma GrantsAreCurrent(worlds: seq<World>, steps: seq<Step>, creator: int, n: nat)
    requires IsRun(worlds, steps) && Fresh(worlds[0], creator) && n < |steps|
    requires Enabled(worlds[n], steps[n]) && LetsIn(worlds[n], steps[n])
    requires steps[n].t !in worlds[n + 1].procs[steps[n].p].quiet
    ensures var s, y := steps[n], worlds[n + 1].procs[steps[n].p];
            && y.generation == worlds[n + 1].counter
            && (y.current <==> IsReopening(worlds[n], s) || UpToDate(worlds, steps, n, s.p))
  {
    var p := steps[n].p;
    SameProcesses(worlds, steps, n);
    CurrentExactly(worlds, steps, creator, n + 1, p);
    UpToDateStep(worlds, steps, n, p);
    assert worlds[n + 1] == Do(worlds[n], steps[n]);
    HoldersKnow(worlds[n + 1], p);
    NotHidden(worlds[n], steps[n]);
  }

  lemma NotHidden(w: World, s: Step)
    requires Enabled(w, s) && (s.AskRead? || s.AskWrite? || Grants(s)) && s.t !in Do(w, s).procs[s.p].quiet
    ensures !Hides(w, s, s.p) && !s.OpenEnvironment?
  {
  }

  // ----- requests that open the environment -----

  /** Thread t of process p opened the environment at step j, and has held its lock from then up to n. */
  ghost predicate OpenedInside(worlds: seq<World>, steps: seq<Step>, j: nat, n: nat, p: nat, t: Tid)
    requires n <= |steps| < |worlds|
  {
    j < n && steps[j] == OpenEnvironment(p)
    && forall i :: j <= i <= n ==> p < |worlds[i].procs| && t in Holders(worlds[i].procs[p])
  }

  ghost predicate Opened(steps: seq<Step>, n: nat, p: nat)
    requires n <= |steps|
  {
    exists j :: 0 <= j < n && steps[j] == OpenEnvironment(p)
  }

  /** How the environment is opened: a request that must not reopen, or the creation of the file, opens it
      before it unlocks, and requests that may reopen are made only once it has been opened. */
  ghost predicate OpensProperly(worlds: seq<World>, steps: seq<Step>)
    requires |steps| < |worlds|
  {
    && (forall n :: 0 <= n < |steps| ==> UnlocksOpened(worlds, steps, n))
    && (forall n :: 0 <= n < |steps| ==> AsksOpened(steps, n))
  }

  ghost predicate UnlocksOpened(worlds: seq<World>, steps: seq<Step>, n: nat)
    requires n < |steps| < |worlds|
  {
    var s := steps[n];
    (s.UnlockRead? || s.UnlockWrite?) && s.p < |worlds[n].procs| && s.t in worlds[n].procs[s.p].quiet ==>
      exists j :: OpenedInside(worlds, steps, j, n, s.p, s.t)
  }

  ghost predicate AsksOpened(steps: seq<Step>, n: nat)
    requires n < |steps|
  {
    (steps[n].AskRead? || steps[n].AskWrite?) && !steps[n].dontReopen ==> Opened(steps, n, steps[n].p)
  }

  /** A request that must not reopen is under way. */
  ghost predicate Opening(x: Proc)
  {
    exists t :: t in x.quiet && Known(x, t)
  }

  /** Thread t holds its lock quietly, and has not opened the environment since it got it. */
  ghost predicate Unopened(worlds: seq<World>, steps: seq<Step>, n: nat, p: nat, t: Tid)
    requires n <= |steps| < |worlds| && p < |worlds[n].procs|
  {
    && t in worlds[n].procs[p].quiet && t in Holders(worlds[n].procs[p])
    && forall j :: !OpenedInside(worlds, steps, j, n, p, t)
  }

  /** Before the environment is opened all requests are quiet; afterwards it is current, or somebody who
      hid a change has not opened it yet. */
  ghost predicate OnTheWay(worlds: seq<World>, steps: seq<Step>, n: nat, p: nat)
    requires n <= |steps| < |worlds| && p < |worlds[n].procs|
  {
    var x := worlds[n].procs[p];
    if Opened(steps, n, p)
    then x.generation == worlds[n].counter && !x.current ==> exists t :: Unopened(worlds, steps, n, p, t)
    else forall t :: Known(x, t) ==> t in x.quiet
  }

  /** What a step does to the requests of its own process. */
  ghost predicate KeepsRequests(x: Proc, s: Step, y: Proc, t: Tid)
  {
    && (Known(y, t) ==> Known(x, t) || ((s.AskRead? || s.AskWrite?) && s.t == t))
    && (Known(x, t) ==> (t in y.quiet <==> t in x.quiet))
    && (s.AskRead? || s.AskWrite? ==> (s.t in y.quiet <==> s.dontReopen))
    && (t in Holders(x) ==> t in Holders(y) || ((s.UnlockRead? || s.UnlockWrite?) && s.t == t))
    && (Grants(s) ==> s.t in Holders(y) && Known(x, s.t))
  }

  lemma MovedRequests(counter: int, x: Proc, s: Step, t: Tid)
    requires Counted(x) && Ready(x, s)
    ensures KeepsRequests(x, s, Moved(counter, x, s), t)
  {
    CountFacts(x);
    hide Counted;
    if s.AskRead? || s.AskWrite? {
      AskedRequests(counter, x, s, t);
    } else if s.UnlockRead? || s.UnlockWrite? {
      UnlockedRequests(counter, x, s, t);
    } else {
      GrantedRequests(counter, x, s, t);
    }
  }

  lemma AskedRequests(counter: int, x: Proc, s: Step, t: Tid)
    requires Ready(x, s) && (s.AskRead? || s.AskWrite?)
    ensures KeepsRequests(x, s, Moved(counter, x, s), t)
  {
  }

  lemma UnlockedRequests(counter: int, x: Proc, s: Step, t: Tid)
    requires (s.UnlockRead? && x.readCount > 0) || (s.UnlockWrite? && x.writeCount > 0)
    ensures KeepsRequests(x, s, Moved(counter, x, s), t)
  {
  }

  lemma GrantedRequests(counter: int, x: Proc, s: Step, t: Tid)
    requires Ready(x, s) && (Grants(s) || s.GrantFile? || s.OpenEnvironment?)
    ensures KeepsRequests(x, s, Moved(counter, x, s), t)
  {
    hide Reopens;
  }

  /** What a step does to the requests of any process. */
  lemma RequestsStep(w: World, s: Step, p: nat, t: Tid)
    requires Inv(w) && Enabled(w, s) && p < |w.procs|
    ensures |Do(w, s).procs| == |w.procs|
    ensures if p == s.p then KeepsRequests(w.procs[p], s, Do(w, s).procs[p], t)
            else Do(w, s).procs[p] == w.procs[p].(current := Do(w, s).procs[p].current)
  {
    assert Sound(w.procs[p], w.counter);
    if p != s.p {
      OthersChange(w, s, p);
    } else {
      hide Moved, Ready, KeepsRequests, Counted;
      MovedRequests(w.counter, w.procs[p], s, t);
    }
  }

  lemma {:induction false} AlwaysOnTheWay(worlds: seq<World>, steps: seq<Step>, creator: int, n: nat, p: nat)
    requires IsRun(worlds, steps) && Fresh(worlds[0], creator) && OpensProperly(worlds, steps)
    requires n <= |steps| && p < |worlds[0].procs|
    ensures |worlds[n].procs| == |worlds[0].procs| && OnTheWay(worlds, steps, n, p)
    decreases n
  {
    hide Do, Enabled, Sound, SetUp, OnTheWay, OpensProperly, Opened, Inv;
    SameProcesses(worlds, steps, n);
    if n > 0 {
      SameProcesses(worlds, steps, n - 1);
      AlwaysOnTheWay(worlds, steps, creator, n - 1, p);
      RunsKeep(worlds[..n], steps[..n - 1], creator);
      if Opened(steps, n, p) {
        OpenedOnTheWay(worlds, steps, n - 1, p);
      } else {
        UnopenedOnTheWay(worlds, steps, n - 1, p);
      }
    } else {
      FirstOnTheWay(worlds, steps, creator, p);
    }
  }

  lemma FirstOnTheWay(worlds: seq<World>, steps: seq<Step>, creator: int, p: nat)
    requires |steps| < |worlds| && Fresh(worlds[0], creator) && p < |worlds[0].procs|
    ensures OnTheWay(worlds, steps, 0, p)
  {
    assert SetUp(worlds[0].procs[p], worlds[0].counter, p == creator);
    assert !Opened(steps, 0, p);
  }

  lemma UnopenedOnTheWay(worlds: seq<World>, steps: seq<Step>, n: nat, p: nat)
    requires IsRun(worlds, steps) && OpensProperly(worlds, steps) && n < |steps| && Inv(worlds[n])
    requires p < |worlds[n].procs| == |worlds[n + 1].procs|
    requires OnTheWay(worlds, steps, n, p) && !Opened(steps, n + 1, p)
    ensures OnTheWay(worlds, steps, n + 1, p)
  {
    hide Do, Enabled, Inv;
    var x, y := worlds[n].procs[p], worlds[n + 1].procs[p];
    assert !Opened(steps, n, p);
    assert AsksOpened(steps, n);
    forall t | Known(y, t)
      ensures t in y.quiet
    {
      RequestsStep(worlds[n], steps[n], p, t);
    }
  }

  lemma OpenedOnTheWay(worlds: seq<World>, steps: seq<Step>, n: nat, p: nat)
    requires IsRun(worlds, steps) && OpensProperly(worlds, steps) && n < |steps| && Inv(worlds[n])
    requires p < |worlds[n].procs| == |worlds[n + 1].procs|
    requires OnTheWay(worlds, steps, n, p) && Opened(steps, n + 1, p)
    ensures OnTheWay(worlds, steps, n + 1, p)
  {
    hide Do, Enabled, Inv;
    var w, s, m := worlds[n], steps[n], n + 1;
    var y := worlds[m].procs[p];
    assert worlds[m] == Do(w, s);
    CurrentStep(w, s, p);
    if y.generation == worlds[n + 1].counter && !y.current {
      if Hides(w, s, p) {
        RequestsStep(w, s, p, s.t);
        ChangesMetAlone(w, s);
        assert s.t !in Holders(w.procs[p]);
        assert Unopened(worlds, steps, m, p, s.t);
      } else {
        assert Opened(steps, n, p);
        var t :| Unopened(worlds, steps, n, p, t);
        RequestsStep(w, s, p, t);
        assert UnlocksOpened(worlds, steps, n);
        assert t in Holders(y) && t in y.quiet;
        forall j: nat
          ensures !OpenedInside(worlds, steps, j, m, p, t)
        {
          assert !OpenedInside(worlds, steps, j, n, p, t);
          assert j == n ==> steps[j] != OpenEnvironment(p);
        }
        assert Unopened(worlds, steps, m, p, t);
      }
    }
  }

  lemma NobodyHolds(x: Proc)
    requires !Opening(x) && forall t :: Known(x, t) ==> t in x.quiet
    ensures !Holds(x)
  {
    forall t
      ensures t !in Holders(x)
    {
      assert t in Holders(x) ==> Known(x, t) && t in x.quiet;
    }
    assert Holders(x) == {};
  }

  lemma UnopenedIsOpening(worlds: seq<World>, steps: seq<Step>, n: nat, p: nat)
    requires n <= |steps| < |worlds| && p < |worlds[n].procs|
    ensures (exists t :: Unopened(worlds, steps, n, p, t)) ==> Opening(worlds[n].procs[p])
  {
    forall t | Unopened(worlds, steps, n, p, t)
      ensures Opening(worlds[n].procs[p])
    {
      assert t in worlds[n].procs[p].quiet && Known(worlds[n].procs[p], t);
    }
  }

  /** When the environment is opened as it should be, whoever holds a lock while no request that must not
      reopen is under way has a current environment. */
  lemma HoldersAreCurrent(worlds: seq<World>, steps: seq<Step>, creator: int, n: nat, p: nat)
    requires IsRun(worlds, steps) && Fresh(worlds[0], creator) && OpensProperly(worlds, steps)
    requires n <= |steps| && p < |worlds[n].procs| && Holds(worlds[n].procs[p]) && !Opening(worlds[n].procs[p])
    ensures worlds[n].procs[p].current && worlds[n].procs[p].generation == worlds[n].counter
  {
    hide Sound, OpensProperly, SetUp, Inv, Known, Opening, Opened, Unopened, Holds;
    SameProcesses(worlds, steps, n);
    AlwaysOnTheWay(worlds, steps, creator, n, p);
    RunsKeep(worlds[..n + 1], steps[..n], creator);
    HoldersKnow(worlds[n], p);
    UnopenedIsOpening(worlds, steps, n, p);
    if !Opened(steps, n, p) { NobodyHolds(worlds[n].procs[p]); }
  }

  // ----- two short runs -----

  /** A process of readers only, with an environment that is out of date. */
  function Reading(os: OsLock, readCount: nat, generation: int, blocked: set<Tid>, has: set<Tid>, quiet: set<Tid>): Proc
  {
    Proc(os, readCount, 0, false, generation, blocked, has, {}, {}, {}, {}, quiet, false)
  }

  /** A thread opens the environment and lets another one in before it unlocks. */
  lemma OpeningProperly() returns (worlds: seq<World>, steps: seq<Step>)
    ensures IsRun(worlds, steps) && Fresh(worlds[0], -1) && |worlds[0].procs| == 1 && OpensProperly(worlds, steps)
    ensures var end := worlds[|steps|];
            |end.procs| == 1 && Holds(end.procs[0]) && !Opening(end.procs[0])
  {
    var x0, x1 := Reading(Unlocked, 0, 0, {}, {}, {}), Reading(Unlocked, 1, 0, {1}, {}, {1});
    var x2 := Reading(Shared, 1, 1, {}, {1}, {1});
    var x3 := x2.(current := true);
    var x4 := Reading(Shared, 2, 1, {}, {1, 2}, {1}).(current := true);
    var x5 := Reading(Shared, 1, 1, {}, {2}, {1}).(current := true);
    steps := [AskRead(0, 1, true), GrantRead(0, 1), OpenEnvironment(0), AskRead(0, 2, false), UnlockRead(0, 1)];
    worlds := [World(1, [x0]), World(1, [x1]), World(1, [x2]), World(1, [x3]), World(1, [x4]), World(1, [x5])];
    hide Do, Enabled, Moved, Ready, OpensProperly, Opening, Holds, SetUp, Leads;
    OpeningIsProper(worlds, steps);
    SkippingSteps();
    OpeningSteps();
    hide Reading;
    RunOfFive([x0, x1, x2, x3, x4, x5], steps, worlds);
  }

  lemma OpeningSteps()
    ensures var x := Reading(Shared, 1, 1, {}, {1}, {1});
            && Leads(x, OpenEnvironment(0), x.(current := true))
            && Leads(x.(current := true), AskRead(0, 2, false), Reading(Shared, 2, 1, {}, {1, 2}, {1}).(current := true))
    ensures Leads(Reading(Shared, 2, 1, {}, {1, 2}, {1}).(current := true), UnlockRead(0, 1),
                  Reading(Shared, 1, 1, {}, {2}, {1}).(current := true))
    ensures SetUp(Reading(Unlocked, 0, 0, {}, {}, {}), 1, false)
    ensures var x := Reading(Shared, 1, 1, {}, {2}, {1}).(current := true);
            Holds(x) && !Opening(x)
  {
    assert {1, 2} - {1} == {2} && 2 in {2};
  }

  lemma OpeningIsProper(worlds: seq<World>, steps: seq<Step>)
    requires steps == [AskRead(0, 1, true), GrantRead(0, 1), OpenEnvironment(0), AskRead(0, 2, false), UnlockRead(0, 1)]
    requires |worlds| == 6 && |worlds[2].procs| == |worlds[3].procs| == |worlds[4].procs| == 1
    requires 1 in worlds[2].procs[0].hasRead && 1 in worlds[3].procs[0].hasRead && 1 in worlds[4].procs[0].hasRead
    ensures OpensProperly(worlds, steps)
  {
    assert OpenedInside(worlds, steps, 2, 4, 0, 1);
    assert Opened(steps, 3, 0);
    assert AsksOpened(steps, 0) && AsksOpened(steps, 1) && AsksOpened(steps, 2) && AsksOpened(steps, 3);
    assert UnlocksOpened(worlds, steps, 0) && UnlocksOpened(worlds, steps, 1) && UnlocksOpened(worlds, steps, 2);
    assert UnlocksOpened(worlds, steps, 3) && UnlocksOpened(worlds, steps, 4) && AsksOpened(steps, 4);
  }

  /** A read lock that must not reopen, let go without opening the environment, hides the change it saw
      from the next one, which is granted with an environment that is out of date. */
  lemma SkippingHidesAChange() returns (worlds: seq<World>, steps: seq<Step>)
    ensures IsRun(worlds, steps) && Fresh(worlds[0], -1) && |worlds[0].procs| == 1
    ensures forall k :: 0 <= k < |steps| ==> !steps[k].OpenEnvironment?
    ensures var end := worlds[|steps|];
            |end.procs| == 1 && Holds(end.procs[0]) && end.procs[0].generation == end.counter
            && 2 in end.procs[0].hasRead && 2 !in end.procs[0].quiet && !end.procs[0].current
  {
    var x0, x1 := Reading(Unlocked, 0, 0, {}, {}, {}), Reading(Unlocked, 1, 0, {1}, {}, {1});
    var x2, x3 := Reading(Shared, 1, 1, {}, {1}, {1}), Reading(Unlocked, 0, 1, {}, {}, {1});
    var x4, x5 := Reading(Unlocked, 1, 1, {2}, {}, {1}), Reading(Shared, 1, 1, {}, {2}, {1});
    steps := [AskRead(0, 1, true), GrantRead(0, 1), UnlockRead(0, 1), AskRead(0, 2, false), GrantRead(0, 2)];
    worlds := [World(1, [x0]), World(1, [x1]), World(1, [x2]), World(1, [x3]), World(1, [x4]), World(1, [x5])];
    SkippingSteps();
    hide Do, Enabled, Leads;
    RunOfFive([x0, x1, x2, x3, x4, x5], steps, worlds);
  }

  lemma SkippingSteps()
    ensures Leads(Reading(Unlocked, 0, 0, {}, {}, {}), AskRead(0, 1, true), Reading(Unlocked, 1, 0, {1}, {}, {1}))
    ensures Leads(Reading(Unlocked, 1, 0, {1}, {}, {1}), GrantRead(0, 1), Reading(Shared, 1, 1, {}, {1}, {1}))
    ensures Leads(Reading(Shared, 1, 1, {}, {1}, {1}), UnlockRead(0, 1), Reading(Unlocked, 0, 1, {}, {}, {1}))
    ensures Leads(Reading(Unlocked, 0, 1, {}, {}, {1}), AskRead(0, 2, false), Reading(Unlocked, 1, 1, {2}, {}, {1}))
    ensures Leads(Reading(Unlocked, 1, 1, {2}, {}, {1}), GrantRead(0, 2), Reading(Shared, 1, 1, {}, {2}, {1}))
  {
  }

  /** The step makes of the one process the other, with the counter at 1. */
  ghost predicate Leads(x: Proc, s: Step, y: Proc)
  {
    Ready(x, s) && Moved(1, x, s) == y
  }

  /** Five steps of the only process. */
  lemma RunOfFive(x: seq<Proc>, steps: seq<Step>, worlds: seq<World>)
    requires |x| == |worlds| == 6 && |steps| == 5
    requires forall k :: 0 <= k < 6 ==> worlds[k] == World(1, [x[k]])
    requires forall k :: 0 <= k < 5 ==> steps[k].p == 0 && !Counts(steps[k])
    requires forall k :: 0 <= k < 5 ==> Leads(x[k], steps[k], x[k + 1])
    ensures IsRun(worlds, steps)
  {
    hide Do, Enabled, Leads, Counts;
    forall k | 0 <= k < 5
      ensures Enabled(worlds[k], steps[k]) && worlds[k + 1] == Do(worlds[k], steps[k])
    {
      Single(x[k], steps[k], x[k + 1]);
    }
  }

  /** A step of the only process. */
  lemma Single(x: Proc, s: Step, y: Proc)
    requires s.p == 0 && !Counts(s) && Leads(x, s, y)
    ensures Enabled(World(1, [x]), s) && Do(World(1, [x]), s) == World(1, [y])
  {
    hide Moved, Ready;
  }
}
