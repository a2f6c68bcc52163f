/** The doubly linked list of a connection's open cursors. */
module LmdbCursorList {
  import opened LmdbModel

  class Cursor {
    var btree: CursorList?
    var prev: Cursor?
    var next: Cursor?

    /** A zeroed cursor. */
    constructor ()
      ensures btree == null && prev == null && next == null
    {
      btree, prev, next := null, null, null;
    }
  }

  function Without<T(==)>(s: seq<T>, k: nat): seq<T>
    requires k < |s|
  {
    s[..k] + s[k + 1..]
  }

  function Before(nodes: seq<Cursor>, i: nat): Cursor?
    requires i < |nodes|
  {
    if i == 0 then null else nodes[i - 1]
  }

  function After(nodes: seq<Cursor>, i: nat): Cursor?
    requires i < |nodes|
  {
    if i == |nodes| - 1 then null else nodes[i + 1]
  }

  /** An entry is none of its neighbours, and these are two. */
  lemma Neighbours(s: seq<Cursor>, k: nat)
    requires k < |s| && forall i, j :: 0 <= i < j < |s| ==> s[i] != s[j]
    ensures Before(s, k) != s[k] && After(s, k) != s[k] && (Before(s, k) == null || Before(s, k) != After(s, k))
    ensures Before(s, k) == null <==> k == 0
    ensures After(s, k) == null <==> k == |s| - 1
  {
  }

  /** Which of the neighbours of an entry another one is. */
  lemma Others(s: seq<Cursor>, k: nat, o: nat)
    requires k < |s| && o < |s| && o != k && forall i, j :: 0 <= i < j < |s| ==> s[i] != s[j]
    ensures s[o] != s[k]
    ensures s[o] == Before(s, k) <==> o + 1 == k
    ensures s[o] == After(s, k) <==> o == k + 1
  {
  }

  lemma AppendedLinks(s: seq<Cursor>, c: Cursor, i: nat)
    requires i <= |s|
    ensures (s + [c])[i] == if i < |s| then s[i] else c
    ensures Before(s + [c], i) == if i < |s| then Before(s, i) else if s == [] then null else s[|s| - 1]
    ensures After(s + [c], i) == if i == |s| then null else if i == |s| - 1 then c else After(s, i)
  {
  }

  /** How the neighbours change when entry k is taken out; o is the old index of entry i. */
  lemma WithoutLinks(s: seq<Cursor>, k: nat, i: nat)
    requires k < |s| && i < |s| - 1
    ensures var o := if i < k then i else i + 1;
            && Without(s, k)[i] == s[o]
            && Before(Without(s, k), i) == (if i == k then Before(s, k) else Before(s, o))
            && After(Without(s, k), i) == (if i + 1 == k then After(s, k) else After(s, o))
  {
  }

  lemma WithoutEnds(s: seq<Cursor>, k: nat)
    requires k < |s|
    ensures var w := Without(s, k);
            && |w| == |s| - 1
            && (if w == [] then null else w[0]) == (if k == 0 then After(s, k) else s[0])
            && (if w == [] then null else w[|w| - 1]) == (if k == |s| - 1 then Before(s, k) else s[|s| - 1])
  {
  }

  class CursorList {
    var first: Cursor?
    var last: Cursor?
    /** The cursors on the list, in the order they were opened. */
    ghost var nodes: seq<Cursor>

    /** The ends and links are those of the list of the given cursors. */
    ghost predicate Lists(s: seq<Cursor>)
      reads this, s
    {
      && (first == if s == [] then null else s[0])
      && (last == if s == [] then null else s[|s| - 1])
      && (forall i, j :: 0 <= i < j < |s| ==> s[i] != s[j])
      && (forall i :: 0 <= i < |s| ==> s[i].btree == this)
      && (forall i :: 0 <= i < |s| ==> s[i].prev == Before(s, i) && s[i].next == After(s, i))
    }

    ghost predicate Valid()
      reads this, nodes
    {
      Lists(nodes)
    }

    constructor ()
      ensures Valid() && nodes == []
    {
      first, last, nodes := null, null, [];
    }

    /** Opens a cursor at the end of the list; tableOpens says whether its table can be opened. A cursor
        that is on the list is refused if and only if it has a neighbour. The only one of a list is not
        told from a zeroed one: it becomes its own neighbour, and the links no longer make any list. */
    method Open(c: Cursor, tableOpens: bool) returns (code: Code)
      requires Valid()
      modifies this, c, last
      ensures code == if old(c.prev) != null || old(c.next) != null then Internal else if tableOpens then Ok else Failed
      ensures c in old(nodes) ==> (code == Internal <==> |old(nodes)| > 1)
      ensures code != Ok ==> Valid() && nodes == old(nodes)
      ensures code == Failed ==> c.btree == this && c.prev == null && c.next == null
      ensures code == Ok && c !in old(nodes) ==> Valid() && nodes == old(nodes) + [c]
      ensures code == Ok && c in old(nodes) ==> c.prev == c && c.next == c && forall s: seq<Cursor> :: !Lists(s)
    {
      if c in nodes { Alone(c); }
      hide Lists;
      if c.prev != null || c.next != null {
        return Internal;
      }
      ghost var listed := c in nodes;
      c.btree := this;
      if !tableOpens {
        return Failed;
      }
      Append(c);
      if listed { NoList(c); }
      code := Ok;
    }

    /** A cursor on the list has no neighbours exactly if it is the only one. */
    lemma Alone(c: Cursor)
      requires Valid() && c in nodes
      ensures c.prev == null && c.next == null <==> |nodes| == 1
      ensures c.btree == this && (|nodes| == 1 ==> nodes == [c])
    {
      var k :| 0 <= k < |nodes| && nodes[k] == c;
      assert c.prev == Before(nodes, k) && c.next == After(nodes, k);
    }

    lemma NoList(c: Cursor)
      requires first == c && c.prev == c
      ensures forall s: seq<Cursor> :: !Lists(s)
    {
      forall s: seq<Cursor>
        ensures !Lists(s)
      {
        if s != [] && s[0] == c { assert s[0].prev != Before(s, 0); }
      }
    }

    /** Links a cursor in behind the last one. */
    method Append(c: Cursor)
      requires Valid() && c.btree == this && (c in nodes ==> nodes == [c])
      modifies this, c, last
      ensures c !in old(nodes) ==> Valid() && nodes == old(nodes) + [c]
      ensures c in old(nodes) ==> first == c && c.prev == c && c.next == c && nodes == old(nodes)
    {
      hide Before, After;
      ghost var was := nodes;
      c.prev := last;
      c.next := null;
      if last != null {
        last.next := c;
      } else {
        first := c;
      }
      last := c;
      if c !in was {
        nodes := was + [c];
        forall i | 0 <= i < |was|
          ensures Kept(was, c, i)
        {
          if i < |was| - 1 { Others(was, |was| - 1, i); }
          assert old(was[i].btree) == this && old(was[i].prev) == Before(was, i) && old(was[i].next) == After(was, i);
        }
        hide Kept, Lists;
        LinkedAfter(was, c);
      }
    }

    /** Entry i of the old list is linked as before, but for the link of the last one. */
    ghost predicate Kept(s: seq<Cursor>, c: Cursor, i: nat)
      requires i < |s|
      reads s
    {
      && s[i].btree == this && s[i].prev == Before(s, i)
      && s[i].next == if i == |s| - 1 then c else After(s, i)
    }

    lemma LinkedAfter(s: seq<Cursor>, c: Cursor)
      requires nodes == s + [c] && c !in s && forall i, j :: 0 <= i < j < |s| ==> s[i] != s[j]
      requires first == (if s == [] then c else s[0]) && last == c
      requires c.btree == this && c.prev == (if s == [] then null else s[|s| - 1]) && c.next == null
      requires forall i :: 0 <= i < |s| ==> Kept(s, c, i)
      ensures Valid()
    {
      hide Before, After;
      forall i | 0 <= i < |nodes|
        ensures nodes[i].btree == this && nodes[i].prev == Before(nodes, i) && nodes[i].next == After(nodes, i)
      {
        AppendedLinks(s, c, i);
        assert i < |s| ==> Kept(s, c, i);
      }
    }

    /** Passes over a cursor in both directions. */
    method Unlink(c: Cursor)
      requires c.prev != c && c.next != c && (c.prev == null || c.prev != c.next)
      modifies this, c, c.prev, c.next
      ensures c.btree == null && nodes == old(nodes)
      ensures if old(c.prev) == null then first == old(c.next)
              else first == old(first) && old(c.prev).next == old(c.next)
                   && old(c.prev).prev == old(c.prev.prev) && old(c.prev).btree == old(c.prev.btree)
      ensures if old(c.next) == null then last == old(c.prev)
              else last == old(last) && old(c.next).prev == old(c.prev)
                   && old(c.next).next == old(c.next.next) && old(c.next).btree == old(c.next.btree)
    {
      if c.prev != null {
        c.prev.next := c.next;
      } else {
        first := c.next;
      }
      if c.next != null {
        c.next.prev := c.prev;
      } else {
        last := c.prev;
      }
      c.btree := null;
    }

    /** Takes a cursor off the list. A cursor whose opening failed also claims to be on it; closing that
        one cuts the whole list off, so the list survives just when it was empty. */
    method Close(c: Cursor, ghost k: nat)
      requires Valid() && c.btree == this
      requires if c in nodes then k < |nodes| && nodes[k] == c else c.prev == null && c.next == null
      modifies this, c, c.prev, c.next
      ensures c.btree == null
      ensures c in old(nodes) ==> Valid() && nodes == Without(old(nodes), k)
      ensures c !in old(nodes) ==> first == null && last == null && nodes == old(nodes)
      ensures c !in old(nodes) ==> (Valid() <==> old(nodes) == [])
    {
      hide Without, Before, After;
      ghost var was := nodes;
      ghost var listed := c in nodes;
      if listed {
        Neighbours(was, k);
        assert c.prev == Before(was, k) && c.next == After(was, k);
      }
      Unlink(c);
      if listed {
        nodes := Without(was, k);
        forall o | 0 <= o < |was| && o != k
          ensures PassedOver(was, k, o)
        {
          Others(was, k, o);
          assert old(was[o].btree) == this && old(was[o].prev) == Before(was, o) && old(was[o].next) == After(was, o);
        }
        hide PassedOver, Lists;
        StillLinked(was, k);
      }
    }

    /** Links in which only entry k is passed over are the links of the list without it. */
    lemma StillLinked(s: seq<Cursor>, k: nat)
      requires k < |s| && nodes == Without(s, k)
      requires forall i, j :: 0 <= i < j < |s| ==> s[i] != s[j]
      requires first == if k == 0 then After(s, k) else s[0]
      requires last == if k == |s| - 1 then Before(s, k) else s[|s| - 1]
      requires forall o :: 0 <= o < |s| && o != k ==> PassedOver(s, k, o)
      ensures Valid()
    {
      WithoutEnds(s, k);
      hide Without, Before, After;
      forall i | 0 <= i < |nodes|
        ensures nodes[i].btree == this && nodes[i].prev == Before(nodes, i) && nodes[i].next == After(nodes, i)
      {
        WithoutLinks(s, k, i);
        assert PassedOver(s, k, if i < k then i else i + 1);
      }
      hide PassedOver;
      forall i, j | 0 <= i < j < |nodes|
        ensures nodes[i] != nodes[j]
      {
        WithoutLinks(s, k, i);
        WithoutLinks(s, k, j);
      }
    }

    /** Entry o of the old list is linked as before, but for its links to entry k. */
    ghost predicate PassedOver(s: seq<Cursor>, k: nat, o: nat)
      requires k < |s| && o < |s|
      reads s
    {
      && s[o].btree == this
      && s[o].prev == (if o == k + 1 then Before(s, k) else Before(s, o))
      && s[o].next == (if o + 1 == k then After(s, k) else After(s, o))
    }

    /** Following the links from the first cursor meets every open cursor once, in order. */
    method Walk() returns (met: seq<Cursor>)
      requires Valid()
      ensures met == nodes
    {
      met := [];
      var c := first;
      while c != null
        invariant |met| <= |nodes| && met == nodes[..|met|]
        invariant c == if |met| == |nodes| then null else nodes[|met|]
        decreases |nodes| - |met|
      {
        met := met + [c];
        c := c.next;
      }
    }

    /** The other way round, from the last. */
    method WalkBack() returns (met: seq<Cursor>)
      requires Valid()
      ensures |met| == |nodes| && forall i :: 0 <= i < |met| ==> met[i] == nodes[|nodes| - 1 - i]
    {
      met := [];
      var c := last;
      while c != null
        invariant |met| <= |nodes| && forall i :: 0 <= i < |met| ==> met[i] == nodes[|nodes| - 1 - i]
        invariant c == if |met| == |nodes| then null else nodes[|nodes| - 1 - |met|]
        decreases |nodes| - |met|
      {
        met := met + [c];
        c := c.prev;
      }
    }
  }

  // ----- any order of calls -----

  /** Opening a zeroed cursor, where the table opens or does not, and closing the i-th that was opened. */
  datatype Call = OpenNew | OpenFailing | CloseOf(i: nat)

  /** How many cursors were opened. */
  function Opened(calls: seq<Call>): nat
  {
    if calls == [] then 0
    else Opened(calls[..|calls| - 1]) + if calls[|calls| - 1] == OpenNew then 1 else 0
  }

  /** Only what has been opened is closed, and only once. */
  ghost predicate Proper(calls: seq<Call>)
  {
    forall j :: 0 <= j < |calls| && calls[j].CloseOf? ==> calls[j].i < Opened(calls[..j]) && calls[j] !in calls[..j]
  }

  /** Of the first n cursors opened those that the calls do not close, in the order of opening. */
  ghost function StillOpen(cs: seq<Cursor>, calls: seq<Call>, n: nat): seq<Cursor>
    requires n <= |cs|
  {
    if n == 0 then []
    else StillOpen(cs, calls, n - 1) + if CloseOf(n - 1) in calls then [] else [cs[n - 1]]
  }

  lemma {:induction false} StillOpenAmong(cs: seq<Cursor>, calls: seq<Call>, n: nat)
    requires n <= |cs|
    ensures forall k :: 0 <= k < |StillOpen(cs, calls, n)| ==> StillOpen(cs, calls, n)[k] in cs
  {
    if n > 0 { StillOpenAmong(cs, calls, n - 1); }
  }

  lemma {:induction false} StillOpenSame(cs: seq<Cursor>, calls: seq<Call>, ds: seq<Cursor>, calls': seq<Call>,
                                         n: nat)
    requires n <= |cs| && n <= |ds| && forall k :: 0 <= k < n ==> cs[k] == ds[k]
    requires forall k :: 0 <= k < n ==> (CloseOf(k) in calls <==> CloseOf(k) in calls')
    ensures StillOpen(cs, calls, n) == StillOpen(ds, calls', n)
  {
    if n > 0 { StillOpenSame(cs, calls, ds, calls', n - 1); }
  }

  lemma StillOpenStep(cs: seq<Cursor>, calls: seq<Call>, n: nat)
    requires 0 < n <= |cs|
    ensures StillOpen(cs, calls, n)
            == StillOpen(cs, calls, n - 1) + if CloseOf(n - 1) in calls then [] else [cs[n - 1]]
  {
  }

  lemma OneMoreCall(calls: seq<Call>, call: Call)
    ensures forall c :: c in calls + [call] <==> c in calls || c == call
    ensures Opened(calls + [call]) == Opened(calls) + if call == OpenNew then 1 else 0
  {
    assert (calls + [call])[..|calls|] == calls;
  }

  lemma WithoutFront<T>(a: seq<T>, b: seq<T>, k: nat)
    requires k < |a|
    ensures Without(a + b, k) == Without(a, k) + b
  {
  }

  /** Closing cursor i takes out the one entry that it is on. */
  lemma {:induction false} StillOpenWithout(cs: seq<Cursor>, calls: seq<Call>, n: nat, i: nat)
    requires i < n <= |cs| && CloseOf(i) !in calls
    ensures var s, k := StillOpen(cs, calls, n), |StillOpen(cs, calls, i)|;
            k < |s| && s[k] == cs[i] && StillOpen(cs, calls + [CloseOf(i)], n) == Without(s, k)
  {
    hide StillOpen;
    var more := calls + [CloseOf(i)];
    OneMoreCall(calls, CloseOf(i));
    StillOpenStep(cs, calls, n);
    StillOpenStep(cs, more, n);
    if i == n - 1 {
      StillOpenSame(cs, calls, cs, more, i);
    } else {
      StillOpenWithout(cs, calls, n - 1, i);
      assert CloseOf(n - 1) in more <==> CloseOf(n - 1) in calls;
      hide Without;
      WithoutFront(StillOpen(cs, calls, n - 1), if CloseOf(n - 1) in calls then [] else [cs[n - 1]],
                   |StillOpen(cs, calls, i)|);
    }
  }

  /** The cursors are those opened, and the list is that of the ones still open. */
  ghost predicate Reflects(l: CursorList, cs: seq<Cursor>, calls: seq<Call>)
    reads l, l.nodes
  {
    && |cs| == Opened(calls)
    && l.Valid() && l.nodes == StillOpen(cs, calls, |cs|)
    && (forall i, j :: 0 <= i < j < |cs| ==> cs[i] != cs[j])
    && (forall k: nat :: CloseOf(k) in calls ==> k < |cs|)
  }

  lemma OneMoreOpen(l: CursorList, cs: seq<Cursor>, calls: seq<Call>, c: Cursor)
    requires |cs| == Opened(calls) && l.Valid() && l.nodes == StillOpen(cs, calls, |cs|) + [c]
    requires c !in cs && forall i, j :: 0 <= i < j < |cs| ==> cs[i] != cs[j]
    requires forall k: nat :: CloseOf(k) in calls ==> k < |cs|
    ensures Reflects(l, cs + [c], calls + [OpenNew])
  {
    hide CursorList.Lists;
    OneMoreCall(calls, OpenNew);
    StillOpenSame(cs, calls, cs + [c], calls + [OpenNew], |cs|);
  }

  lemma OneLessOpen(l: CursorList, cs: seq<Cursor>, calls: seq<Call>, i: nat)
    requires |cs| == Opened(calls) && l.Valid() && i < |cs| && CloseOf(i) !in calls
    requires |StillOpen(cs, calls, i)| < |StillOpen(cs, calls, |cs|)|
    requires l.nodes == Without(StillOpen(cs, calls, |cs|), |StillOpen(cs, calls, i)|)
    requires forall i, j :: 0 <= i < j < |cs| ==> cs[i] != cs[j]
    requires forall k: nat :: CloseOf(k) in calls ==> k < |cs|
    ensures Reflects(l, cs, calls + [CloseOf(i)])
  {
    hide CursorList.Lists, Without;
    OneMoreCall(calls, CloseOf(i));
    StillOpenWithout(cs, calls, |cs|, i);
  }

  lemma NoneMore(l: CursorList, cs: seq<Cursor>, calls: seq<Call>)
    requires Reflects(l, cs, calls)
    ensures Reflects(l, cs, calls + [OpenFailing])
  {
    hide CursorList.Lists;
    OneMoreCall(calls, OpenFailing);
    StillOpenSame(cs, calls, cs, calls + [OpenFailing], |cs|);
  }

  lemma NoCalls(l: CursorList)
    requires l.Valid() && l.nodes == []
    ensures Reflects(l, [], [])
  {
  }

  method DoClose(l: CursorList, cs: seq<Cursor>, i: nat, ghost calls: seq<Call>)
    requires Reflects(l, cs, calls) && i < |cs| && CloseOf(i) !in calls
    modifies l, l.nodes
    ensures Reflects(l, cs, calls + [CloseOf(i)])
  {
    hide CursorList.Lists, Without, StillOpen, Before, After;
    StillOpenWithout(cs, calls, |cs|, i);
    ghost var k := |StillOpen(cs, calls, i)|;
    NodeLinks(l, k);
    l.Close(cs[i], k);
    OneLessOpen(l, cs, calls, i);
  }

  method DoOpen(l: CursorList, cs: seq<Cursor>, tableOpens: bool, ghost calls: seq<Call>) returns (more: seq<Cursor>)
    requires Reflects(l, cs, calls)
    modifies l, l.nodes
    ensures Reflects(l, more, calls + [if tableOpens then OpenNew else OpenFailing])
    ensures forall k :: 0 <= k < |more| ==> more[k] in cs || fresh(more[k])
  {
    hide CursorList.Lists, StillOpen;
    LastNode(l);
    var c := new Cursor();
    var code := l.Open(c, tableOpens);
    if tableOpens {
      OneMoreOpen(l, cs, calls, c);
      more := cs + [c];
    } else {
      NoneMore(l, cs, calls);
      more := cs;
    }
  }

  /** Any calls on a new list leave on it what was opened and not closed, in the order of opening. */
  method DoCalls(calls: seq<Call>) returns (l: CursorList, cs: seq<Cursor>)
    requires Proper(calls)
    ensures Reflects(l, cs, calls)
  {
    l := new CursorList();
    cs := [];
    hide Reflects, StillOpen;
    NoCalls(l);
    for j := 0 to |calls|
      invariant Reflects(l, cs, calls[..j]) && fresh(l)
      invariant forall k :: 0 <= k < |cs| ==> fresh(cs[k])
    {
      assert calls[..j + 1] == calls[..j] + [calls[j]];
      NodesAmong(l, cs, calls[..j]);
      if calls[j].CloseOf? {
        DoClose(l, cs, calls[j].i, calls[..j]);
      } else {
        cs := DoOpen(l, cs, calls[j].OpenNew?, calls[..j]);
      }
    }
    assert calls[..|calls|] == calls;
  }

  lemma NodesAmong(l: CursorList, cs: seq<Cursor>, calls: seq<Call>)
    requires Reflects(l, cs, calls)
    ensures |cs| == Opened(calls) && forall k :: 0 <= k < |l.nodes| ==> l.nodes[k] in cs
  {
    StillOpenAmong(cs, calls, |cs|);
    hide CursorList.Lists, StillOpen;
  }

  lemma LastNode(l: CursorList)
    requires l.Valid()
    ensures l.last == null || l.last in l.nodes
  {
  }

  lemma NodeLinks(l: CursorList, k: nat)
    requires l.Valid() && k < |l.nodes|
    ensures var c := l.nodes[k];
            c.btree == l && (c.prev == null || c.prev in l.nodes) && (c.next == null || c.next in l.nodes)
  {
  }

  /** A list of one cursor, cut off by closing another one whose table did not open. */
  method FailedOpenInput() returns (l: CursorList, a: Cursor)
    ensures l.nodes == [a] && l.first == null && l.last == null && !l.Valid()
  {
    l := new CursorList();
    a := new Cursor();
    var first := l.Open(a, true);
    var c := new Cursor();
    var failed := l.Open(c, false);
    l.Close(c, 0);
  }

  /** A list of one cursor that is opened again. */
  method OpenedTwiceInput() returns (l: CursorList, a: Cursor)
    ensures a.prev == a && a.next == a && forall s: seq<Cursor> :: !l.Lists(s)
  {
    l := new CursorList();
    a := new Cursor();
    var first := l.Open(a, true);
    var again := l.Open(a, true);
  }
}
