/**
 * The list of sessions and the connection counters (src/socksv5_server.c,
 * src/metrics.c): a doubly linked list threaded through the session structures,
 * appended to at each accept and unlinked from at each teardown.
 */
module SessionLists {
  import opened Base

  /** The links of a session; `serial` numbers the accepts. */
  class Node {
    var next: Node?
    var prev: Node?
    const clientFd: int
    ghost const serial: nat

    constructor (clientFd: int, ghost serial: nat)
      ensures next == null && prev == null && this.clientFd == clientFd && this.serial == serial
    {
      this.clientFd, this.serial := clientFd, serial;
      next, prev := null, null;
    }
  }

  // ---------------------------------------------------------------------
  // What the list and the counters mean

  /** The serials of the live sessions in list order, the accepts and the teardowns so far. */
  datatype Count = Count(serials: seq<nat>, historical: nat, closed: nat)

  const NO_SESSIONS := Count([], 0, 0)

  datatype PoolOp = Accepting | Closing(serial: nat)

  /** The first occurrence of `n` taken out. */
  function Drop(s: seq<nat>, n: nat): seq<nat> {
    if s == [] then [] else if s[0] == n then s[1..] else [s[0]] + Drop(s[1..], n)
  }

  function Apply(c: Count, op: PoolOp): Count {
    match op
    case Accepting =>
      if |c.serials| >= MAX_CONCURRENT_CONNECTIONS then c
      else Count(c.serials + [c.historical], c.historical + 1, c.closed)
    case Closing(n) => if n in c.serials then Count(Drop(c.serials, n), c.historical, c.closed + 1) else c
  }

  function Replay(c: Count, ops: seq<PoolOp>): Count
    decreases |ops|
  {
    if ops == [] then c else Replay(Apply(c, ops[0]), ops[1..])
  }

  /** Only live sessions are torn down. */
  ghost predicate LiveOnly(c: Count, ops: seq<PoolOp>)
    decreases |ops|
  {
    ops == [] || ((ops[0].Closing? ==> ops[0].serial in c.serials) && LiveOnly(Apply(c, ops[0]), ops[1..]))
  }

  /** Strictly increasing, all from the first `n` accepts. */
  ghost predicate InOrder(s: seq<nat>, n: int) {
    && (forall i, j :: 0 <= i < j < |s| ==> s[i] < s[j])
    && (forall i :: 0 <= i < |s| ==> s[i] < n)
  }

  ghost predicate Sane(c: Count) {
    InOrder(c.serials, c.historical) && c.historical - c.closed == |c.serials| <= MAX_CONCURRENT_CONNECTIONS
  }

  lemma TailInOrder(s: seq<nat>, n: int)
    requires s != [] && InOrder(s, n)
    ensures InOrder(s[1..], n) && forall m :: m in s[1..] ==> s[0] < m
  {
    assert forall i :: 0 <= i < |s[1..]| ==> s[1..][i] == s[i + 1];
  }

  lemma ConsInOrder(a: nat, s: seq<nat>, n: int)
    requires InOrder(s, n) && a < n && forall m :: m in s ==> a < m
    ensures InOrder([a] + s, n)
  {
    var t := [a] + s;
    assert forall i :: 0 < i < |t| ==> t[i] == s[i - 1] && s[i - 1] in s;
  }

  lemma {:induction false} DropMiddle(a: seq<nat>, x: nat, b: seq<nat>)
    requires x !in a
    ensures Drop(a + ([x] + b), x) == a + b
    decreases |a|
  {
    var s := a + ([x] + b);
    if a == [] {
      assert s == [x] + b;
    } else {
      assert s[1..] == a[1..] + ([x] + b) && a == [a[0]] + a[1..];
      DropMiddle(a[1..], x, b);
    }
  }

  lemma DropAt(s: seq<nat>, k: nat, n: int)
    requires k < |s| && InOrder(s, n)
    ensures Drop(s, s[k]) == s[..k] + s[k + 1..]
  {
    NotBefore(s, k, n);
    SplitAt(s, k);
    DropMiddle(s[..k], s[k], s[k + 1..]);
  }

  lemma NotBefore(s: seq<nat>, k: nat, n: int)
    requires k < |s| && InOrder(s, n)
    ensures s[k] !in s[..k]
  {
  }

  lemma SplitAt(s: seq<nat>, k: nat)
    requires k < |s|
    ensures s == s[..k] + ([s[k]] + s[k + 1..])
  {
  }

  lemma {:induction false} DropKeepsOrder(s: seq<nat>, x: nat, n: int)
    requires InOrder(s, n)
    ensures InOrder(Drop(s, x), n) && forall m :: m in Drop(s, x) <==> m in s && m != x
    decreases |s|
  {
    if s != [] {
      TailInOrder(s, n);
      assert s == [s[0]] + s[1..];
      if s[0] != x {
        DropKeepsOrder(s[1..], x, n);
        ConsInOrder(s[0], Drop(s[1..], x), n);
      }
    }
  }

  /** One operation keeps the counters right, and changes one session's liveness at most. */
  lemma ApplyKeepsSane(c: Count, op: PoolOp)
    requires Sane(c) && (op.Closing? ==> op.serial in c.serials)
    ensures var t := Apply(c, op);
            && Sane(t) && t.historical >= c.historical
            && forall m :: m in t.serials <==> (m in c.serials || c.historical <= m < t.historical) && op != Closing(m)
  {
    if op.Closing? {
      var k :| 0 <= k < |c.serials| && c.serials[k] == op.serial;
      DropAt(c.serials, k, c.historical);
      DropKeepsOrder(c.serials, op.serial, c.historical);
    }
  }

  /**
   * After any accepts and teardowns the list is exactly the sessions accepted and
   * not torn down, in accept order, and concurrent = historical - closed = its
   * length, at most 500.
   */
  lemma {:induction false} ListIsTheLiveSessions(ops: seq<PoolOp>, c: Count)
    requires Sane(c) && LiveOnly(c, ops)
    ensures var t := Replay(c, ops);
            && Sane(t) && t.historical >= c.historical
            && forall m :: m in t.serials <==>
                 (m in c.serials || c.historical <= m < t.historical) && Closing(m) !in ops
    decreases |ops|
  {
    if ops != [] {
      ApplyKeepsSane(c, ops[0]);
      var c1 := Apply(c, ops[0]);
      ListIsTheLiveSessions(ops[1..], c1);
      var t := Replay(c, ops);
      forall m: nat
        ensures m in t.serials <==> (m in c.serials || c.historical <= m < t.historical) && Closing(m) !in ops
      {
        assert Closing(m) in ops <==> ops[0] == Closing(m) || Closing(m) in ops[1..];
        if ops[0] == Closing(m) {
          assert m in c.serials && m < c.historical && m !in c1.serials;
        }
      }
    }
  }

  // ---------------------------------------------------------------------
  // The linked list

  ghost function Without(s: seq<Node>, k: nat): seq<Node>
    requires k < |s|
  {
    s[..k] + s[k + 1..]
  }

  lemma WithoutAt(s: seq<Node>, k: nat)
    requires k < |s|
    ensures |Without(s, k)| == |s| - 1
    ensures forall i :: 0 <= i < |s| - 1 ==> Without(s, k)[i] == if i < k then s[i] else s[i + 1]
  {
  }

  ghost predicate Numbered(s: seq<Node>, serials: seq<nat>) {
    |serials| == |s| && forall i :: 0 <= i < |s| ==> serials[i] == s[i].serial
  }

  lemma AppendKeepsNumbers(s: seq<Node>, c: Count, node: Node)
    requires Numbered(s, c.serials) && Sane(c) && node.serial == c.historical && |s| < MAX_CONCURRENT_CONNECTIONS
    ensures Numbered(s + [node], Apply(c, Accepting).serials) && Sane(Apply(c, Accepting))
  {
  }

  lemma RemovalKeepsNumbers(s: seq<Node>, c: Count, k: nat)
    requires k < |s| && Numbered(s, c.serials) && Sane(c)
    ensures Numbered(Without(s, k), Apply(c, Closing(s[k].serial)).serials)
  {
    DropAt(c.serials, k, c.historical);
  }

  class Pool {
    var first: Node?
    var historical: int
    var concurrent: int

    /** The live sessions, and what the list and the counters say of them. */
    ghost var list: seq<Node>
    ghost var view: Count

    /** From `first`, the links run through exactly the live sessions, both ways. */
    ghost predicate Linked()
      reads this`first, this`list, list
    {
      if list == [] then first == null
      else
      && first == list[0]
      && (forall i {:trigger list[i].next} :: 0 <= i < |list| ==>
            list[i].next == if i + 1 < |list| then list[i + 1] else null)
      && (forall i {:trigger list[i].prev} :: 0 <= i < |list| ==>
            list[i].prev == if i > 0 then list[i - 1] else null)
      && (forall i, j :: 0 <= i < j < |list| ==> list[i] != list[j])
    }

    ghost predicate Counted()
      reads this`historical, this`concurrent, this`view, this`list
    {
      && view.historical == historical && concurrent == historical - view.closed && Sane(view)
      && Numbered(list, view.serials)
    }

    ghost predicate Valid()
      reads this, list
    {
      Linked() && Counted()
    }

    constructor ()
      ensures Valid() && list == [] && view == NO_SESSIONS
    {
      first, historical, concurrent, list, view := null, 0, 0, [], Count([], 0, 0);
    }

    /** The part of new_socksv5 that links the structure at the end. */
    method Append(s: Node)
      requires Linked() && s !in list
      modifies this`first, this`list, list, s
      ensures Linked() && list == old(list) + [s]
    {
      if first == null {
        first := s;
        s.prev, s.next := null, null;
      } else {
        var aux := first;
        ghost var i := 0;
        while aux.next != null
          invariant 0 <= i < |list| && aux == list[i]
          decreases |list| - i
        {
          aux := aux.next;
          i := i + 1;
        }
        aux.next := s;
        s.prev := aux;
        s.next := null;
      }
      list := list + [s];
    }

    /** socksv5_passive_accept, when the kernel has a connection to give; refused at the limit. */
    method Accept(clientFd: int) returns (s: Node?)
      requires Valid()
      modifies this, list
      ensures Valid() && view == Apply(old(view), Accepting)
      ensures s == null <==> |old(list)| == MAX_CONCURRENT_CONNECTIONS
      ensures if s == null then list == old(list) else fresh(s) && s.clientFd == clientFd && list == old(list) + [s]
    {
      s := null;
      // the counter is returned as a uint16_t
      if concurrent % 0x1_0000 < MAX_CONCURRENT_CONNECTIONS {
        var node := new Node(clientFd, historical);
        AppendKeepsNumbers(list, view, node);
        Append(node);
        historical, concurrent := historical + 1, concurrent + 1;
        view := Apply(view, Accepting);
        s := node;
      }
    }

    /** socksv5_destroy: unlinks one session. */
    method Destroy(s: Node, ghost k: nat)
      requires Linked() && k < |list| && list[k] == s
      modifies this`first, this`list, list
      ensures Linked() && list == Without(old(list), k)
      ensures s.next == old(s.next) && s !in list
    {
      ghost var was := list;
      WithoutAt(was, k);
      assert s.next == (if k + 1 < |was| then was[k + 1] else null) && s.prev == (if k > 0 then was[k - 1] else null);
      if s.next != null {
        s.next.prev := s.prev;
      }
      if s.prev != null {
        s.prev.next := s.next;
      } else {
        first := s.next;
      }
      first := if first == s then null else first;
      list := Without(list, k);
    }

    /** socksv5_done, as far as the list and the counters go. */
    method Done(s: Node) returns (ghost k: nat)
      requires Valid() && s in list
      modifies this, list
      ensures Valid() && view == Apply(old(view), Closing(s.serial))
      ensures k < |old(list)| && old(list)[k] == s && list == Without(old(list), k) && s !in list
    {
      k :| 0 <= k < |list| && list[k] == s;
      assert view.serials[k] == s.serial;
      ApplyKeepsSane(view, Closing(s.serial));
      RemovalKeepsNumbers(list, view, k);
      concurrent := concurrent - 1;
      view := Apply(view, Closing(s.serial));
      Destroy(s, k);
    }

    /** destroy_socksv5_pool, at shutdown: the list is emptied; the counters are left as they are. */
    method DestroyPool()
      requires Linked()
      modifies this`first, this`list, list
      ensures Linked() && list == [] && first == null
    {
      var aux := first;
      while aux != null
        invariant Linked() && aux == first
        invariant |list| <= |old(list)| && list == old(list)[|old(list)| - |list|..]
        decreases |list|
      {
        var current := aux;
        aux := aux.next;
        Destroy(current, 0);
      }
    }
  }
}
