/**
 * What the selector's table means (src/selector.c): a map from registered
 * descriptors to their interest and attachment; the capacity rule; and one
 * dispatch pass over a table that its own callbacks change.
 */
module SelectorTables {
  import opened Base
  import opened Interests

  /** FD_SETSIZE. */
  const ITEMS_MAX_SIZE := 1024

  predicate ValidFd(fd: int) {
    0 <= fd < ITEMS_MAX_SIZE
  }

  datatype Entry = Entry(interest: Interest, data: nat)

  type Table = map<int, Entry>

  /**
   * `OutOfTable` is no status of the source: it stands for an access past the end of the
   * table, which nothing checks.
   */
  datatype Status = Success | NoMem | MaxFd | BadArgs | FdInUse | IoError | OutOfTable

  // ---------------------------------------------------------------------
  // Capacity

  function Pow2(k: nat): (r: nat)
    ensures r > 0
  {
    if k == 0 then 1 else 2 * Pow2(k - 1)
  }

  /** What the shift loop computes: one doubling per binary digit of `n`. */
  function PowerAbove(n: nat): nat {
    if n == 0 then 1 else 2 * PowerAbove(n / 2)
  }

  /** The same with an accumulator, as the loop does it. */
  function Shift(n: nat, acc: nat): nat {
    if n == 0 then acc else Shift(n / 2, 2 * acc)
  }

  lemma DoubleEither(a: int, b: int)
    ensures (2 * a) * b == a * (2 * b)
  {
  }

  lemma {:induction false} ShiftScales(n: nat, acc: nat)
    ensures Shift(n, acc) == acc * PowerAbove(n)
    decreases n
  {
    if n > 0 {
      ShiftScales(n / 2, 2 * acc);
      DoubleEither(acc, PowerAbove(n / 2));
    }
  }

  function Capacity(n: nat): nat {
    (if PowerAbove(n) > ITEMS_MAX_SIZE then ITEMS_MAX_SIZE else PowerAbove(n)) + 1
  }

  lemma {:induction false} Pow2Monotone(j: nat, k: nat)
    requires j <= k
    ensures Pow2(j) <= Pow2(k)
    decreases k
  {
    if j < k {
      Pow2Monotone(j, k - 1);
    }
  }

  /** It is the least power of two above `n`. */
  lemma {:induction false} PowerAboveIsLeast(n: nat, k: nat)
    ensures PowerAbove(n) <= Pow2(k) <==> n < Pow2(k)
    decreases n
  {
    if n == 0 {
      Pow2Monotone(0, k);
    } else if k == 0 {
      PowerAboveExceeds(n);
    } else {
      PowerAboveIsLeast(n / 2, k - 1);
    }
  }

  lemma {:induction false} PowerAboveExceeds(n: nat)
    ensures n < PowerAbove(n)
    decreases n
  {
    if n > 0 {
      PowerAboveExceeds(n / 2);
    }
  }

  lemma {:induction false} PowerAboveIsPower(n: nat) returns (k: nat)
    ensures PowerAbove(n) == Pow2(k)
    decreases n
  {
    if n == 0 {
      k := 0;
    } else {
      k := PowerAboveIsPower(n / 2);
      k := k + 1;
    }
  }

  /** A request the platform can meet gets a slot of its own, within 1025. */
  lemma CapacityBounds(n: nat)
    ensures Capacity(n) <= ITEMS_MAX_SIZE + 1
    ensures n < Capacity(n) <==> n <= ITEMS_MAX_SIZE
  {
    PowerAboveExceeds(n);
  }

  /**
   * Operations other than register index the table with no further check, and
   * register itself misjudges fd == size; so a fresh table is safe for every
   * valid descriptor for ever iff it was asked for with at least 512 elements.
   */
  lemma EveryDescriptorInBounds(n: nat)
    requires n <= ITEMS_MAX_SIZE
    ensures (forall fd :: ValidFd(fd) ==> fd < Capacity(n)) <==> n >= 512
  {
    assert Pow2(9) == 512 by { assert Pow2(5) == 32; }
    PowerAboveIsLeast(n, 9);
    var k := PowerAboveIsPower(n);
    if n >= 512 {
      if k <= 9 { Pow2Monotone(k, 9); }
      Pow2Monotone(10, k);
      assert Capacity(n) == ITEMS_MAX_SIZE + 1;
    } else {
      assert ValidFd(1023) && Capacity(n) <= 513;
    }
  }

  // ---------------------------------------------------------------------
  // Operations on the table

  datatype SelOp =
    | Register(fd: int, interest: Interest, data: nat)
    | Unregister(fd: int)
    | SetInterest(fd: int, interest: Interest)
    | AddInterest(fd: int, interest: Interest)
    | DropInterest(fd: int, interest: Interest)

  function ApplyOp(t: Table, op: SelOp): Table {
    match op
    case Register(fd, i, d) => if ValidFd(fd) && fd !in t then t[fd := Entry(i, d)] else t
    case Unregister(fd) => t - {fd}
    case SetInterest(fd, i) => if fd in t then t[fd := Entry(i, t[fd].data)] else t
    case AddInterest(fd, i) => if fd in t then t[fd := Entry(Additive(t[fd].interest, i), t[fd].data)] else t
    case DropInterest(fd, i) => if fd in t then t[fd := Entry(Reduction(t[fd].interest, i), t[fd].data)] else t
  }

  /** A callback is some sequence of these operations. */
  function ApplyOps(t: Table, ops: seq<SelOp>): Table
    decreases |ops|
  {
    if ops == [] then t else ApplyOps(ApplyOp(t, ops[0]), ops[1..])
  }

  predicate Registers(ops: seq<SelOp>, fd: int) {
    exists op :: op in ops && op.Register? && op.fd == fd
  }

  /** A descriptor absent before and present after was registered in between. */
  lemma {:induction false} AppearsByRegister(t: Table, ops: seq<SelOp>, fd: int)
    requires fd !in t && fd in ApplyOps(t, ops)
    ensures Registers(ops, fd)
    decreases |ops|
  {
    var t1 := ApplyOp(t, ops[0]);
    if fd in t1 {
      assert ops[0] in ops;
    } else {
      AppearsByRegister(t1, ops[1..], fd);
    }
  }

  // ---------------------------------------------------------------------
  // A dispatch pass

  /** A callback made: to whom, why, with which attachment, and the table at that moment. */
  datatype Call = Call(fd: int, op: Op, data: nat, before: Table)

  /** Callbacks are whatever they like: `script(k)` is what the k-th one of the pass does to the table. */
  type Script = nat -> seq<SelOp>

  function AfterCalls(t: Table, calls: seq<Call>, script: Script, k: nat): Table
    decreases |calls|
  {
    if calls == [] then t else AfterCalls(ApplyOps(t, script(k)), calls[1..], script, k + 1)
  }

  function SlotCalls(t: Table, fd: int, ready: (set<int>, set<int>), script: Script, k: nat): seq<Call> {
    if fd !in t then []
    else
      var rd := if fd in ready.0 && HasRead(t[fd].interest) then [Call(fd, Reading, t[fd].data, t)] else [];
      var t1 := if rd == [] then t else ApplyOps(t, script(k));
      var wr := if fd in ready.1 && fd in t1 && HasWrite(t1[fd].interest)
                    then [Call(fd, Writing, t[fd].data, t1)] else [];
      rd + wr
  }

  /** Slots `fd`..`n` in order; `k` callbacks were made before. */
  function Pass(t: Table, fd: int, n: int, ready: (set<int>, set<int>), script: Script, k: nat): seq<Call>
    decreases n - fd
  {
    if fd > n then []
    else
      var calls := SlotCalls(t, fd, ready, script, k);
      calls + Pass(AfterCalls(t, calls, script, k), fd + 1, n, ready, script, k + |calls|)
  }

  /** The table as the k-th callback of a pass finds it. */
  ghost predicate Chained(t: Table, calls: seq<Call>, script: Script, k: nat) {
    forall j: nat :: j < |calls| ==> calls[j].before == AfterCalls(t, calls[..j], script, k)
  }

  lemma {:induction false} AfterCallsConcat(t: Table, a: seq<Call>, b: seq<Call>, script: Script, k: nat)
    ensures AfterCalls(t, a + b, script, k) == AfterCalls(AfterCalls(t, a, script, k), b, script, k + |a|)
    decreases |a|
  {
    if a == [] {
      assert a + b == b;
    } else {
      assert (a + b)[1..] == a[1..] + b;
      AfterCallsConcat(ApplyOps(t, script(k)), a[1..], b, script, k + 1);
    }
  }

  lemma ChainedConcat(t: Table, a: seq<Call>, b: seq<Call>, script: Script, k: nat)
    requires Chained(t, a, script, k) && Chained(AfterCalls(t, a, script, k), b, script, k + |a|)
    ensures Chained(t, a + b, script, k)
  {
    forall j: nat | j < |a + b|
      ensures (a + b)[j].before == AfterCalls(t, (a + b)[..j], script, k)
    {
      if j < |a| {
        assert (a + b)[..j] == a[..j];
      } else {
        assert (a + b)[..j] == a + b[..j - |a|];
        AfterCallsConcat(t, a, b[..j - |a|], script, k);
      }
    }
  }

  /** Each callback goes to a descriptor registered at that moment, with that interest, reported ready, in its slot. */
  predicate Proper(c: Call, lo: int, n: int, ready: (set<int>, set<int>)) {
    && lo <= c.fd <= n && c.fd in c.before && Has(c.before[c.fd].interest, c.op)
    && c.fd in (if c.op == Reading then ready.0 else ready.1)
  }

  /** Slots are visited in order, at most one read and then one write each. */
  predicate InOrder(a: Call, b: Call) {
    a.fd < b.fd || (a.fd == b.fd && a.op == Reading && b.op == Writing)
  }

  lemma SlotSafety(t: Table, fd: int, n: int, ready: (set<int>, set<int>), script: Script, k: nat)
    requires fd <= n
    ensures var calls := SlotCalls(t, fd, ready, script, k);
            && Chained(t, calls, script, k)
            && (forall j :: 0 <= j < |calls| ==> Proper(calls[j], fd, n, ready) && calls[j].fd == fd)
            && (forall i, j :: 0 <= i < j < |calls| ==> InOrder(calls[i], calls[j]))
  {
    var calls := SlotCalls(t, fd, ready, script, k);
    forall j: nat | j < |calls|
      ensures calls[j].before == AfterCalls(t, calls[..j], script, k)
    {
      if j == 1 {
        assert calls[..1] == [calls[0]];
      }
    }
  }

  lemma {:induction false} PassChained(t: Table, fd: int, n: int, ready: (set<int>, set<int>), script: Script, k: nat)
    ensures Chained(t, Pass(t, fd, n, ready, script, k), script, k)
    decreases n - fd
  {
    if fd <= n {
      var here := SlotCalls(t, fd, ready, script, k);
      var t1 := AfterCalls(t, here, script, k);
      SlotSafety(t, fd, n, ready, script, k);
      PassChained(t1, fd + 1, n, ready, script, k + |here|);
      ChainedConcat(t, here, Pass(t1, fd + 1, n, ready, script, k + |here|), script, k);
    }
  }

  /** The outcome of a slot, without the record of calls. */
  lemma SlotAfter(t: Table, fd: int, ready: (set<int>, set<int>), script: Script, k: nat)
    ensures var calls := SlotCalls(t, fd, ready, script, k);
            var read := fd in t && fd in ready.0 && HasRead(t[fd].interest);
            var t1 := if read then ApplyOps(t, script(k)) else t;
            var k1 := if read then k + 1 else k;
            var write := fd in t && fd in ready.1 && fd in t1 && HasWrite(t1[fd].interest);
            && AfterCalls(t, calls, script, k) == (if write then ApplyOps(t1, script(k1)) else t1)
            && k + |calls| == if write then k1 + 1 else k1
  {
    var calls := SlotCalls(t, fd, ready, script, k);
    if |calls| == 1 {
      assert calls[1..] == [];
    } else if |calls| == 2 {
      assert calls[1..] == [calls[1]] && [calls[1]][1..] == [];
      assert AfterCalls(calls[1].before, [calls[1]], script, k + 1) == ApplyOps(calls[1].before, script(k + 1));
    }
  }

  /** One slot further: `made` calls led from `t0` to `t`. */
  lemma PassAdvances(t0: Table, made: seq<Call>, t: Table, i: int, n: int, ready: (set<int>, set<int>), script: Script)
    requires i <= n && t == AfterCalls(t0, made, script, 0)
    ensures var here := SlotCalls(t, i, ready, script, |made|);
            var t1 := AfterCalls(t, here, script, |made|);
            && t1 == AfterCalls(t0, made + here, script, 0)
            && made + Pass(t, i, n, ready, script, |made|) ==
               (made + here) + Pass(t1, i + 1, n, ready, script, |made + here|)
  {
    var here := SlotCalls(t, i, ready, script, |made|);
    AfterCallsConcat(t0, made, here, script, 0);
    var rest := Pass(AfterCalls(t, here, script, |made|), i + 1, n, ready, script, |made + here|);
    assert made + (here + rest) == (made + here) + rest;
  }

  /** The calls `made` brought the table to `t` and the walk to slot `i`; with those to come they are `all`. */
  predicate OnTrack(t0: Table, made: seq<Call>, t: Table, i: int, n: int, ready: (set<int>, set<int>), script: Script,
                    all: seq<Call>) {
    t == AfterCalls(t0, made, script, 0) && made + Pass(t, i, n, ready, script, |made|) == all
  }

  lemma StaysOnTrack(t0: Table, made: seq<Call>, t: Table, i: int, n: int, ready: (set<int>, set<int>), script: Script,
                     all: seq<Call>)
    requires i <= n && OnTrack(t0, made, t, i, n, ready, script, all)
    ensures var here := SlotCalls(t, i, ready, script, |made|);
            OnTrack(t0, made + here, AfterCalls(t, here, script, |made|), i + 1, n, ready, script, all)
  {
    PassAdvances(t0, made, t, i, n, ready, script);
  }

  lemma StartsOnTrack(t0: Table, n: int, ready: (set<int>, set<int>), script: Script)
    ensures OnTrack(t0, [], t0, 0, n, ready, script, Pass(t0, 0, n, ready, script, 0))
  {
  }

  lemma EndsOnTrack(t0: Table, made: seq<Call>, t: Table, n: int, ready: (set<int>, set<int>), script: Script,
                    all: seq<Call>)
    requires OnTrack(t0, made, t, n + 1, n, ready, script, all)
    ensures made == all && t == AfterCalls(t0, all, script, 0)
  {
  }

  predicate SafeCalls(calls: seq<Call>, lo: int, n: int, ready: (set<int>, set<int>)) {
    && (forall j :: 0 <= j < |calls| ==> Proper(calls[j], lo, n, ready))
    && (forall i, j :: 0 <= i < j < |calls| ==> InOrder(calls[i], calls[j]))
  }

  lemma SafeConcat(a: seq<Call>, b: seq<Call>, fd: int, n: int, ready: (set<int>, set<int>))
    requires SafeCalls(a, fd, n, ready) && SafeCalls(b, fd + 1, n, ready)
    requires forall i :: 0 <= i < |a| ==> a[i].fd == fd
    ensures SafeCalls(a + b, fd, n, ready)
  {
  }

  /** Safety of a whole pass, whatever the callbacks do. */
  lemma {:induction false} PassSafety(t: Table, fd: int, n: int, ready: (set<int>, set<int>), script: Script, k: nat)
    ensures SafeCalls(Pass(t, fd, n, ready, script, k), fd, n, ready)
    decreases n - fd
  {
    if fd <= n {
      var here := SlotCalls(t, fd, ready, script, k);
      var t1 := AfterCalls(t, here, script, k);
      SlotSafety(t, fd, n, ready, script, k);
      PassSafety(t1, fd + 1, n, ready, script, k + |here|);
      SafeConcat(here, Pass(t1, fd + 1, n, ready, script, k + |here|), fd, n, ready);
    }
  }

  /** One more callback. */
  lemma AfterOneMore(t: Table, calls: seq<Call>, i: nat, script: Script, k: nat)
    requires i < |calls|
    ensures AfterCalls(t, calls[..i + 1], script, k) == ApplyOps(AfterCalls(t, calls[..i], script, k), script(k + i))
  {
    assert calls[..i + 1] == calls[..i] + [calls[i]];
    AfterCallsConcat(t, calls[..i], [calls[i]], script, k);
  }

  /** The calls due to slot `fd` once the calls `made` were made. */
  function Due(t0: Table, made: seq<Call>, fd: int, ready: (set<int>, set<int>), script: Script): seq<Call> {
    SlotCalls(AfterCalls(t0, made, script, 0), fd, ready, script, |made|)
  }

  predicate AllBelow(calls: seq<Call>, fd: int) {
    forall c :: c in calls ==> c.fd < fd
  }

  predicate AllAbove(calls: seq<Call>, fd: int) {
    forall c :: c in calls ==> c.fd > fd
  }

  lemma PassIsAbove(t: Table, fd: int, n: int, ready: (set<int>, set<int>), script: Script, k: nat)
    ensures AllAbove(Pass(t, fd + 1, n, ready, script, k), fd)
  {
    PassSafety(t, fd + 1, n, ready, script, k);
  }

  lemma LowerSlots(made: seq<Call>, t: Table, i: int, fd: int, ready: (set<int>, set<int>), script: Script, k: nat)
    requires i < fd && AllBelow(made, fd)
    ensures AllBelow(made + SlotCalls(t, i, ready, script, k), fd)
  {
  }

  /** No slot is skipped: between the calls to lower slots and those to higher ones come exactly its due calls. */
  lemma {:induction false} PassServesSlot(t0: Table, made: seq<Call>, i: int, n: int, ready: (set<int>, set<int>),
                                          script: Script, fd: int) returns (lower: seq<Call>, higher: seq<Call>)
    requires i <= fd <= n && AllBelow(made, fd)
    ensures made + Pass(AfterCalls(t0, made, script, 0), i, n, ready, script, |made|) ==
            lower + Due(t0, lower, fd, ready, script) + higher
    ensures AllBelow(lower, fd) && AllAbove(higher, fd)
    decreases n - i
  {
    var t := AfterCalls(t0, made, script, 0);
    PassAdvances(t0, made, t, i, n, ready, script);
    var here := SlotCalls(t, i, ready, script, |made|);
    if i == fd {
      lower, higher := made, Pass(AfterCalls(t, here, script, |made|), i + 1, n, ready, script, |made + here|);
      PassIsAbove(AfterCalls(t, here, script, |made|), i, n, ready, script, |made + here|);
    } else {
      LowerSlots(made, t, i, fd, ready, script, |made|);
      lower, higher := PassServesSlot(t0, made + here, i + 1, n, ready, script, fd);
    }
  }

  /** A descriptor missing at one callback and served at a later one was registered by some callback in between. */
  lemma {:induction false} ServedAfterAbsence(t: Table, calls: seq<Call>, script: Script, i: nat, j: nat, fd: int)
    requires i <= j < |calls| && Chained(t, calls, script, 0)
    requires fd !in AfterCalls(t, calls[..i], script, 0) && fd in calls[j].before
    ensures exists m: nat :: i <= m < j && Registers(script(m), fd)
    decreases j - i
  {
    if i < j {
      AfterOneMore(t, calls, i, script, 0);
      var here := AfterCalls(t, calls[..i], script, 0);
      if fd in ApplyOps(here, script(i)) {
        AppearsByRegister(here, script(i), fd);
      } else {
        ServedAfterAbsence(t, calls, script, i + 1, j, fd);
      }
    }
  }

  /**
   * A session torn down by its own callback: unless some later callback of the
   * pass registers the descriptor anew, it is not served again in the pass; in
   * particular its write callback does not follow the read that closed it.
   */
  lemma NoCallAfterTeardown(t: Table, n: int, ready: (set<int>, set<int>), script: Script, i: nat, j: nat, fd: int)
    requires var calls := Pass(t, 0, n, ready, script, 0);
             && i < j < |calls| && fd !in ApplyOps(calls[i].before, script(i))
             && (forall m: nat :: i < m < j ==> !Registers(script(m), fd))
    ensures Pass(t, 0, n, ready, script, 0)[j].fd != fd
  {
    var calls := Pass(t, 0, n, ready, script, 0);
    PassChained(t, 0, n, ready, script, 0);
    AfterOneMore(t, calls, i, script, 0);
    if calls[j].fd == fd {
      PassSafety(t, 0, n, ready, script, 0);
      assert Proper(calls[j], 0, n, ready);
      ServedAfterAbsence(t, calls, script, i + 1, j, fd);
    }
  }

  lemma {:induction false} ApplyOpsConcat(t: Table, a: seq<SelOp>, b: seq<SelOp>)
    ensures ApplyOps(t, a + b) == ApplyOps(ApplyOps(t, a), b)
    decreases |a|
  {
    if a == [] {
      assert a + b == b;
    } else {
      assert (a + b)[1..] == a[1..] + b;
      ApplyOpsConcat(ApplyOp(t, a[0]), a[1..], b);
    }
  }

  /** What socksv5_done does to the table. */
  function Teardown(clientFd: int, originFd: int): seq<SelOp> {
    [Unregister(clientFd)] + if originFd == -1 then [] else [Unregister(originFd)]
  }

  lemma TeardownRemoves(t: Table, work: seq<SelOp>, clientFd: int, originFd: int)
    ensures var end := ApplyOps(t, work + Teardown(clientFd, originFd));
            clientFd !in end && (originFd != -1 ==> originFd !in end)
  {
    var mid, ops := ApplyOps(t, work), Teardown(clientFd, originFd);
    ApplyOpsConcat(t, work, ops);
    if originFd == -1 {
      assert ops[1..] == [] && ApplyOps(mid, ops) == mid - {clientFd};
    } else {
      var t1 := ApplyOp(mid, ops[0]);
      assert ops[1..] == [Unregister(originFd)] && ops[1..][1..] == [];
      assert ApplyOps(mid, ops) == ApplyOps(t1, ops[1..]) == ApplyOp(t1, Unregister(originFd));
    }
  }

  /**
   * A callback that ends by tearing its session down leaves neither of the
   * session's descriptors to be served again in the pass, not even the other
   * one, whose slot may lie ahead; unless a later callback registers it anew.
   */
  lemma TornDownSessionIsNotServed(t: Table, n: int, ready: (set<int>, set<int>), script: Script, i: nat, j: nat,
                                   work: seq<SelOp>, clientFd: int, originFd: int)
    requires var calls := Pass(t, 0, n, ready, script, 0); i < j < |calls|
    requires script(i) == work + Teardown(clientFd, originFd)
    requires forall m: nat :: i < m < j ==> !Registers(script(m), clientFd) && !Registers(script(m), originFd)
    ensures var c := Pass(t, 0, n, ready, script, 0)[j]; c.fd != clientFd && (originFd != -1 ==> c.fd != originFd)
  {
    var calls := Pass(t, 0, n, ready, script, 0);
    TeardownRemoves(calls[i].before, work, clientFd, originFd);
    NoCallAfterTeardown(t, n, ready, script, i, j, clientFd);
    if originFd != -1 {
      NoCallAfterTeardown(t, n, ready, script, i, j, originFd);
    }
  }

  // ---------------------------------------------------------------------
  // Finished blocking jobs

  /** A notification delivered to the descriptor's handler, and the table at that moment. */
  datatype Delivery = Delivery(job: nat, fd: int, data: nat, before: Table)

  /** The queue from position `at` on, in order; jobs whose descriptor is gone are dropped. */
  function Deliver(t: Table, jobs: seq<int>, at: nat, script: Script): (seq<Delivery>, Table)
    requires at <= |jobs|
    decreases |jobs| - at
  {
    if at == |jobs| then ([], t)
    else if jobs[at] in t then
      var (later, end) := Deliver(ApplyOps(t, script(at)), jobs, at + 1, script);
      ([Delivery(at, jobs[at], t[jobs[at]].data, t)] + later, end)
    else Deliver(t, jobs, at + 1, script)
  }

  predicate OncePerJob(ds: seq<Delivery>, jobs: seq<int>, at: nat) {
    && (forall i :: 0 <= i < |ds| ==>
          at <= ds[i].job < |jobs| && ds[i].fd == jobs[ds[i].job] && ds[i].fd in ds[i].before)
    && (forall i, j :: 0 <= i < j < |ds| ==> ds[i].job < ds[j].job)
  }

  /** Each job is delivered at most once, to the descriptor it names, which is registered at that moment. */
  lemma {:induction false} DeliveredAtMostOnce(t: Table, jobs: seq<int>, at: nat, script: Script)
    requires at <= |jobs|
    ensures OncePerJob(Deliver(t, jobs, at, script).0, jobs, at)
    decreases |jobs| - at
  {
    if at < |jobs| {
      var here := jobs[at] in t;
      var t1 := if here then ApplyOps(t, script(at)) else t;
      DeliveredAtMostOnce(t1, jobs, at + 1, script);
      var later := Deliver(t1, jobs, at + 1, script).0;
      if here {
        assert Deliver(t, jobs, at, script).0 == [Delivery(at, jobs[at], t[jobs[at]].data, t)] + later;
      } else {
        assert Deliver(t, jobs, at, script).0 == later;
      }
    }
  }
}
