/**
 * The selector structure (src/selector.c): a jump table indexed by descriptor,
 * the two prototype sets handed to select, the highest descriptor and the queue
 * of finished blocking jobs. Every operation refines the table operation of
 * SelectorTables and keeps the derived fields in step.
 */
module Selectors {
  import opened Base
  import opened Interests
  import opened SelectorTables

  const FD_UNUSED := -1

  datatype Item = Item(fd: int, interest: Interest, data: nat)

  class Selector {
    /** Reallocated as it grows; empty stands for the unallocated table. */
    var fds: seq<Item>
    var maxFd: int
    var masterR: set<int>
    var masterW: set<int>
    var jobs: seq<int>

    /** The abstract table, kept in step by every method. */
    ghost var view: Table

    predicate Used(i: int)
      requires 0 <= i < |fds|
      reads this
    {
      fds[i].fd != FD_UNUSED
    }

    /** Slot i is unused or holds i; the view is what the used slots say. */
    ghost predicate SlotsOk()
      reads this
    {
      && (forall i :: i in view ==> 0 <= i < |fds| && ValidFd(i))
      && (forall i :: 0 <= i < |fds| ==> (i in view <==> fds[i].fd != FD_UNUSED))
      && (forall i :: i in view ==> fds[i] == Item(i, view[i].interest, view[i].data))
    }

    /** The prototype sets hold exactly the used descriptors with the interest. */
    ghost predicate SetsOk()
      reads this
    {
      && (forall i :: i in masterR <==> i in view && HasRead(view[i].interest))
      && (forall i :: i in masterW <==> i in view && HasWrite(view[i].interest))
    }

    /** `maxFd` bounds every used slot, and is used or 0. */
    ghost predicate MaxOk()
      reads this
    {
      && 0 <= maxFd
      && (forall i :: i in view ==> i <= maxFd)
      && (maxFd in view || maxFd == 0)
      && (fds != [] ==> maxFd < |fds|)
    }

    ghost predicate Valid()
      reads this
    {
      SlotsOk() && SetsOk() && MaxOk() && |fds| <= ITEMS_MAX_SIZE + 1
    }

    /** No valid descriptor can index outside the table. */
    ghost predicate Ample()
      reads this
    {
      Valid() && |fds| >= ITEMS_MAX_SIZE && forall j :: 0 <= j < |jobs| ==> ValidFd(jobs[j])
    }

    /** Slot i, if unused, is blank: true from the first unregistration on, not of memory fresh from realloc. */
    ghost predicate Settled(i: int)
      reads this
    {
      0 <= i < |fds| && (fds[i].fd == FD_UNUSED ==> fds[i].interest == OP_NOOP)
    }

    static method NextCapacity(n: nat) returns (r: nat)
      requires n < 0x8000_0000_0000_0000
      ensures r == Capacity(n)
    {
      var bits: nat, tmp: nat := 0, n;
      while tmp != 0
        invariant Shift(tmp, Pow2(bits)) == Shift(n, 1)
      {
        tmp := tmp / 2;
        bits := bits + 1;
      }
      ShiftScales(n, 1);
      tmp := Pow2(bits);
      if tmp > ITEMS_MAX_SIZE {
        tmp := ITEMS_MAX_SIZE;
      }
      r := tmp + 1;
    }

    /** Memory that realloc adds is not blank; only the descriptor is set. */
    method GrowTo(size: nat)
      requires Valid() && |fds| <= size <= ITEMS_MAX_SIZE + 1 && size > 0
      modifies this`fds
      ensures Valid() && |fds| == size && old(fds) <= fds
      ensures forall i :: |old(fds)| <= i < size ==> fds[i].fd == FD_UNUSED
    {
      for i := |fds| to size
        invariant |fds| == i && old(fds) <= fds
        invariant forall k :: |old(fds)| <= k < i ==> fds[k].fd == FD_UNUSED
      {
        var garbage: Item := *;
        fds := fds + [garbage.(fd := FD_UNUSED)];
      }
    }

    /** On success the table has a slot for `n`, keeps every old slot and adds unused ones. */
    method EnsureCapacity(n: nat) returns (ret: Status)
      requires Valid()
      modifies this`fds
      ensures Valid() && old(fds) <= fds
      ensures ret == if n < |old(fds)| || n <= ITEMS_MAX_SIZE then Success else MaxFd
      ensures ret == Success ==> n < |fds|
      ensures |fds| == if n < |old(fds)| || n > ITEMS_MAX_SIZE then |old(fds)| else Capacity(n)
      ensures forall i :: |old(fds)| <= i < |fds| ==> fds[i].fd == FD_UNUSED
    {
      CapacityBounds(n);
      if n < |fds| {
        ret := Success;
      } else if n > ITEMS_MAX_SIZE {
        ret := MaxFd;
      } else {
        var size := NextCapacity(n);
        GrowTo(size);
        ret := Success;
      }
    }

    constructor ()
      ensures Valid() && view == map[] && jobs == [] && fds == []
    {
      fds, maxFd, masterR, masterW, jobs, view := [], 0, {}, {}, [], map[];
    }

    /** selector_new: none when the platform cannot meet the request. */
    static method New(initial: nat) returns (s: Selector?)
      ensures s == null <==> initial > ITEMS_MAX_SIZE
      ensures s != null ==> fresh(s) && s.Valid() && s.view == map[] && s.jobs == [] && |s.fds| == Capacity(initial)
      ensures 512 <= initial <= ITEMS_MAX_SIZE ==> s.Ample()
    {
      s := new Selector();
      var ret := s.EnsureCapacity(initial);
      if ret != Success {
        return null;
      }
      EveryDescriptorInBounds(initial);
      assert initial >= 512 ==> ValidFd(1023) && 1023 < Capacity(initial);
    }

    /** items_max_fd. */
    method ItemsMaxFd() returns (max: int)
      requires SlotsOk() && 0 <= maxFd < |fds| && forall i :: i in view ==> i <= maxFd
      ensures 0 <= max <= maxFd && (forall i :: i in view ==> i <= max) && (max in view || max == 0)
    {
      max := 0;
      for i := 0 to maxFd + 1
        invariant 0 <= max <= maxFd && (max in view || max == 0)
        invariant forall k :: k in view && k < i ==> k <= max
      {
        if Used(i) && fds[i].fd > max {
          max := fds[i].fd;
        }
      }
    }

    /** items_update_fdset_for_fd: rebuilds one descriptor's membership from its slot. */
    method UpdateFdSets(fd: int)
      requires SlotsOk() && fd in view
      requires forall i :: i != fd ==> (i in masterR <==> i in view && HasRead(view[i].interest))
      requires forall i :: i != fd ==> (i in masterW <==> i in view && HasWrite(view[i].interest))
      modifies this`masterR, this`masterW
      ensures SlotsOk() && SetsOk()
    {
      masterR, masterW := masterR - {fd}, masterW - {fd};
      if Used(fd) {
        if HasRead(fds[fd].interest) {
          masterR := masterR + {fd};
        }
        if HasWrite(fds[fd].interest) {
          masterW := masterW + {fd};
        }
      }
    }

    /** A descriptor equal to the table's size is taken as fitting. */
    method Register(fd: int, handlerGiven: bool, interest: Interest, data: nat) returns (ret: Status)
      requires Valid()
      modifies this
      ensures Valid() && jobs == old(jobs) && |fds| >= |old(fds)|
      ensures ret == if !ValidFd(fd) || !handlerGiven then BadArgs
                     else if fd == |old(fds)| then OutOfTable
                     else if fd in old(view) then FdInUse else Success
      ensures view == if ret == Success then ApplyOp(old(view), SelOp.Register(fd, interest, data)) else old(view)
      ensures forall k :: old(Settled(k)) ==> Settled(k)
    {
      if fd < 0 || fd >= ITEMS_MAX_SIZE || !handlerGiven {
        return BadArgs;
      }
      if fd > |fds| {
        ret := EnsureCapacity(fd);
        if ret != Success {
          return ret;
        }
      }
      if fd == |fds| {
        return OutOfTable;
      }
      if Used(fd) {
        return FdInUse;
      }
      Occupy(fd, interest, data);
      ret := Success;
    }

    method Occupy(fd: int, interest: Interest, data: nat)
      requires Valid() && ValidFd(fd) && fd < |fds| && !Used(fd)
      modifies this`fds, this`view, this`maxFd, this`masterR, this`masterW
      ensures Valid() && |fds| == |old(fds)|
      ensures view == old(view)[fd := Entry(interest, data)]
      ensures forall k :: old(Settled(k)) ==> Settled(k)
    {
      fds := fds[fd := Item(fd, interest, data)];
      view := view[fd := Entry(interest, data)];
      if fd > maxFd {
        maxFd := fd;
      }
      UpdateFdSets(fd);
    }

    /** No handler of the program defines the close callback. */
    method UnregisterFd(fd: int) returns (ret: Status)
      requires Valid()
      modifies this
      ensures Valid() && jobs == old(jobs) && |fds| == |old(fds)|
      ensures ret == if fd in old(view) then Success else if ValidFd(fd) && fd >= |fds| then OutOfTable else BadArgs
      ensures view == old(view) - {fd}
      ensures ret == Success ==> fds[fd].interest == OP_NOOP
      ensures forall k :: old(Settled(k)) ==> Settled(k)
    {
      if fd < 0 || fd >= ITEMS_MAX_SIZE || fd >= |fds| || !Used(fd) {
        assert view - {fd} == view;
        return if ValidFd(fd) && fd >= |fds| then OutOfTable else BadArgs;
      }
      StoreInterest(fd, OP_NOOP);
      Vacate(fd);
      ret := Success;
    }

    method Vacate(fd: int)
      requires Valid() && fd in view && view[fd].interest == OP_NOOP
      modifies this`fds, this`view, this`maxFd
      ensures Valid() && |fds| == |old(fds)| && view == old(view) - {fd} && fds[fd].interest == OP_NOOP
      ensures forall k :: old(Settled(k)) ==> Settled(k)
    {
      fds := fds[fd := Item(FD_UNUSED, OP_NOOP, 0)];
      view := view - {fd};
      maxFd := ItemsMaxFd();
    }

    /** The common tail of the interest operations. */
    method StoreInterest(fd: int, i: Interest)
      requires Valid() && fd in view
      modifies this`fds, this`view, this`masterR, this`masterW
      ensures Valid() && |fds| == |old(fds)| && view == old(view)[fd := Entry(i, old(view)[fd].data)]
      ensures forall k :: old(Settled(k)) ==> Settled(k)
    {
      fds := fds[fd := fds[fd].(interest := i)];
      view := view[fd := Entry(i, view[fd].data)];
      UpdateFdSets(fd);
    }

    method SetInterest(fd: int, i: Interest) returns (ret: Status)
      requires Valid()
      modifies this`fds, this`view, this`masterR, this`masterW
      ensures Valid() && |fds| == |old(fds)|
      ensures ret == if fd in old(view) then Success else if ValidFd(fd) && fd >= |fds| then OutOfTable else BadArgs
      ensures view == ApplyOp(old(view), SelOp.SetInterest(fd, i))
      ensures forall k :: old(Settled(k)) ==> Settled(k)
    {
      if fd < 0 || fd >= ITEMS_MAX_SIZE || fd >= |fds| || !Used(fd) {
        return if ValidFd(fd) && fd >= |fds| then OutOfTable else BadArgs;
      }
      StoreInterest(fd, i);
      ret := Success;
    }

    method SetInterestAdditive(fd: int, i: Interest) returns (ret: Status)
      requires Valid()
      modifies this`fds, this`view, this`masterR, this`masterW
      ensures Valid() && |fds| == |old(fds)|
      ensures ret == if fd in old(view) then Success else if ValidFd(fd) && fd >= |fds| then OutOfTable else BadArgs
      ensures view == ApplyOp(old(view), AddInterest(fd, i))
      ensures forall k :: old(Settled(k)) ==> Settled(k)
    {
      if fd < 0 || fd >= ITEMS_MAX_SIZE || fd >= |fds| || !Used(fd) {
        return if ValidFd(fd) && fd >= |fds| then OutOfTable else BadArgs;
      }
      ret := Success;
      if fds[fd].interest == OP_NOOP {
        StoreInterest(fd, i);
        return;
      }
      if (fds[fd].interest == OP_READ && i == OP_WRITE) || (fds[fd].interest == OP_WRITE && i == OP_READ) {
        StoreInterest(fd, OP_BOTH);
      }
    }

    method SetInterestReduction(fd: int, i: Interest) returns (ret: Status)
      requires Valid()
      modifies this`fds, this`view, this`masterR, this`masterW
      ensures Valid() && |fds| == |old(fds)|
      ensures ret == if fd in old(view) then Success else if ValidFd(fd) && fd >= |fds| then OutOfTable else BadArgs
      ensures view == ApplyOp(old(view), DropInterest(fd, i))
      ensures forall k :: old(Settled(k)) ==> Settled(k)
    {
      if fd < 0 || fd >= ITEMS_MAX_SIZE || fd >= |fds| || !Used(fd) {
        return if ValidFd(fd) && fd >= |fds| then OutOfTable else BadArgs;
      }
      ret := Success;
      if fds[fd].interest == OP_BOTH {
        StoreInterest(fd, if i == OP_READ then OP_WRITE else if i == OP_WRITE then OP_READ else OP_BOTH);
      } else if (fds[fd].interest == OP_READ && i == OP_READ) || (fds[fd].interest == OP_WRITE && i == OP_WRITE) {
        StoreInterest(fd, OP_NOOP);
      }
    }

    // -------------------------------------------------------------------
    // Dispatch

    /** A callback, seen from the selector: any sequence of its own operations. */
    method Callback(ops: seq<SelOp>)
      requires Ample()
      modifies this
      ensures Ample() && view == ApplyOps(old(view), ops) && jobs == old(jobs)
      ensures forall k :: old(Settled(k)) ==> Settled(k)
    {
      for i := 0 to |ops|
        invariant Ample() && jobs == old(jobs) && ApplyOps(view, ops[i..]) == ApplyOps(old(view), ops)
        invariant forall k :: old(Settled(k)) ==> Settled(k)
      {
        ghost var before := view;
        assert ops[i..][0] == ops[i] && ops[i..][1..] == ops[i + 1..];
        var ret;
        match ops[i]
        case Register(fd, interest, data) => ret := Register(fd, true, interest, data);
        case Unregister(fd) => ret := UnregisterFd(fd);
        case SetInterest(fd, interest) => ret := SetInterest(fd, interest);
        case AddInterest(fd, interest) => ret := SetInterestAdditive(fd, interest);
        case DropInterest(fd, interest) => ret := SetInterestReduction(fd, interest);
        assert view == ApplyOp(before, ops[i]);
      }
    }

    /** handle_iteration: walks the slots up to the `maxFd` it starts with; the callbacks made are `calls`. */
    method HandleIteration(slaveR: set<int>, slaveW: set<int>, script: Script) returns (ghost calls: seq<Call>)
      requires Ample()
      modifies this
      ensures Ample() && jobs == old(jobs)
      ensures calls == Pass(old(view), 0, old(maxFd), (slaveR, slaveW), script, 0)
      ensures view == AfterCalls(old(view), calls, script, 0)
    {
      var n, k := maxFd, 0;
      ghost var t0, ready := view, (slaveR, slaveW);
      ghost var all := Pass(t0, 0, n, ready, script, 0);
      calls := [];
      StartsOnTrack(t0, n, ready, script);
      for i := 0 to n + 1
        invariant Ample() && jobs == old(jobs) && k == |calls| && OnTrack(t0, calls, view, i, n, ready, script, all)
      {
        StaysOnTrack(t0, calls, view, i, n, ready, script, all);
        calls := calls + SlotCalls(view, i, ready, script, k);
        k := HandleSlot(i, slaveR, slaveW, script, k);
      }
      EndsOnTrack(t0, calls, view, n, ready, script, all);
    }

    /** One slot of the walk: read first, then write if the slot still wants it. */
    method HandleSlot(i: int, slaveR: set<int>, slaveW: set<int>, script: Script, k: nat) returns (k': nat)
      requires Ample() && 0 <= i < ITEMS_MAX_SIZE
      modifies this
      ensures Ample() && jobs == old(jobs)
      ensures var here := SlotCalls(old(view), i, (slaveR, slaveW), script, k);
              k' == k + |here| && view == AfterCalls(old(view), here, script, k)
    {
      SlotAfter(view, i, (slaveR, slaveW), script, k);
      k' := k;
      if Used(i) {
        assert Settled(i);
        if fds[i].fd in slaveR && HasRead(fds[i].interest) {
          Callback(script(k'));
          k' := k' + 1;
        }
        if i in slaveW && HasWrite(fds[i].interest) {
          Callback(script(k'));
          k' := k' + 1;
        }
      }
    }

    // -------------------------------------------------------------------
    // Finished blocking jobs

    /** selector_notify_block, run by a resolver thread under the mutex: newest first. */
    method NotifyBlock(fd: int) returns (ret: Status)
      requires Ample() && ValidFd(fd)
      modifies this`jobs
      ensures Ample() && ret == Success && jobs == [fd] + old(jobs)
    {
      jobs := [fd] + jobs;
      ret := Success;
    }

    /** Runs under the mutex, so no job can be added meanwhile: the queue is emptied, each job visited once. */
    method HandleBlockNotifications(script: Script) returns (ghost made: seq<Delivery>)
      requires Ample()
      modifies this
      ensures Ample() && jobs == []
      ensures (made, view) == Deliver(old(view), old(jobs), 0, script)
    {
      made := [];
      assert [] + Deliver(view, jobs, 0, script).0 == Deliver(view, jobs, 0, script).0;
      for at := 0 to |jobs|
        invariant Ample() && jobs == old(jobs)
        invariant var (later, end) := Deliver(view, jobs, at, script);
                  (made + later, end) == Deliver(old(view), jobs, 0, script)
      {
        if Used(jobs[at]) {
          ghost var (later, _) := Deliver(ApplyOps(view, script(at)), jobs, at + 1, script);
          ghost var one := Delivery(at, jobs[at], view[jobs[at]].data, view);
          assert made + ([one] + later) == (made + [one]) + later;
          made := made + [one];
          Callback(script(at));
        }
      }
      assert made + [] == made;
      jobs := [];
    }
  }
}
