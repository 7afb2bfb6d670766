/**
 * The event loop and the protocol: a pass of the selector over the ready
 * descriptors (src/selector.c, handle_iteration), each callback carried to the
 * session attached, is a run of the server, and the table that the callbacks
 * leave behind is the server's.
 */
module ServerPass {
  import opened Base
  import opened Interests
  import opened Parameters
  import opened Paths
  import opened SelectorTables
  import opened Sessions
  import opened SessionAnswers
  import opened Servers

  // ---------------------------------------------------------------------
  // The table of a server

  /** What the selector knows: the sessions' descriptors, and the listening sockets, which are read. */
  function TableOf(v: Server): Table {
    map fd | fd in v.table.Keys + v.passive :: EntryOf(v, fd)
  }

  function EntryOf(v: Server, fd: int): Entry {
    if fd in v.table && v.table[fd] in v.slots then
      var slot := v.slots[v.table[fd]]; Entry(slot.s.io.Interest(SideOf(slot, fd)), v.table[fd])
    else Entry(OP_READ, 0)
  }

  /** Between callbacks. */
  predicate Steady(v: Server) {
    Sound(v) && Within(v, SHORT) && v.table.Keys !! v.passive
  }

  // ---------------------------------------------------------------------
  // What one callback asks of the selector

  function SessionRequests(slot: Slot, id: nat, t: Session, newFd: int): seq<SelOp> {
    match t.status
    case Aborted => []
    case Closed =>
      [Unregister(slot.clientFd)] + if slot.s.sock == Registered then [Unregister(slot.originFd)] else []
    case Alive =>
      [SetInterest(slot.clientFd, t.io.ci)]
      + if slot.s.sock == Registered then [SetInterest(slot.originFd, t.io.oi)]
        else if t.sock == Registered then [Register(newFd, t.io.oi, id)]
        else []
  }

  function Requests(v: Server, a: Action): seq<SelOp> {
    match a
    case Accept(fd) => [Register(fd, OP_READ, v.nextId)]
    case Dispatch(fd, e, newFd) =>
      if fd in v.table && v.table[fd] in v.slots then
        var id := v.table[fd]; SessionRequests(v.slots[id], id, Step(v.slots[id].s, v.users, e), newFd)
      else []
    case _ => []
  }

  lemma OneRequest(t: Table, a: SelOp)
    ensures ApplyOps(t, [a]) == ApplyOp(t, a)
  {
    assert [a][1..] == [];
  }

  lemma TwoRequests(t: Table, a: SelOp, b: SelOp)
    ensures ApplyOps(t, [a] + [b]) == ApplyOp(ApplyOp(t, a), b)
  {
    assert ([a] + [b])[1..] == [b];
    OneRequest(ApplyOp(t, a), b);
  }

  /** The descriptors of another session. */
  lemma OthersEntry(v: Server, u: Server, id: nat, fd: int)
    requires Steady(v) && fd in v.table && v.table[fd] != id && fd in u.table && u.table[fd] == v.table[fd]
    requires v.table[fd] in u.slots && v.table[fd] in v.slots && u.slots[v.table[fd]] == v.slots[v.table[fd]]
    ensures EntryOf(u, fd) == EntryOf(v, fd)
  {
  }

  /** Those of one session are its own two. */
  lemma OwnEntries(v: Server, id: nat)
    requires Steady(v) && id in v.slots
    ensures var slot := v.slots[id];
            && slot.clientFd in v.table && v.table[slot.clientFd] == id
            && -1 !in v.table && slot.clientFd != slot.originFd
            && (forall fd :: fd in v.table && v.table[fd] == id <==>
                  fd == slot.clientFd || (slot.s.sock == Registered && fd == slot.originFd))
            && (slot.s.sock != Registered ==> slot.originFd == -1)
  {
    assert SlotOk(v, id);
    forall fd | fd in v.table ensures fd != -1 && (v.table[fd] == id ==>
      fd == v.slots[id].clientFd || fd == v.slots[id].originFd) {
      assert EntryOk(v, fd);
    }
  }

  lemma SlotsExist(v: Server, fd: int)
    requires Steady(v) && fd in v.table
    ensures v.table[fd] in v.slots
  {
    assert EntryOk(v, fd);
  }

  /** A session's registered descriptors. */
  function Own(slot: Slot): set<int> {
    if slot.s.sock == Registered then {slot.clientFd, slot.originFd} else {slot.clientFd}
  }

  lemma ClosedEntries(v: Server, id: nat, t: Session, newFd: int)
    requires Steady(v) && id in v.slots && t.status == Closed
    ensures var slot, u := v.slots[id], Update(v, id, t, newFd);
            && u.table == v.table - Own(slot)
            && (forall fd :: fd in u.table || fd in v.passive ==> EntryOf(u, fd) == EntryOf(v, fd))
  {
    var u := Update(v, id, t, newFd);
    OwnEntries(v, id);
    forall fd | fd in u.table ensures EntryOf(u, fd) == EntryOf(v, fd) {
      SlotsExist(v, fd);
      OthersEntry(v, u, id, fd);
    }
  }

  /** Descriptors `gone` have left the table, and all others are as they were. */
  lemma EntriesGone(v: Server, u: Server, gone: set<int>)
    requires u.passive == v.passive && gone !! v.passive && u.table == v.table - gone
    requires forall fd :: fd in u.table || fd in v.passive ==> EntryOf(u, fd) == EntryOf(v, fd)
    ensures TableOf(u) == TableOf(v) - gone
  {
  }

  lemma CloseRequests(before: Table, slot: Slot, id: nat, t: Session, newFd: int)
    requires t.status == Closed
    ensures ApplyOps(before, SessionRequests(slot, id, t, newFd)) == before - Own(slot)
  {
    var c, o := slot.clientFd, slot.originFd;
    if slot.s.sock == Registered {
      TwoRequests(before, Unregister(c), Unregister(o));
      assert before - {c, o} == before - {c} - {o};
    } else {
      OneRequest(before, Unregister(c));
      assert [Unregister(c)] + [] == [Unregister(c)];
    }
  }

  lemma CloseIsRequested(v: Server, id: nat, t: Session, newFd: int)
    requires Steady(v) && id in v.slots && t.status == Closed
    ensures ApplyOps(TableOf(v), SessionRequests(v.slots[id], id, t, newFd)) == TableOf(Update(v, id, t, newFd))
  {
    OwnEntries(v, id);
    ClosedEntries(v, id, t, newFd);
    EntriesGone(v, Update(v, id, t, newFd), Own(v.slots[id]));
    CloseRequests(TableOf(v), v.slots[id], id, t, newFd);
  }

  /** What stays of the table when session `id` has become `t`. */
  lemma StayingEntries(v: Server, id: nat, t: Session, newFd: int)
    requires Steady(v) && id in v.slots && t.status == Alive && MayOpen(v, id, newFd)
    ensures var u := Update(v, id, t, newFd);
            && (forall fd :: fd in v.table && v.table[fd] != id ==> fd in u.table && EntryOf(u, fd) == EntryOf(v, fd))
            && EntryOf(u, v.slots[id].clientFd) == Entry(t.io.ci, id)
  {
    var u := Update(v, id, t, newFd);
    OwnEntries(v, id);
    forall fd | fd in v.table && v.table[fd] != id ensures fd in u.table && EntryOf(u, fd) == EntryOf(v, fd) {
      SlotsExist(v, fd);
      OthersEntry(v, u, id, fd);
    }
  }

  /** Only the descriptors of session `id` have other entries now, and `newFd` may be one. */
  lemma EntriesSet(v: Server, u: Server, c: int, ci: Interest, o: int, oi: Interest, id: nat)
    requires u.passive == v.passive && c in v.table && c !in v.passive && o !in v.passive && c != o
    requires u.table.Keys == v.table.Keys + {o} && EntryOf(u, c) == Entry(ci, id) && EntryOf(u, o) == Entry(oi, id)
    requires forall fd :: (fd in v.table && fd != c && fd != o) || fd in v.passive ==> EntryOf(u, fd) == EntryOf(v, fd)
    ensures TableOf(u) == TableOf(v)[c := Entry(ci, id)][o := Entry(oi, id)]
  {
  }

  lemma EntrySet(v: Server, u: Server, c: int, ci: Interest, id: nat)
    requires u.passive == v.passive && c in v.table && c !in v.passive
    requires u.table.Keys == v.table.Keys && EntryOf(u, c) == Entry(ci, id)
    requires forall fd :: (fd in v.table && fd != c) || fd in v.passive ==> EntryOf(u, fd) == EntryOf(v, fd)
    ensures TableOf(u) == TableOf(v)[c := Entry(ci, id)]
  {
  }

  lemma ClientIsRequested(v: Server, id: nat, t: Session, newFd: int)
    requires Steady(v) && id in v.slots && t.status == Alive && MayOpen(v, id, newFd)
    requires v.slots[id].s.sock != Registered && t.sock != Registered
    ensures ApplyOps(TableOf(v), SessionRequests(v.slots[id], id, t, newFd)) == TableOf(Update(v, id, t, newFd))
  {
    var c, first := v.slots[id].clientFd, SetInterest(v.slots[id].clientFd, t.io.ci);
    OwnEntries(v, id);
    StayingEntries(v, id, t, newFd);
    EntrySet(v, Update(v, id, t, newFd), c, t.io.ci, id);
    OneRequest(TableOf(v), first);
    assert [first] + [] == [first];
  }

  lemma BothAreRequested(v: Server, id: nat, t: Session, newFd: int)
    requires Steady(v) && id in v.slots && t.status == Alive && MayOpen(v, id, newFd)
    requires v.slots[id].s.sock == Registered && t.sock == Registered
    ensures ApplyOps(TableOf(v), SessionRequests(v.slots[id], id, t, newFd)) == TableOf(Update(v, id, t, newFd))
  {
    var c, o := v.slots[id].clientFd, v.slots[id].originFd;
    OwnEntries(v, id);
    StayingEntries(v, id, t, newFd);
    assert EntryOf(Update(v, id, t, newFd), o) == Entry(t.io.oi, id);
    EntriesSet(v, Update(v, id, t, newFd), c, t.io.ci, o, t.io.oi, id);
    TwoRequests(TableOf(v), SetInterest(c, t.io.ci), SetInterest(o, t.io.oi));
  }

  lemma OriginIsRequested(v: Server, id: nat, t: Session, newFd: int)
    requires Steady(v) && id in v.slots && t.status == Alive && FreshFd(v, newFd)
    requires v.slots[id].s.sock != Registered && t.sock == Registered
    ensures ApplyOps(TableOf(v), SessionRequests(v.slots[id], id, t, newFd)) == TableOf(Update(v, id, t, newFd))
  {
    var c := v.slots[id].clientFd;
    OwnEntries(v, id);
    StayingEntries(v, id, t, newFd);
    assert EntryOf(Update(v, id, t, newFd), newFd) == Entry(t.io.oi, id);
    EntriesSet(v, Update(v, id, t, newFd), c, t.io.ci, newFd, t.io.oi, id);
    TwoRequests(TableOf(v), SetInterest(c, t.io.ci), Register(newFd, t.io.oi, id));
  }

  // ---------------------------------------------------------------------
  // A callback

  /** What a callback comes to, with the kernel's answers to it: an action of the server, or nothing. */
  function Done(v: Server, act: Option<Action>): Server {
    match act case None => v case Some(a) => Act(v, a)
  }

  /** A callback for `fd`, and the server before and after it. */
  datatype Turn = Turn(fd: int, op: Op, before: Server, act: Option<Action>, next: Server)

  /** An answer the kernel can give: to a session's descriptor an event of its own; a listening socket may accept. */
  predicate Fits(t: Turn) {
    && t.next == Done(t.before, t.act)
    && (t.act.Some? ==> Possible(t.before, t.act.value) && Below(t.act.value, SHORT))
    && if t.fd in t.before.table then
         && t.act.Some? && t.act.value.Dispatch? && t.act.value.fd == t.fd
         && (t.op == Reading <==> t.act.value.e.Readable?)
       else t.act.Some? ==> t.act.value.Accept? || t.act.value.AddUser?
  }

  function TurnRequests(t: Turn): seq<SelOp> {
    match t.act case None => [] case Some(a) => Requests(t.before, a)
  }

  /** Descriptors that stay registered keep their attachment. */
  predicate SameOwners(v: Server, u: Server) {
    u.passive == v.passive && forall fd :: fd in v.table && fd in u.table ==> u.table[fd] == v.table[fd]
  }

  lemma DispatchActs(v: Server, fd: int, e: Event, newFd: int)
    requires Steady(v) && Possible(v, Dispatch(fd, e, newFd))
    ensures SlotOk(v, v.table[fd])
    ensures var id := v.table[fd]; var t := Step(v.slots[id].s, v.users, e); var u := Act(v, Dispatch(fd, e, newFd));
            && u == Update(v, id, t, newFd)
            && (t.status == Alive && v.slots[id].s.sock == Registered ==> t.sock == Registered)
  {
    var id := v.table[fd];
    assert SlotOk(v, id);
    PeerIsReached(v, id, e);
    if Step(v.slots[id].s, v.users, e).status == Alive {
      HandledEffects(v.slots[id].s, v.users, e);
    }
  }

  lemma DispatchIsRequested(v: Server, fd: int, e: Event, newFd: int)
    requires Steady(v) && Possible(v, Dispatch(fd, e, newFd)) && !Act(v, Dispatch(fd, e, newFd)).aborted
    ensures var a := Dispatch(fd, e, newFd); ApplyOps(TableOf(v), Requests(v, a)) == TableOf(Act(v, a))
  {
    var id := v.table[fd];
    DispatchActs(v, fd, e, newFd);
    StepIsRequested(v, id, Step(v.slots[id].s, v.users, e), newFd);
  }

  lemma StepIsRequested(v: Server, id: nat, t: Session, newFd: int)
    requires Steady(v) && id in v.slots && t.status != Aborted && MayOpen(v, id, newFd)
    requires t.status == Alive && v.slots[id].s.sock == Registered ==> t.sock == Registered
    ensures ApplyOps(TableOf(v), SessionRequests(v.slots[id], id, t, newFd)) == TableOf(Update(v, id, t, newFd))
  {
    if t.status == Closed {
      CloseIsRequested(v, id, t, newFd);
    } else if v.slots[id].s.sock == Registered {
      BothAreRequested(v, id, t, newFd);
    } else if t.sock == Registered {
      OriginIsRequested(v, id, t, newFd);
    } else {
      ClientIsRequested(v, id, t, newFd);
    }
  }

  lemma NextIsFree(v: Server)
    requires Steady(v)
    ensures v.nextId !in v.slots
  {
    assert v.nextId in v.slots ==> SlotOk(v, v.nextId);
  }

  lemma AcceptIsRequested(v: Server, fd: int)
    requires Steady(v) && FreshFd(v, fd)
    ensures ApplyOps(TableOf(v), Requests(v, Accept(fd))) == TableOf(Act(v, Accept(fd)))
  {
    var u := Act(v, Accept(fd));
    NextIsFree(v);
    OneRequest(TableOf(v), Register(fd, OP_READ, v.nextId));
    forall d | d in v.table ensures EntryOf(u, d) == EntryOf(v, d) {
      SlotsExist(v, d);
      OthersEntry(v, u, v.nextId, d);
    }
    EntryAdded(v, u, fd, OP_READ, v.nextId);
  }

  lemma EntryAdded(v: Server, u: Server, fd: int, i: Interest, id: nat)
    requires u.passive == v.passive && u.table.Keys == v.table.Keys + {fd} && EntryOf(u, fd) == Entry(i, id)
    requires forall d :: d in v.table && d != fd ==> EntryOf(u, d) == EntryOf(v, d)
    requires fd !in v.passive && forall d :: d in v.passive ==> EntryOf(u, d) == EntryOf(v, d)
    ensures TableOf(u) == TableOf(v)[fd := Entry(i, id)]
  {
  }

  lemma UserIsRequested(v: Server, name: CString, pass: CString)
    ensures TableOf(Act(v, AddUser(name, pass))) == TableOf(v)
  {
    assert forall fd :: EntryOf(Act(v, AddUser(name, pass)), fd) == EntryOf(v, fd);
  }

  lemma OwnersStay(v: Server, a: Action)
    requires Steady(v) && Possible(v, a) && (a.Dispatch? || a.Accept? || a.AddUser?)
    ensures var u := Act(v, a); u.table.Keys !! u.passive && SameOwners(v, u)
  {
    if a.Dispatch? {
      DispatchActs(v, a.fd, a.e, a.newFd);
      var id := v.table[a.fd];
      UpdateKeepsOwners(v, id, Step(v.slots[id].s, v.users, a.e), a.newFd);
    }
  }

  lemma UpdateKeepsOwners(v: Server, id: nat, t: Session, newFd: int)
    requires Steady(v) && id in v.slots && MayOpen(v, id, newFd)
    ensures var u := Update(v, id, t, newFd); u.table.Keys !! u.passive && SameOwners(v, u)
  {
    var slot, u := v.slots[id], Update(v, id, t, newFd);
    assert u.passive == v.passive;
    assert || u.table == v.table || u.table == v.table - {slot.clientFd, slot.originFd}
           || (FreshFd(v, newFd) && u.table == v.table[newFd := id]);
  }

  /** One callback: the table it leaves is the server's, and the server is steady again. */
  lemma TurnIsRequested(t: Turn)
    requires Steady(t.before) && Fits(t) && !t.next.aborted
    ensures ApplyOps(TableOf(t.before), TurnRequests(t)) == TableOf(t.next)
    ensures Steady(t.next) && SameOwners(t.before, t.next)
  {
    var v := t.before;
    if t.act.Some? {
      var a := t.act.value;
      ActKeeps(v, a);
      ActStaysWithin(v, a, SHORT);
      OwnersStay(v, a);
      match a
      case Dispatch(fd, e, newFd) => DispatchIsRequested(v, fd, e, newFd);
      case Accept(fd) => AcceptIsRequested(v, fd);
      case AddUser(name, pass) => UserIsRequested(v, name, pass);
    }
  }

  // ---------------------------------------------------------------------
  // A pass

  /** What the k-th callback of a pass comes to, made on a server, and the server after it. */
  type Answers = (Server, nat) -> (Option<Action>, Server)

  predicate IsDue(v: Server, fd: int, op: Op, ready: (set<int>, set<int>)) {
    && !v.aborted && fd in (if op == Reading then ready.0 else ready.1)
    && fd in TableOf(v) && Has(TableOf(v)[fd].interest, op)
  }

  /** The callback for `fd`, if one is due, `k` having been made before. */
  function DueTurn(v: Server, fd: int, op: Op, ready: (set<int>, set<int>), answers: Answers, k: nat): seq<Turn> {
    if IsDue(v, fd, op, ready) then [Turn(fd, op, v, answers(v, k).0, answers(v, k).1)] else []
  }

  function AfterTurns(v: Server, turns: seq<Turn>): Server {
    if turns == [] then v else turns[|turns| - 1].next
  }

  /** The callbacks of one slot: for reading, then for writing if it is registered still. None follows an abort. */
  function SlotTurns(v: Server, fd: int, ready: (set<int>, set<int>), answers: Answers, k: nat): seq<Turn> {
    var rd := DueTurn(v, fd, Reading, ready, answers, k);
    if fd in TableOf(v) then rd + DueTurn(AfterTurns(v, rd), fd, Writing, ready, answers, k + |rd|) else []
  }

  /** The callbacks of a slot, on the server as it is then, after so many others. */
  type Slots = (Server, int, nat) -> seq<Turn>

  /** The callbacks of the slots `fd`..`n`. */
  function Turns(slots: Slots, v: Server, fd: int, n: int, k: nat): seq<Turn>
    decreases n - fd
  {
    if fd > n then []
    else
      var here := slots(v, fd, k);
      here + Turns(slots, AfterTurns(v, here), fd + 1, n, k + |here|)
  }

  function Serving(ready: (set<int>, set<int>), answers: Answers): Slots {
    (v, fd, k: nat) => SlotTurns(v, fd, ready, answers, k)
  }

  /** The callbacks of a whole pass. */
  function PassTurns(v: Server, n: int, ready: (set<int>, set<int>), answers: Answers): seq<Turn> {
    Turns(Serving(ready, answers), v, 0, n, 0)
  }

  /** What they do to the server. */
  function Acts(turns: seq<Turn>): seq<Action> {
    if turns == [] then []
    else
      (match turns[0].act case None => [] case Some(a) => [a]) + Acts(turns[1..])
  }

  /** As the selector sees it. */
  function CallOf(t: Turn): Call {
    Call(t.fd, t.op, EntryOf(t.before, t.fd).data, TableOf(t.before))
  }

  function Calls(turns: seq<Turn>): (calls: seq<Call>)
    ensures |calls| == |turns| && forall j :: 0 <= j < |calls| ==> calls[j] == CallOf(turns[j])
  {
    seq(|turns|, j requires 0 <= j < |turns| => CallOf(turns[j]))
  }

  lemma CallsThen(a: seq<Turn>, b: seq<Turn>)
    ensures Calls(a + b) == Calls(a) + Calls(b)
  {
  }

  /** What the callbacks ask of the selector, by number. */
  function ScriptOf(turns: seq<Turn>): Script {
    (k: nat) => if k < |turns| then TurnRequests(turns[k]) else []
  }

  /** What a callback is to be and to ask, and what the server is to be between callbacks. */
  datatype Law = Law(rule: (Turn, seq<SelOp>) -> bool, good: Server -> bool)

  predicate Lawful(t: Turn, ops: seq<SelOp>) {
    Fits(t) && ops == TurnRequests(t)
  }

  /** The turns, numbered from `k`, and what the script has for them, are as the law wants, and the process lives. */
  predicate Proceeds(law: Law, v: Server, turns: seq<Turn>, script: Script, k: nat) {
    && (forall j :: 0 <= j < |turns| ==> law.rule(turns[j], script(k + j)))
    && !AfterTurns(v, turns).aborted
  }

  lemma ProceedsInParts(law: Law, v: Server, a: seq<Turn>, b: seq<Turn>, script: Script, k: nat)
    requires Proceeds(law, v, a + b, script, k) && (AfterTurns(v, a).aborted ==> b == [])
    ensures Proceeds(law, v, a, script, k) && Proceeds(law, AfterTurns(v, a), b, script, k + |a|)
  {
    forall j | 0 <= j < |a| ensures law.rule(a[j], script(k + j)) { assert (a + b)[j] == a[j]; }
    forall j | 0 <= j < |b| ensures law.rule(b[j], script(k + |a| + j)) {
      assert (a + b)[|a| + j] == b[j] && law.rule((a + b)[|a| + j], script(k + (|a| + j)));
    }
    assert b == [] ==> a + b == a;
  }

  function Earlier(v: Server, turns: seq<Turn>, j: nat): Server
    requires j <= |turns|
  {
    if j == 0 then v else turns[j - 1].next
  }

  /** Each turn begins where the one before it ended. */
  predicate Joined(v: Server, turns: seq<Turn>) {
    forall j :: 0 <= j < |turns| ==> turns[j].before == Earlier(v, turns, j)
  }

  /** The turns hang together, and leave the table that their requests make and a good server. */
  predicate Carried(law: Law, v: Server, turns: seq<Turn>, script: Script, k: nat) {
    && Joined(v, turns) && law.good(AfterTurns(v, turns))
    && AfterCalls(TableOf(v), Calls(turns), script, k) == TableOf(AfterTurns(v, turns))
  }

  lemma NoneCarried(law: Law, v: Server, script: Script, k: nat)
    requires law.good(v)
    ensures Carried(law, v, [], script, k)
  {
  }

  lemma AfterThen(v: Server, a: seq<Turn>, b: seq<Turn>)
    ensures AfterTurns(v, a + b) == AfterTurns(AfterTurns(v, a), b)
  {
    if b == [] {
      assert a + b == a;
    } else {
      assert (a + b)[|a + b| - 1] == b[|b| - 1];
    }
  }

  lemma JoinedThen(v: Server, a: seq<Turn>, b: seq<Turn>)
    requires Joined(v, a) && Joined(AfterTurns(v, a), b)
    ensures Joined(v, a + b)
  {
    forall j | 0 <= j < |a + b| ensures (a + b)[j].before == Earlier(v, a + b, j) {
      if j < |a| {
        assert a[j].before == Earlier(v, a, j);
      } else {
        assert b[j - |a|].before == Earlier(AfterTurns(v, a), b, j - |a|);
      }
    }
  }

  lemma TablesThen(t: Table, a: seq<Turn>, b: seq<Turn>, script: Script, k: nat)
    ensures AfterCalls(t, Calls(a + b), script, k)
            == AfterCalls(AfterCalls(t, Calls(a), script, k), Calls(b), script, k + |a|)
  {
    CallsThen(a, b);
    AfterCallsConcat(t, Calls(a), Calls(b), script, k);
  }

  lemma CarriedThen(law: Law, v: Server, a: seq<Turn>, b: seq<Turn>, script: Script, k: nat)
    requires Carried(law, v, a, script, k) && Carried(law, AfterTurns(v, a), b, script, k + |a|)
    ensures Carried(law, v, a + b, script, k)
  {
    AfterThen(v, a, b);
    JoinedThen(v, a, b);
    TablesThen(TableOf(v), a, b, script, k);
  }

  /** Descriptors that stay registered keep their attachment. */
  predicate KeepsData(t: Table, u: Table) {
    forall fd :: fd in t && fd in u ==> u[fd].data == t[fd].data
  }

  /** A callback as the law wants it leaves a good server, and what it asked for makes the server's table. */
  predicate CarriesAt(law: Law, t: Turn, ops: seq<SelOp>) {
    law.rule(t, ops) && law.good(t.before) && !t.next.aborted ==>
      && ApplyOps(TableOf(t.before), ops) == TableOf(t.next) && law.good(t.next)
      && KeepsData(TableOf(t.before), TableOf(t.next))
  }

  ghost predicate Carries(law: Law) {
    forall t, ops :: CarriesAt(law, t, ops)
  }

  lemma CarriedTurn(law: Law, t: Turn, script: Script, k: nat)
    requires Carries(law) && law.good(t.before) && law.rule(t, script(k)) && !t.next.aborted
    ensures Carried(law, t.before, [t], script, k) && KeepsData(TableOf(t.before), TableOf(t.next))
  {
    assert CarriesAt(law, t, script(k));
    assert Calls([t])[1..] == [];
    assert AfterCalls(TableOf(t.before), Calls([t]), script, k) == ApplyOps(TableOf(t.before), script(k));
  }

  // ---------------------------------------------------------------------
  // One slot

  /** One callback that may be due. */
  lemma DueIsCarried(law: Law, v: Server, fd: int, op: Op, ready: (set<int>, set<int>), answers: Answers,
                     script: Script, k: nat)
    requires Carries(law) && law.good(v) && Proceeds(law, v, DueTurn(v, fd, op, ready, answers, k), script, k)
    ensures var turns := DueTurn(v, fd, op, ready, answers, k);
            Carried(law, v, turns, script, k) && KeepsData(TableOf(v), TableOf(AfterTurns(v, turns)))
  {
    if IsDue(v, fd, op, ready) {
      var t := DueTurn(v, fd, op, ready, answers, k)[0];
      assert law.rule([t][0], script(k + 0));
      CarriedTurn(law, t, script, k);
    } else {
      NoneCarried(law, v, script, k);
    }
  }

  /** Half a slot: the selector makes the call that is due, and no other. */
  lemma DueIsCall(v: Server, fd: int, ready: (set<int>, set<int>), answers: Answers, k: nat)
    requires !v.aborted && fd in TableOf(v)
    ensures var t, rd := TableOf(v), DueTurn(v, fd, Reading, ready, answers, k);
            Calls(rd) == if fd in ready.0 && HasRead(t[fd].interest) then [Call(fd, Reading, t[fd].data, t)] else []
    ensures var t, wr := TableOf(v), DueTurn(v, fd, Writing, ready, answers, k);
            Calls(wr) == if fd in ready.1 && HasWrite(t[fd].interest) then [Call(fd, Writing, t[fd].data, t)] else []
  {
  }

  lemma SlotInHalves(t: Table, fd: int, ready: (set<int>, set<int>), script: Script, k: nat, rd: seq<Call>, t1: Table)
    requires fd in t && t1 == AfterCalls(t, rd, script, k)
    requires rd == if fd in ready.0 && HasRead(t[fd].interest) then [Call(fd, Reading, t[fd].data, t)] else []
    ensures var due := fd in ready.1 && fd in t1 && HasWrite(t1[fd].interest);
            SlotCalls(t, fd, ready, script, k) == rd + if due then [Call(fd, Writing, t[fd].data, t1)] else []
  {
    assert rd != [] ==> rd[1..] == [];
  }

  lemma SlotIsCalled(v: Server, fd: int, ready: (set<int>, set<int>), answers: Answers, script: Script, k: nat)
    requires fd in TableOf(v) && !v.aborted
    requires var rd := DueTurn(v, fd, Reading, ready, answers, k); var v1 := AfterTurns(v, rd);
             && AfterCalls(TableOf(v), Calls(rd), script, k) == TableOf(v1) && !v1.aborted
             && (fd in TableOf(v1) ==> TableOf(v1)[fd].data == TableOf(v)[fd].data)
    ensures Calls(SlotTurns(v, fd, ready, answers, k)) == SlotCalls(TableOf(v), fd, ready, script, k)
  {
    var rd := DueTurn(v, fd, Reading, ready, answers, k);
    var v1 := AfterTurns(v, rd);
    DueIsCall(v, fd, ready, answers, k);
    CallsThen(rd, DueTurn(v1, fd, Writing, ready, answers, k + |rd|));
    SlotInHalves(TableOf(v), fd, ready, script, k, Calls(rd), TableOf(v1));
    if fd in TableOf(v1) {
      DueIsCall(v1, fd, ready, answers, k + |rd|);
    }
  }

  lemma SlotIsTurns(law: Law, v: Server, fd: int, ready: (set<int>, set<int>), answers: Answers, script: Script,
                    k: nat)
    requires Carries(law) && law.good(v) && Proceeds(law, v, SlotTurns(v, fd, ready, answers, k), script, k)
    ensures var turns := SlotTurns(v, fd, ready, answers, k);
            Carried(law, v, turns, script, k) && Calls(turns) == SlotCalls(TableOf(v), fd, ready, script, k)
  {
    if fd in TableOf(v) {
      var rd := DueTurn(v, fd, Reading, ready, answers, k);
      var v1 := AfterTurns(v, rd);
      var wr := DueTurn(v1, fd, Writing, ready, answers, k + |rd|);
      ProceedsInParts(law, v, rd, wr, script, k);
      DueIsCarried(law, v, fd, Reading, ready, answers, script, k);
      DueIsCarried(law, v1, fd, Writing, ready, answers, script, k + |rd|);
      CarriedThen(law, v, rd, wr, script, k);
      SlotIsCalled(v, fd, ready, answers, script, k);
    } else {
      NoneCarried(law, v, script, k);
    }
  }

  // ---------------------------------------------------------------------
  // All slots

  /** An aborted server makes no callback. */
  predicate HaltsAt(slots: Slots, v: Server, fd: int, k: nat) {
    v.aborted ==> slots(v, fd, k) == []
  }

  /** The slot makes the selector's calls. */
  predicate ServesAt(law: Law, slots: Slots, ready: (set<int>, set<int>), script: Script, v: Server, fd: int, k: nat) {
    var turns := slots(v, fd, k);
    law.good(v) && Proceeds(law, v, turns, script, k) ==>
      Carried(law, v, turns, script, k) && Calls(turns) == SlotCalls(TableOf(v), fd, ready, script, k)
  }

  ghost predicate Serves(law: Law, slots: Slots, ready: (set<int>, set<int>), script: Script) {
    && (forall v, fd, k :: HaltsAt(slots, v, fd, k))
    && (forall v, fd, k :: ServesAt(law, slots, ready, script, v, fd, k))
  }

  lemma SelectorServes(law: Law, ready: (set<int>, set<int>), answers: Answers, script: Script)
    requires Carries(law)
    ensures Serves(law, Serving(ready, answers), ready, script)
  {
    var slots := Serving(ready, answers);
    forall v, fd, k ensures HaltsAt(slots, v, fd, k) {
      assert slots(v, fd, k) == SlotTurns(v, fd, ready, answers, k);
    }
    forall v, fd, k ensures ServesAt(law, slots, ready, script, v, fd, k) {
      if law.good(v) && Proceeds(law, v, slots(v, fd, k), script, k) {
        SlotIsTurns(law, v, fd, ready, answers, script, k);
      }
    }
  }

  lemma {:induction false} AbortedHasNoTurns(slots: Slots, v: Server, fd: int, n: int, k: nat)
    requires v.aborted && forall d, j :: HaltsAt(slots, v, d, j)
    ensures Turns(slots, v, fd, n, k) == []
    decreases n - fd
  {
    if fd <= n {
      assert HaltsAt(slots, v, fd, k);
      AbortedHasNoTurns(slots, v, fd + 1, n, k);
    }
  }

  lemma PassSplits(t: Table, fd: int, n: int, ready: (set<int>, set<int>), script: Script, k: nat, here: seq<Call>)
    requires fd <= n && here == SlotCalls(t, fd, ready, script, k)
    ensures Pass(t, fd, n, ready, script, k)
            == here + Pass(AfterCalls(t, here, script, k), fd + 1, n, ready, script, k + |here|)
  {
  }

  /** The calls of a slot, then those of the later ones. */
  lemma SlotsThen(t: Table, fd: int, n: int, ready: (set<int>, set<int>), script: Script, k: nat, here: seq<Turn>,
                  t1: Table, later: seq<Turn>)
    requires fd <= n && Calls(here) == SlotCalls(t, fd, ready, script, k) && AfterCalls(t, Calls(here), script, k) == t1
    requires Calls(later) == Pass(t1, fd + 1, n, ready, script, k + |here|)
    ensures Calls(here + later) == Pass(t, fd, n, ready, script, k)
  {
    CallsThen(here, later);
    PassSplits(t, fd, n, ready, script, k, Calls(here));
  }

  /** The turns of a slot, then those of the later ones. */
  lemma OneSlotMore(law: Law, v: Server, fd: int, n: int, ready: (set<int>, set<int>), script: Script, k: nat,
                    here: seq<Turn>, v1: Server, later: seq<Turn>)
    requires fd <= n && Carried(law, v, here, script, k) && v1 == AfterTurns(v, here)
    requires Calls(here) == SlotCalls(TableOf(v), fd, ready, script, k) && Carried(law, v1, later, script, k + |here|)
    requires Calls(later) == Pass(TableOf(v1), fd + 1, n, ready, script, k + |here|)
    ensures Carried(law, v, here + later, script, k) && Calls(here + later) == Pass(TableOf(v), fd, n, ready, script, k)
  {
    CarriedThen(law, v, here, later, script, k);
    SlotsThen(TableOf(v), fd, n, ready, script, k, here, TableOf(v1), later);
  }

  lemma TurnsProceed(law: Law, slots: Slots, v: Server, fd: int, n: int, script: Script, k: nat)
    requires fd <= n && Proceeds(law, v, Turns(slots, v, fd, n, k), script, k)
    requires forall u: Server, d, j :: HaltsAt(slots, u, d, j)
    ensures var here := slots(v, fd, k); var v1 := AfterTurns(v, here);
            && Proceeds(law, v, here, script, k)
            && Proceeds(law, v1, Turns(slots, v1, fd + 1, n, k + |here|), script, k + |here|)
  {
    var here := slots(v, fd, k);
    var v1 := AfterTurns(v, here);
    if v1.aborted {
      AbortedHasNoTurns(slots, v1, fd + 1, n, k + |here|);
    }
    ProceedsInParts(law, v, here, Turns(slots, v1, fd + 1, n, k + |here|), script, k);
  }

  lemma SlotServed(law: Law, slots: Slots, v: Server, fd: int, ready: (set<int>, set<int>), script: Script, k: nat)
    requires Serves(law, slots, ready, script) && law.good(v) && Proceeds(law, v, slots(v, fd, k), script, k)
    ensures Carried(law, v, slots(v, fd, k), script, k) && law.good(AfterTurns(v, slots(v, fd, k)))
    ensures Calls(slots(v, fd, k)) == SlotCalls(TableOf(v), fd, ready, script, k)
  {
    assert ServesAt(law, slots, ready, script, v, fd, k);
  }

  lemma {:induction false} PassIsTurns(law: Law, slots: Slots, v: Server, fd: int, n: int,
                                       ready: (set<int>, set<int>), script: Script, k: nat)
    requires Serves(law, slots, ready, script)
    requires law.good(v) && Proceeds(law, v, Turns(slots, v, fd, n, k), script, k)
    ensures Carried(law, v, Turns(slots, v, fd, n, k), script, k)
    ensures Calls(Turns(slots, v, fd, n, k)) == Pass(TableOf(v), fd, n, ready, script, k)
    decreases n - fd
  {
    hide Proceeds, Carried, SlotCalls, TableOf;
    if fd > n {
      NoneCarried(law, v, script, k);
    } else {
      var here := slots(v, fd, k);
      var v1 := AfterTurns(v, here);
      TurnsProceed(law, slots, v, fd, n, script, k);
      SlotServed(law, slots, v, fd, ready, script, k);
      PassIsTurns(law, slots, v1, fd + 1, n, ready, script, k + |here|);
      OneSlotMore(law, v, fd, n, ready, script, k, here, v1, Turns(slots, v1, fd + 1, n, k + |here|));
    }
  }

  // ---------------------------------------------------------------------
  // The run

  /** A callback is one transition or none. */
  predicate Moves(enabled: (Server, Action) -> bool, step: (Server, Action) -> Server, t: Turn) {
    match t.act case None => t.next == t.before case Some(a) => enabled(t.before, a) && t.next == step(t.before, a)
  }

  lemma FittingMoves(t: Turn)
    requires Fits(t)
    ensures Moves(Admits(SHORT), Act, t)
  {
  }

  lemma {:induction false} JoinedIsPath(enabled: (Server, Action) -> bool, step: (Server, Action) -> Server, v: Server,
                                        turns: seq<Turn>)
    requires Joined(v, turns) && forall t :: t in turns ==> Moves(enabled, step, t)
    ensures Path(enabled, step, v, Acts(turns)) && Final(step, v, Acts(turns)) == AfterTurns(v, turns)
    decreases |turns|
  {
    if turns != [] {
      var t, later := turns[0], turns[1..];
      forall j | 0 <= j < |later| ensures later[j].before == Earlier(t.next, later, j) {
        assert turns[j + 1].before == Earlier(v, turns, j + 1);
      }
      JoinedIsPath(enabled, step, t.next, later);
      assert Moves(enabled, step, t);
      if t.act.None? {
        assert [] + Acts(later) == Acts(later);
      } else {
        PathOfOne(enabled, step, v, t.act.value);
        PathThen(enabled, step, v, [t.act.value], Acts(later));
      }
    }
  }

  // ---------------------------------------------------------------------
  // The law of the server

  const STEADY := Law(Lawful, Steady)

  lemma SameOwnersKeepData(v: Server, u: Server)
    requires Steady(v) && Steady(u) && SameOwners(v, u)
    ensures KeepsData(TableOf(v), TableOf(u))
  {
    forall fd | fd in TableOf(v) && fd in TableOf(u) ensures TableOf(u)[fd].data == TableOf(v)[fd].data {
      if fd in v.table {
        SlotsExist(v, fd);
      }
      if fd in u.table {
        SlotsExist(u, fd);
      }
    }
  }

  lemma SteadyCarries()
    ensures Carries(STEADY)
  {
    forall t, ops ensures CarriesAt(STEADY, t, ops) {
      if Lawful(t, ops) && Steady(t.before) && !t.next.aborted {
        TurnIsRequested(t);
        SameOwnersKeepData(t.before, t.next);
      }
    }
  }

  /**
   * A pass of the selector over the table of a server, whichever descriptors are
   * ready and whatever is answered: the calls it makes are the callbacks of a run of
   * the server, each made on the server as those before it left it, and the table
   * it leaves is the server's.
   */
  lemma PassIsRun(v: Server, n: int, ready: (set<int>, set<int>), answers: Answers)
    requires Steady(v) && forall t :: t in PassTurns(v, n, ready, answers) ==> Fits(t)
    requires !AfterTurns(v, PassTurns(v, n, ready, answers)).aborted
    ensures var turns := PassTurns(v, n, ready, answers);
            var calls := Pass(TableOf(v), 0, n, ready, ScriptOf(turns), 0);
            && calls == Calls(turns)
            && Runs(v, Acts(turns), SHORT)
            && AfterCalls(TableOf(v), calls, ScriptOf(turns), 0) == TableOf(After(v, Acts(turns)))
            && Steady(After(v, Acts(turns)))
  {
    var turns := PassTurns(v, n, ready, answers);
    SteadyCarries();
    SelectorServes(STEADY, ready, answers, ScriptOf(turns));
    PassIsTurns(STEADY, Serving(ready, answers), v, 0, n, ready, ScriptOf(turns), 0);
    forall t | t in turns ensures Moves(Admits(SHORT), Act, t) {
      FittingMoves(t);
    }
    JoinedIsPath(Admits(SHORT), Act, v, turns);
  }

  // ---------------------------------------------------------------------
  // A drain

  lemma SameTable(u: Server, w: Server)
    requires u.passive == w.passive && u.table == w.table && u.slots == w.slots
    ensures TableOf(u) == TableOf(w)
  {
    assert forall fd :: EntryOf(u, fd) == EntryOf(w, fd);
  }

  function DeliveryRequests(v: Server, answer: Answer): seq<SelOp>
    requires v.queue != []
  {
    var fd := v.queue[0].fd;
    if fd in v.table && v.table[fd] in v.slots then
      var id := v.table[fd];
      SessionRequests(v.slots[id], id, Step(v.slots[id].s, v.users, Resolved(answer.attempts)), answer.newFd)
    else []
  }

  lemma DeliveryActs(v: Server, answer: Answer)
    requires Sound(v) && v.queue != []
    ensures var id := v.queue[0].owner; var t := Step(v.slots[id].s, v.users, Resolved(answer.attempts));
            && id in v.slots && v.queue[0].fd in v.table && v.table[v.queue[0].fd] == id
            && v.slots[id].s.sock == NoSocket && t.status != Aborted
            && var u, w := DeliverJob(v, answer), Update(v, id, t, answer.newFd);
               u.passive == w.passive && u.table == w.table && u.slots == w.slots
  {
    hide Step;
    JobFindsItsSession(v, 0);
    var id := v.queue[0].owner;
    assert SlotOk(v, id);
    StepHandles(v.slots[id].s, v.users, Resolved(answer.attempts));
    var v1 := v.(queue := v.queue[1..], removed := v.removed + [id], delivered := v.delivered + [id]);
    NothingToForget(v1, id, answer.attempts);
  }

  /** One delivery: the table it leaves is the server's. */
  lemma DeliveryIsRequested(v: Server, answer: Answer)
    requires Steady(v) && Possible(v, Deliver(answer)) && answer.newFd < SHORT
    ensures var u := Act(v, Deliver(answer));
            && ApplyOps(TableOf(v), DeliveryRequests(v, answer)) == TableOf(u) && Steady(u)
            && u.locked == v.locked && u.queue == v.queue[1..]
            && v.queue[0].fd in TableOf(v) && TableOf(v)[v.queue[0].fd].data == v.queue[0].owner
  {
    var id := v.queue[0].owner;
    DeliveryActs(v, answer);
    var t := Step(v.slots[id].s, v.users, Resolved(answer.attempts));
    StepIsRequested(v, id, t, answer.newFd);
    SameTable(Act(v, Deliver(answer)), Update(v, id, t, answer.newFd));
    UpdateKeepsOwners(v, id, t, answer.newFd);
    ActKeeps(v, Deliver(answer));
    ActStaysWithin(v, Deliver(answer), SHORT);
    DeliverKeeps(v, answer);
    UpdateKeepsLock(v, answer);
  }

  lemma UpdateKeepsLock(v: Server, answer: Answer)
    requires v.queue != []
    ensures DeliverJob(v, answer).locked == v.locked
  {
    hide Step;
  }

  function Drain(answers: seq<Answer>): seq<Action> {
    if answers == [] then [] else [Deliver(answers[0])] + Drain(answers[1..])
  }

  /** One answer to each job queued, with descriptors that are free and short at that moment. */
  predicate Answered(v: Server, answers: seq<Answer>)
    decreases |answers|
  {
    |answers| == |v.queue| &&
    (answers != [] ==>
       && Possible(v, Deliver(answers[0])) && answers[0].newFd < SHORT
       && Answered(Act(v, Deliver(answers[0])), answers[1..]))
  }

  /** The script has, from number `at` on, what these deliveries ask. */
  predicate Asks(v: Server, answers: seq<Answer>, script: Script, at: nat)
    decreases |answers|
  {
    answers != [] ==>
      && v.queue != [] && script(at) == DeliveryRequests(v, answers[0])
      && Asks(Act(v, Deliver(answers[0])), answers[1..], script, at + 1)
  }

  /** The selector's queue from position `at` on is the server's. */
  predicate Queues(v: Server, jobs: seq<int>, at: nat) {
    at + |v.queue| == |jobs| && forall i :: 0 <= i < |v.queue| ==> v.queue[i].fd == jobs[at + i]
  }

  /** Each job from position `at` on reaches the session that asked for it. */
  predicate ReachOwners(ds: seq<Delivery>, queue: seq<Job>, at: nat) {
    |ds| == |queue| && forall i :: 0 <= i < |ds| ==> ds[i].job == at + i && ds[i].data == queue[i].owner
  }

  lemma OneDelivery(t: Table, jobs: seq<int>, at: nat, script: Script, t1: Table, queue: seq<Job>)
    requires at < |jobs| && jobs[at] in t && t1 == ApplyOps(t, script(at)) && queue != []
    requires t[jobs[at]].data == queue[0].owner
    requires ReachOwners(SelectorTables.Deliver(t1, jobs, at + 1, script).0, queue[1..], at + 1)
    ensures ReachOwners(SelectorTables.Deliver(t, jobs, at, script).0, queue, at)
    ensures SelectorTables.Deliver(t, jobs, at, script).1 == SelectorTables.Deliver(t1, jobs, at + 1, script).1
  {
    var later := SelectorTables.Deliver(t1, jobs, at + 1, script).0;
    var ds := SelectorTables.Deliver(t, jobs, at, script).0;
    assert ds == [Delivery(at, jobs[at], t[jobs[at]].data, t)] + later;
    forall i | 0 <= i < |ds| ensures ds[i].job == at + i && ds[i].data == queue[i].owner {
      assert i > 0 ==> ds[i] == later[i - 1] && queue[i] == queue[1..][i - 1];
    }
  }

  lemma FirstDelivery(v: Server, answers: seq<Answer>)
    requires answers != []
    requires var a := Deliver(answers[0]);
             Possible(v, a) && Below(a, SHORT) && Runs(Act(v, a), Drain(answers[1..]), SHORT)
    ensures Runs(v, Drain(answers), SHORT)
    ensures After(v, Drain(answers)) == After(Act(v, Deliver(answers[0])), Drain(answers[1..]))
  {
    PathOfOne(Admits(SHORT), Act, v, Deliver(answers[0]));
    PathThen(Admits(SHORT), Act, v, [Deliver(answers[0])], Drain(answers[1..]));
  }

  lemma NothingToDeliver(v: Server)
    ensures Runs(v, Drain([]), SHORT) && After(v, Drain([])) == v
  {
  }

  /**
   * A drain of the queue, under the mutex: the notifications that the selector makes
   * are a run of the server, each reaches the session that asked, and the table it
   * leaves is the server's.
   */
  lemma {:induction false} DrainIsRun(v: Server, jobs: seq<int>, at: nat, answers: seq<Answer>, script: Script)
    requires Steady(v) && v.locked && Queues(v, jobs, at) && Answered(v, answers) && Asks(v, answers, script, at)
    ensures var (ds, end) := SelectorTables.Deliver(TableOf(v), jobs, at, script); var u := After(v, Drain(answers));
            && Runs(v, Drain(answers), SHORT) && end == TableOf(u) && Steady(u) && u.queue == []
            && ReachOwners(ds, v.queue, at)
    decreases |answers|
  {
    hide Act, After, ApplyOps, DeliveryRequests, Possible, Runs, Steady, TableOf;
    if answers == [] {
      NothingToDeliver(v);
    } else {
      var a, v1 := answers[0], Act(v, Deliver(answers[0]));
      DeliveryIsRequested(v, a);
      DrainIsRun(v1, jobs, at + 1, answers[1..], script);
      FirstDelivery(v, answers);
      OneDelivery(TableOf(v), jobs, at, script, TableOf(v1), v.queue);
    }
  }
}
