/**
 * The whole server as a protocol: sessions dispatched one event at a time by
 * the event loop, resolver threads that finish whenever they like and queue a
 * job (src/selector.c), and drains that hand the jobs to the sessions
 * (src/origin_connect_stm.c). Runs are arbitrary interleavings of these.
 */
module Servers {
  import opened Base
  import opened Interests
  import opened Parameters
  import opened Paths
  import opened Sessions
  import opened SessionAnswers
  import opened SessionAuth
  import opened SessionReply
  import opened SessionSafety
  import opened SelectorTables
  import G = GreetingParsers
  import Q = RequestParsers
  import R = Relays

  /** A session and its descriptors; `originFd` counts once the origin is registered. */
  datatype Slot = Slot(clientFd: int, originFd: int, s: Session)

  /** A finished resolution. The source's job names only the descriptor; `owner` is the session that asked. */
  datatype Job = Job(fd: int, owner: nat)

  /**
   * `table` is the selector's: the session attached to each registered
   * descriptor. `threads` are the resolutions running, by session, with the
   * client descriptor copied at their start. `removed` and `delivered` record the
   * owners of jobs taken off the queue, and the sessions notified. `locked`: the
   * event loop holds the mutex of the queue. `passive`: the descriptors the
   * selector knows that belong to no session, which are the listening sockets.
   */
  datatype Server = Server(
    passive: set<int>, slots: map<nat, Slot>, table: map<int, nat>, users: seq<User>, nextId: nat,
    threads: map<nat, int>, queue: seq<Job>, removed: seq<nat>, delivered: seq<nat>,
    locked: bool, aborted: bool)

  function NewServer(passive: set<int>): Server {
    Server(passive, map[], map[], [], 0, map[], [], [], [], false, false)
  }

  /** The kernel's answer to one queued job: the addresses with their outcomes, and the next descriptor. */
  datatype Answer = Answer(attempts: seq<Attempt>, newFd: int)

  datatype Action =
    | Accept(fd: int)
    | Dispatch(fd: int, e: Event, newFd: int)
    | ThreadEnds(owner: nat)
    | Lock
    | Deliver(answer: Answer)
    | Unlock
    | AddUser(name: CString, pass: CString)

  /** The kernel hands out descriptors not in use. */
  predicate FreshFd(v: Server, fd: int) {
    ValidFd(fd) && fd !in v.table && fd !in v.passive
  }

  /** A descriptor is opened only for a session that has not registered its origin. */
  predicate MayOpen(v: Server, id: nat, newFd: int)
    requires id in v.slots
  {
    v.slots[id].s.sock == Registered || FreshFd(v, newFd)
  }

  function SideOf(slot: Slot, fd: int): Side {
    if fd == slot.clientFd then Client else Origin
  }

  /** Puts back a session after a step: closed sessions leave, a newly registered origin enters the table. */
  function Update(v: Server, id: nat, s: Session, newFd: int): Server
    requires id in v.slots
  {
    var slot := v.slots[id];
    match s.status
    case Aborted => v.(aborted := true)
    case Closed => v.(slots := v.slots - {id}, table := v.table - {slot.clientFd, slot.originFd})
    case Alive =>
      var threads := if s.resolving && !slot.s.resolving then v.threads[id := slot.clientFd] else v.threads;
      if s.sock == Registered && slot.s.sock != Registered then
        v.(slots := v.slots[id := Slot(slot.clientFd, newFd, s)], table := v.table[newFd := id], threads := threads)
      else v.(slots := v.slots[id := slot.(s := s)], threads := threads)
  }

  function PeerFd(slot: Slot, side: Side): int {
    if side == Client then slot.originFd else slot.clientFd
  }

  /** A COPY handler acts on the low eight bits of the other end's descriptor. */
  predicate ReachesPeer(slot: Slot, e: Event) {
    slot.s.current == Some(Copy) && !e.Resolved? ==> R.Narrow(PeerFd(slot, e.side)) == PeerFd(slot, e.side)
  }

  /** The interest that a COPY event adds to the other end's descriptor. */
  function Asked(s: Session, e: Event): Option<Interest>
    requires !e.Resolved?
  {
    if e.Readable? then if e.recv.Data? then Some(OP_WRITE) else None
    else if !SendFailed(s.io.To(e.side), e.send) && s.io.Reading(Other(e.side)) then Some(OP_READ)
    else None
  }

  function SetShutdowns(r: R.Relay, side: Side, n: nat): R.Relay {
    r.(wire := if side == Client then r.wire.(shutClient := n) else r.wire.(shutOrigin := n))
  }

  /** The session after a COPY event that did not reach its other end: that end's interest and shutdowns stand. */
  function Astray(s: Session, t: Session, peer: Side): Session {
    t.(io := SetShutdowns(t.io.SetInterest(peer, s.io.Interest(peer)), peer, s.io.Shutdowns(peer)))
  }

  /** Interest added to a session's descriptor by somebody else; to one it no longer uses, it changes nothing here. */
  function Disturb(v: Server, fd: int, i: Interest): Server
    requires fd in v.table && v.table[fd] in v.slots
  {
    var slot := v.slots[v.table[fd]];
    if fd != slot.clientFd && fd != slot.originFd then v
    else
      var side := SideOf(slot, fd);
      v.(slots := v.slots[v.table[fd] := slot.(s := slot.s.SetInterest(side, Additive(slot.s.io.Interest(side), i)))])
  }

  /**
   * Session `id` has become `t`, and the interest it asked for lands on descriptor
   * `target`: on that of a session, on a listening socket, or on none, which is an
   * error.
   */
  function Land(v: Server, id: nat, t: Session, asked: Option<Interest>, target: int): Server
    requires id in v.slots
  {
    var v1 := v.(slots := v.slots[id := v.slots[id].(s := t)]);
    match asked
    case None => v1
    case Some(i) =>
      if target in v.table then if v.table[target] in v1.slots then Disturb(v1, target, i) else v1
      else if target in v.passive then v1
      else Update(v, id, Sessions.Teardown(t), -1)
  }

  /** A COPY event of session `id` acts on descriptor `target`, which is not its other end's. */
  function GoAstray(v: Server, id: nat, e: Event, target: int): Server
    requires id in v.slots && !e.Resolved?
  {
    var s := v.slots[id].s;
    var t := Step(s, v.users, e);
    if t.status != Alive then Update(v, id, t, -1)
    else Land(v, id, Astray(s, t, Other(e.side)), Asked(s, e), target)
  }

  /** One callback of the selector. */
  function DispatchEvent(v: Server, id: nat, e: Event, newFd: int): Server
    requires id in v.slots && !e.Resolved?
  {
    if ReachesPeer(v.slots[id], e) then Update(v, id, Step(v.slots[id].s, v.users, e), newFd)
    else GoAstray(v, id, e, R.Narrow(PeerFd(v.slots[id], e.side)))
  }

  /** Connecting to a resolved address opens a new socket; the session forgets any it had. */
  function Reconnecting(v: Server, id: nat, attempts: seq<Attempt>): Server
    requires id in v.slots
  {
    var slot := v.slots[id];
    if attempts != [] && slot.s.current == Some(OriginConnect) then
      v.(slots := v.slots[id := slot.(s := slot.s.(sock := NoSocket))])
    else v
  }

  /** One job: found through its descriptor alone, or dropped. */
  function DeliverJob(v: Server, answer: Answer): Server
    requires v.queue != []
  {
    var job := v.queue[0];
    var v1 := v.(queue := v.queue[1..], removed := v.removed + [job.owner]);
    if job.fd !in v.table || v.table[job.fd] !in v.slots then v1
    else
      var id := v.table[job.fd];
      var v2 := v1.(delivered := v1.delivered + [id]);
      Update(Reconnecting(v2, id, answer.attempts), id, Step(v.slots[id].s, v.users, Resolved(answer.attempts)),
        answer.newFd)
  }

  /**
   * One thread runs the event loop; while it drains the queue it does nothing
   * else and the resolver threads wait for the mutex.
   */
  predicate Possible(v: Server, a: Action) {
    && !v.aborted
    && match a
       case Accept(fd) => !v.locked && FreshFd(v, fd) && |v.slots| < MAX_CONCURRENT_CONNECTIONS
       case Dispatch(fd, e, newFd) =>
         && !v.locked && fd in v.table && v.table[fd] in v.slots && MayOpen(v, v.table[fd], newFd) && !e.Resolved?
         && var slot := v.slots[v.table[fd]]; e.side == SideOf(slot, fd) && Enabled(slot.s, e)
       case AddUser(_, _) => !v.locked
       case ThreadEnds(owner) => !v.locked && owner in v.threads
       case Lock => !v.locked
       case Deliver(answer) => v.locked && v.queue != [] && FreshFd(v, answer.newFd)
       case Unlock => v.locked && v.queue == []
  }

  function Act(v: Server, a: Action): Server {
    match a
    case Accept(fd) =>
      v.(slots := v.slots[v.nextId := Slot(fd, -1, NEW_SESSION)], table := v.table[fd := v.nextId],
        nextId := v.nextId + 1)
    case Dispatch(fd, e, newFd) =>
      if fd in v.table && v.table[fd] in v.slots && !e.Resolved? then DispatchEvent(v, v.table[fd], e, newFd) else v
    case ThreadEnds(owner) =>
      if owner in v.threads then
        v.(threads := v.threads - {owner}, queue := [Job(v.threads[owner], owner)] + v.queue)
      else v
    case Lock => v.(locked := true)
    case Deliver(answer) => if v.queue != [] then DeliverJob(v, answer) else v
    case Unlock => v.(locked := false)
    case AddUser(name, pass) => v.(users := UsersAfter(v.users, name, pass))
  }

  /** The source copes with what happens to session `id`: see SessionSafety.CopesWith. */
  predicate GoodFor(v: Server, a: Action, id: nat) {
    match a
    case Dispatch(fd, e, _) =>
      fd in v.table && v.table[fd] == id && id in v.slots ==> CopesWith(v.slots[id].s, e)
    case Deliver(answer) =>
      v.queue != [] && v.queue[0].fd in v.table && v.table[v.queue[0].fd] == id ==>
        answer.attempts == [] || answer.attempts[0].outcome == InProgress
    case _ => true
  }

  /** The same of every session. */
  predicate Good(v: Server, a: Action) {
    match a
    case Dispatch(fd, e, _) =>
      fd in v.table && v.table[fd] in v.slots ==> CopesWith(v.slots[v.table[fd]].s, e)
    case Deliver(answer) => answer.attempts == [] || answer.attempts[0].outcome == InProgress
    case _ => true
  }

  /** The descriptors the kernel hands out with an action are below `limit`. */
  predicate Below(a: Action, limit: int) {
    match a
    case Accept(fd) => fd < limit
    case Dispatch(_, _, newFd) => newFd < limit
    case Deliver(answer) => answer.newFd < limit
    case _ => true
  }

  /** Possible, with a descriptor below `limit`. */
  function Admits(limit: int): (Server, Action) -> bool {
    (v, a) => Possible(v, a) && Below(a, limit)
  }

  /** Whatever the environment answers. */
  ghost predicate Runs(v: Server, acts: seq<Action>, limit: int) {
    Path(Admits(limit), Act, v, acts)
  }

  function AdmitsFor(limit: int, id: nat): (Server, Action) -> bool {
    (v, a) => Possible(v, a) && GoodFor(v, a, id) && Below(a, limit)
  }

  /** With answers that the source copes with for session `id`, and any others. */
  ghost predicate RunsFor(v: Server, acts: seq<Action>, limit: int, id: nat) {
    Path(AdmitsFor(limit, id), Act, v, acts)
  }

  function Allows(limit: int): (Server, Action) -> bool {
    (v, a) => Possible(v, a) && Good(v, a) && Below(a, limit)
  }

  /** With answers that the source copes with for every session. */
  ghost predicate GoodRuns(v: Server, acts: seq<Action>, limit: int) {
    Path(Allows(limit), Act, v, acts)
  }

  function After(v: Server, acts: seq<Action>): Server {
    Final(Act, v, acts)
  }

  // ---------------------------------------------------------------------
  // The invariant

  /** A session's descriptors are in the table, attached to it. */
  predicate Linked(v: Server, id: nat)
    requires id in v.slots
  {
    var slot := v.slots[id];
    && id < v.nextId && slot.clientFd >= 0
    && slot.clientFd in v.table && v.table[slot.clientFd] == id
    && slot.originFd != slot.clientFd
    && (slot.s.sock == Registered ==> slot.originFd >= 0 && slot.originFd in v.table && v.table[slot.originFd] == id)
    && (slot.s.sock != Registered ==> slot.originFd == -1)
  }

  predicate SlotOk(v: Server, id: nat)
    requires id in v.slots
  {
    Linked(v, id) && v.slots[id].s.status == Alive && Handled(v.slots[id].s)
  }

  /** A registered descriptor is one of the two of a live session. */
  predicate EntryOk(v: Server, fd: int)
    requires fd in v.table
  {
    && ValidFd(fd) && v.table[fd] in v.slots
    && var slot := v.slots[v.table[fd]]; fd == slot.clientFd || fd == slot.originFd
  }

  /** An outstanding resolution belongs to a live session that waits for it, and names its client descriptor. */
  predicate Awaited(v: Server, owner: nat, fd: int) {
    owner in v.slots && v.slots[owner].clientFd == fd && v.slots[owner].s.resolving
  }

  predicate Queued(v: Server, owner: nat) {
    exists i :: 0 <= i < |v.queue| && v.queue[i].owner == owner
  }

  predicate JobsOk(v: Server) {
    && (forall o :: o in v.threads ==> Awaited(v, o, v.threads[o]) && !Queued(v, o))
    && (forall i :: 0 <= i < |v.queue| ==> Awaited(v, v.queue[i].owner, v.queue[i].fd))
    && (forall i, j :: 0 <= i < j < |v.queue| ==> v.queue[i].owner != v.queue[j].owner)
  }

  /** Each resolution a session waits for is running or queued. */
  predicate NoneLost(v: Server) {
    forall id :: id in v.slots && v.slots[id].s.resolving ==> id in v.threads || Queued(v, id)
  }

  /** Jobs removed: one per session, delivered to the session that asked, which is past its resolution. */
  predicate HistoryOk(v: Server) {
    && v.delivered == v.removed
    && (forall i, j :: 0 <= i < j < |v.removed| ==> v.removed[i] != v.removed[j])
    && (forall i :: 0 <= i < |v.removed| ==> v.removed[i] < v.nextId && Past(v, v.removed[i]))
  }

  predicate Past(v: Server, o: nat) {
    o in v.slots ==>
      var s := v.slots[o].s; !s.resolving && s.current.Some? && Rank(s.current.value) >= Rank(OriginConnect)
  }

  /** What holds whatever the environment answers, while descriptors are short and the process lives. */
  predicate Sound(v: Server) {
    && !v.aborted
    && (forall id :: id in v.slots ==> SlotOk(v, id))
    && (forall fd :: fd in v.table ==> EntryOk(v, fd))
    && JobsOk(v) && NoneLost(v) && HistoryOk(v)
  }

  /** Session `id`, if it lives, has kept its own invariant. */
  predicate InvOf(v: Server, id: nat) {
    id in v.slots ==> v.slots[id].s.status == Alive && Inv(v.slots[id].s, v.users)
  }

  predicate ServerInv(v: Server) {
    Sound(v) && forall id :: id in v.slots ==> InvOf(v, id)
  }

  /** Every registered descriptor is below `limit`. */
  predicate Within(v: Server, limit: int) {
    forall fd :: fd in v.table ==> fd < limit
  }

  /** Descriptors up to this one pass through eight bits unharmed. */
  const SHORT := 256

  // ---------------------------------------------------------------------
  // Every action keeps it

  lemma NewServerIsInv(passive: set<int>)
    ensures ServerInv(NewServer(passive)) && Within(NewServer(passive), SHORT)
  {
  }

  lemma AcceptSlots(v: Server, fd: int)
    requires Sound(v) && FreshFd(v, fd)
    ensures var t := Act(v, Accept(fd));
            (forall id :: id in t.slots ==> SlotOk(t, id)) && (forall d :: d in t.table ==> EntryOk(t, d))
  {
    var t := Act(v, Accept(fd));
    NewSessionIsHandled();
    forall id | id in t.slots
      ensures SlotOk(t, id)
    {
      assert id != v.nextId ==> SlotOk(v, id);
    }
    forall d | d in t.table
      ensures EntryOk(t, d)
    {
      assert d != fd ==> EntryOk(v, d);
    }
  }

  lemma AcceptJobs(v: Server, fd: int)
    requires JobsOk(v) && NoneLost(v) && HistoryOk(v) && v.nextId !in v.slots
    ensures var t := Act(v, Accept(fd)); JobsOk(t) && NoneLost(t) && HistoryOk(t)
  {
    var t := Act(v, Accept(fd));
    forall o ensures Queued(t, o) == Queued(v, o) {}
    forall o, d | Awaited(v, o, d) ensures Awaited(t, o, d) {}
    forall i | 0 <= i < |t.removed|
      ensures Past(t, t.removed[i])
    {
      assert Past(v, v.removed[i]);
    }
  }

  lemma AcceptKeeps(v: Server, fd: int)
    requires Sound(v) && FreshFd(v, fd)
    ensures Sound(Act(v, Accept(fd)))
  {
    assert v.nextId in v.slots ==> SlotOk(v, v.nextId);
    AcceptSlots(v, fd);
    AcceptJobs(v, fd);
  }

  lemma AddUserKeeps(v: Server, name: CString, pass: CString)
    requires Sound(v)
    ensures Sound(Act(v, AddUser(name, pass)))
  {
    var t := Act(v, AddUser(name, pass));
    forall id | id in t.slots
      ensures SlotOk(t, id)
    {
      assert SlotOk(v, id);
    }
    forall d | d in t.table
      ensures EntryOk(t, d)
    {
      assert EntryOk(v, d);
    }
    forall o ensures Queued(t, o) == Queued(v, o) {}
    forall o | o in t.threads
      ensures Awaited(t, o, t.threads[o]) && !Queued(t, o)
    {
      assert Awaited(v, o, v.threads[o]);
    }
    forall i | 0 <= i < |t.queue|
      ensures Awaited(t, t.queue[i].owner, t.queue[i].fd)
    {
      assert Awaited(v, v.queue[i].owner, v.queue[i].fd);
    }
    forall i | 0 <= i < |t.removed|
      ensures Past(t, t.removed[i])
    {
      assert Past(v, v.removed[i]);
    }
  }

  lemma ThreadEndsJobs(v: Server, owner: nat)
    requires JobsOk(v) && NoneLost(v) && owner in v.threads
    ensures var t := Act(v, ThreadEnds(owner)); JobsOk(t) && NoneLost(t)
  {
    var t := Act(v, ThreadEnds(owner));
    assert t.queue[0].owner == owner && t.queue[1..] == v.queue;
    PopQueued(t, v);
    forall o, fd | Awaited(v, o, fd) ensures Awaited(t, o, fd) {}
    forall i | 0 < i < |t.queue|
      ensures t.queue[i] == v.queue[i - 1] && t.queue[i].owner != owner
    {
      assert v.queue[i - 1].owner == owner ==> Queued(v, owner);
    }
  }

  lemma ThreadEndsKeeps(v: Server, owner: nat)
    requires Sound(v) && owner in v.threads
    ensures Sound(Act(v, ThreadEnds(owner)))
  {
    var t := Act(v, ThreadEnds(owner));
    ThreadEndsJobs(v, owner);
    forall id | id in t.slots ensures SlotOk(t, id) { assert SlotOk(v, id); }
    forall d | d in t.table ensures EntryOk(t, d) { assert EntryOk(v, d); }
    forall i | 0 <= i < |t.removed| ensures Past(t, t.removed[i]) { assert Past(v, v.removed[i]); }
  }

  // ---------------------------------------------------------------------
  // A step of one session

  /**
   * The invariant while session `id` is being handled: no job of its own is left, and its
   * history may be ahead of it.
   */
  predicate Handling(v: Server, id: nat) {
    && !v.aborted && id in v.slots && id !in v.threads && !Queued(v, id)
    && (forall i :: i in v.slots ==> SlotOk(v, i))
    && (forall fd :: fd in v.table ==> EntryOk(v, fd))
    && JobsOk(v)
    && (forall i :: i in v.slots && i != id && v.slots[i].s.resolving ==> i in v.threads || Queued(v, i))
    && v.delivered == v.removed
    && (forall i, j :: 0 <= i < j < |v.removed| ==> v.removed[i] != v.removed[j])
    && (forall i :: 0 <= i < |v.removed| ==> v.removed[i] < v.nextId && (v.removed[i] == id || Past(v, v.removed[i])))
  }

  /** What the session's step guarantees, the session's own invariant apart. */
  predicate Outcome(v: Server, id: nat, t: Session)
    requires id in v.slots
  {
    var s := v.slots[id].s;
    && t.status != Aborted
    && (t.status == Alive ==>
          && (s.sock == Registered ==> t.sock == Registered)
          && (t.resolving ==> !s.resolving && id !in v.removed)
          && (id in v.removed ==> t.current.Some? && Rank(t.current.value) >= Rank(OriginConnect)))
  }

  lemma UpdateOwnSlot(v: Server, id: nat, t: Session, newFd: int)
    requires id in v.slots && Linked(v, id) && Outcome(v, id, t) && MayOpen(v, id, newFd) && t.status == Alive
    ensures var u := Update(v, id, t, newFd); id in u.slots && Linked(u, id) && u.slots[id].s == t && u.users == v.users
  {
  }

  lemma OthersStayLinked(v: Server, id: nat, t: Session, newFd: int, i: nat)
    requires id in v.slots && Linked(v, id) && i in v.slots && Linked(v, i) && i != id && MayOpen(v, id, newFd)
    ensures var u := Update(v, id, t, newFd);
            i in u.slots && u.slots[i] == v.slots[i] && u.users == v.users && Linked(u, i)
  {
    OthersStay(v, id, t, newFd, i);
    OthersKeepEntry(v, id, t, newFd, i, v.slots[i].clientFd);
    if v.slots[i].s.sock == Registered {
      OthersKeepEntry(v, id, t, newFd, i, v.slots[i].originFd);
    }
  }

  lemma OthersStay(v: Server, id: nat, t: Session, newFd: int, i: nat)
    requires id in v.slots && i in v.slots && i != id
    ensures var u := Update(v, id, t, newFd);
            i in u.slots && u.slots[i] == v.slots[i] && u.users == v.users && u.nextId == v.nextId
  {
  }

  lemma OthersKeepEntry(v: Server, id: nat, t: Session, newFd: int, i: nat, fd: int)
    requires id in v.slots && Linked(v, id) && i != id && MayOpen(v, id, newFd) && fd in v.table && v.table[fd] == i
    requires fd >= 0
    ensures var u := Update(v, id, t, newFd); fd in u.table && u.table[fd] == i
  {
  }

  lemma UpdateTable(v: Server, id: nat, t: Session, newFd: int, fd: int)
    requires id in v.slots && Linked(v, id) && Outcome(v, id, t) && MayOpen(v, id, newFd)
    requires fd in Update(v, id, t, newFd).table && (fd in v.table ==> EntryOk(v, fd))
    ensures EntryOk(Update(v, id, t, newFd), fd)
  {
  }

  lemma UpdateJobs(v: Server, id: nat, t: Session, newFd: int)
    requires id in v.slots && id !in v.threads && !Queued(v, id) && JobsOk(v) && Outcome(v, id, t)
    ensures JobsOk(Update(v, id, t, newFd))
  {
    var u := Update(v, id, t, newFd);
    assert u.queue == v.queue;
    forall o, fd | o != id && Awaited(v, o, fd) ensures Awaited(u, o, fd) {}
    forall o ensures Queued(u, o) == Queued(v, o) {}
    forall i | 0 <= i < |u.queue|
      ensures Awaited(u, u.queue[i].owner, u.queue[i].fd)
    {
      assert v.queue[i].owner != id;
    }
  }

  lemma UpdateLosesNone(v: Server, id: nat, t: Session, newFd: int)
    requires id in v.slots && Outcome(v, id, t)
    requires forall i :: i in v.slots && i != id && v.slots[i].s.resolving ==> i in v.threads || Queued(v, i)
    ensures NoneLost(Update(v, id, t, newFd))
  {
    var u := Update(v, id, t, newFd);
    forall o ensures Queued(u, o) == Queued(v, o) {}
  }

  lemma UpdateHistory(v: Server, id: nat, t: Session, newFd: int)
    requires id in v.slots && Outcome(v, id, t) && v.delivered == v.removed
    requires forall i, j :: 0 <= i < j < |v.removed| ==> v.removed[i] != v.removed[j]
    requires forall i :: 0 <= i < |v.removed| ==>
               v.removed[i] < v.nextId && (v.removed[i] == id || Past(v, v.removed[i]))
    ensures HistoryOk(Update(v, id, t, newFd))
  {
    var u := Update(v, id, t, newFd);
    assert u.removed == v.removed && u.delivered == v.delivered && u.nextId == v.nextId;
    forall i | 0 <= i < |u.removed|
      ensures Past(u, u.removed[i])
    {
      StaysPast(v, id, t, newFd, v.removed[i]);
    }
  }

  lemma StaysPast(v: Server, id: nat, t: Session, newFd: int, o: nat)
    requires id in v.slots && Outcome(v, id, t) && o in v.removed && (o == id || Past(v, o))
    ensures Past(Update(v, id, t, newFd), o)
  {
  }

  lemma UpdateKeeps(v: Server, id: nat, t: Session, newFd: int)
    requires Handling(v, id) && Outcome(v, id, t) && Handled(t) && MayOpen(v, id, newFd)
    ensures Sound(Update(v, id, t, newFd))
  {
    var u := Update(v, id, t, newFd);
    assert SlotOk(v, id);
    forall i | i in u.slots
      ensures SlotOk(u, i)
    {
      if i == id {
        UpdateOwnSlot(v, id, t, newFd);
      } else {
        assert SlotOk(v, i);
        OthersStayLinked(v, id, t, newFd, i);
      }
    }
    forall fd | fd in u.table
      ensures EntryOk(u, fd)
    {
      assert fd in v.table ==> EntryOk(v, fd);
      UpdateTable(v, id, t, newFd, fd);
    }
    UpdateJobs(v, id, t, newFd);
    UpdateLosesNone(v, id, t, newFd);
    UpdateHistory(v, id, t, newFd);
  }

  lemma NotAwaited(v: Server, id: nat)
    requires JobsOk(v) && id in v.slots && !v.slots[id].s.resolving
    ensures id !in v.threads && !Queued(v, id)
  {
  }

  lemma PeerIsReached(v: Server, id: nat, e: Event)
    requires id in v.slots && SlotOk(v, id) && Within(v, SHORT)
    ensures ReachesPeer(v.slots[id], e)
  {
  }

  /** A step that acts on the session's own descriptors. */
  lemma StepKeeps(v: Server, id: nat, e: Event, newFd: int)
    requires Sound(v) && id in v.slots && MayOpen(v, id, newFd) && !e.Resolved?
    requires Enabled(v.slots[id].s, e) && !Aborts(v.slots[id].s, e)
    ensures Sound(Update(v, id, Step(v.slots[id].s, v.users, e), newFd))
  {
    var s := v.slots[id].s;
    var t := Step(s, v.users, e);
    assert SlotOk(v, id);
    StepHandles(s, v.users, e);
    if s.resolving {
      AwaitingIsQuiet(s, e);
    }
    NotAwaited(v, id);
    StepOutcome(v, id, e);
    UpdateKeeps(v, id, t, newFd);
  }

  lemma StepOutcome(v: Server, id: nat, e: Event)
    requires HistoryOk(v) && id in v.slots && Handled(v.slots[id].s) && v.slots[id].s.status == Alive && !e.Resolved?
    requires Enabled(v.slots[id].s, e) && !v.slots[id].s.resolving && Step(v.slots[id].s, v.users, e).status != Aborted
    ensures Outcome(v, id, Step(v.slots[id].s, v.users, e))
  {
    if Step(v.slots[id].s, v.users, e).status == Alive {
      HandledEffects(v.slots[id].s, v.users, e);
      if id in v.removed {
        var i :| 0 <= i < |v.removed| && v.removed[i] == id;
        assert Past(v, v.removed[i]);
      }
    }
  }

  lemma DispatchKeeps(v: Server, fd: int, e: Event, newFd: int)
    requires Sound(v) && Within(v, SHORT) && Possible(v, Dispatch(fd, e, newFd))
    ensures var t := Act(v, Dispatch(fd, e, newFd));
            && (t.aborted <==> Aborts(v.slots[v.table[fd]].s, e))
            && (!t.aborted ==> Sound(t))
  {
    var id := v.table[fd];
    assert SlotOk(v, id);
    PeerIsReached(v, id, e);
    StepHandles(v.slots[id].s, v.users, e);
    if !Aborts(v.slots[id].s, e) {
      StepKeeps(v, id, e, newFd);
    }
  }

  // ---------------------------------------------------------------------
  // A delivery

  /** A queued job names a live session, found through its descriptor, in the one state with a block handler. */
  lemma JobFindsItsSession(v: Server, i: nat)
    requires Sound(v) && i < |v.queue|
    ensures var job := v.queue[i];
            && job.fd in v.table && v.table[job.fd] == job.owner && job.owner in v.slots
            && v.slots[job.owner].s.current == Some(OriginConnect) && OnBlock(OriginConnect)
            && v.slots[job.owner].s.io.ci == OP_NOOP && v.slots[job.owner].s.sock == NoSocket
            && forall attempts :: Enabled(v.slots[job.owner].s, Resolved(attempts))
  {
    var job := v.queue[i];
    assert Awaited(v, job.owner, job.fd) && SlotOk(v, job.owner);
  }

  lemma DeliverKeeps(v: Server, answer: Answer)
    requires Sound(v) && v.queue != [] && FreshFd(v, answer.newFd)
    ensures var u := DeliverJob(v, answer); var job := v.queue[0];
            && Sound(u) && u.queue == v.queue[1..]
            && u.removed == v.removed + [job.owner] && u.delivered == v.delivered + [job.owner]
  {
    var job := v.queue[0];
    JobFindsItsSession(v, 0);
    var id := job.owner;
    var s := v.slots[id].s;
    var v1 := v.(queue := v.queue[1..], removed := v.removed + [id], delivered := v.delivered + [id]);
    assert SlotOk(v, id) && Awaited(v, id, job.fd);
    DeliveryOutcome(v1, id, answer.attempts);
    PoppedIsHandling(v, v1);
    var t := Step(s, v.users, Resolved(answer.attempts));
    NothingToForget(v1, id, answer.attempts);
    UpdateKeeps(v1, id, t, answer.newFd);
    UpdateKeepsQueue(v1, id, t, answer.newFd);
  }

  lemma NothingToForget(v: Server, id: nat, attempts: seq<Attempt>)
    requires id in v.slots && v.slots[id].s.sock == NoSocket
    ensures Reconnecting(v, id, attempts) == v
  {
    var slot := v.slots[id];
    assert slot.(s := slot.s.(sock := NoSocket)) == slot;
  }

  lemma UpdateKeepsQueue(v: Server, id: nat, t: Session, newFd: int)
    requires id in v.slots
    ensures var u := Update(v, id, t, newFd); u.queue == v.queue && u.removed == v.removed && u.delivered == v.delivered
  {
  }

  lemma DeliveryOutcome(v: Server, id: nat, attempts: seq<Attempt>)
    requires id in v.slots && SlotOk(v, id) && v.slots[id].s.resolving
    ensures var t := Step(v.slots[id].s, v.users, Resolved(attempts)); Outcome(v, id, t) && Handled(t)
  {
    var s := v.slots[id].s;
    var e := Resolved(attempts);
    StepHandles(s, v.users, e);
    if Step(s, v.users, e).status == Alive {
      HandledEffects(s, v.users, e);
    }
  }

  lemma PopQueued(v: Server, v1: Server)
    requires v.queue != [] && v1.queue == v.queue[1..]
    ensures forall o :: Queued(v, o) <==> Queued(v1, o) || o == v.queue[0].owner
  {
    forall o ensures Queued(v, o) <==> Queued(v1, o) || o == v.queue[0].owner {
      if Queued(v, o) && o != v.queue[0].owner {
        var i :| 0 <= i < |v.queue| && v.queue[i].owner == o;
        assert v1.queue[i - 1].owner == o;
      }
      if Queued(v1, o) {
        var i :| 0 <= i < |v1.queue| && v1.queue[i].owner == o;
        assert v.queue[i + 1].owner == o;
      }
    }
  }

  lemma PopJobs(v: Server, v1: Server)
    requires JobsOk(v) && v.queue != []
    requires v1 == v.(queue := v.queue[1..], removed := v1.removed, delivered := v1.delivered)
    ensures JobsOk(v1) && v.queue[0].owner !in v1.threads && !Queued(v1, v.queue[0].owner)
  {
    var id := v.queue[0].owner;
    PopQueued(v, v1);
    assert Queued(v, id);
    forall i | 0 <= i < |v1.queue|
      ensures v1.queue[i].owner != id && Awaited(v1, v1.queue[i].owner, v1.queue[i].fd)
    {
      assert v.queue[0].owner != v.queue[i + 1].owner;
      assert Awaited(v, v.queue[i + 1].owner, v.queue[i + 1].fd);
    }
    forall o | o in v1.threads
      ensures Awaited(v1, o, v1.threads[o]) && !Queued(v1, o) && o != id
    {
      assert Awaited(v, o, v.threads[o]) && !Queued(v, o);
    }
  }

  lemma PopHistory(v: Server, v1: Server, id: nat)
    requires HistoryOk(v) && id < v.nextId && !Past(v, id)
    requires v1 == v.(queue := v1.queue, removed := v.removed + [id], delivered := v.delivered + [id])
    ensures v1.delivered == v1.removed
    ensures forall i, j :: 0 <= i < j < |v1.removed| ==> v1.removed[i] != v1.removed[j]
    ensures forall i :: 0 <= i < |v1.removed| ==>
              v1.removed[i] < v1.nextId && (v1.removed[i] == id || Past(v1, v1.removed[i]))
  {
    forall i | 0 <= i < |v1.removed|
      ensures v1.removed[i] < v1.nextId && (v1.removed[i] == id || Past(v1, v1.removed[i]))
      ensures i < |v.removed| ==> v1.removed[i] != id
    {
      if i < |v.removed| {
        assert Past(v, v.removed[i]);
      }
    }
  }

  lemma PoppedIsHandling(v: Server, v1: Server)
    requires Sound(v) && v.queue != []
    requires var id := v.queue[0].owner;
             v1 == v.(queue := v.queue[1..], removed := v.removed + [id], delivered := v.delivered + [id])
    ensures Handling(v1, v.queue[0].owner)
  {
    var id := v.queue[0].owner;
    assert Awaited(v, id, v.queue[0].fd) && SlotOk(v, id);
    PopQueued(v, v1);
    PopJobs(v, v1);
    PopHistory(v, v1, id);
    forall i | i in v1.slots ensures SlotOk(v1, i) { assert SlotOk(v, i); }
    forall fd | fd in v1.table ensures EntryOk(v1, fd) { assert EntryOk(v, fd); }
  }

  lemma LockKeeps(v: Server, locked: bool)
    requires Sound(v)
    ensures Sound(v.(locked := locked))
  {
    var t := v.(locked := locked);
    forall o ensures Queued(t, o) == Queued(v, o) {}
    forall o, d | Awaited(v, o, d) ensures Awaited(t, o, d) {}
    forall id | id in t.slots ensures SlotOk(t, id) { assert SlotOk(v, id); }
    forall fd | fd in t.table ensures EntryOk(t, fd) { assert EntryOk(v, fd); }
    forall i | 0 <= i < |t.removed| ensures Past(t, t.removed[i]) { assert Past(v, v.removed[i]); }
  }

  // ---------------------------------------------------------------------
  // Every run

  /** What can end the process: a dispatch in one of the cases of SessionAnswers.Aborts. */
  predicate AbortedBy(v: Server, a: Action) {
    a.Dispatch? && a.fd in v.table && v.table[a.fd] in v.slots && Aborts(v.slots[v.table[a.fd]].s, a.e)
  }

  lemma ActKeeps(v: Server, a: Action)
    requires Sound(v) && Within(v, SHORT) && Possible(v, a)
    ensures var t := Act(v, a); (t.aborted <==> AbortedBy(v, a)) && (!t.aborted ==> Sound(t))
  {
    match a
    case Accept(fd) => AcceptKeeps(v, fd);
    case Dispatch(fd, e, newFd) => DispatchKeeps(v, fd, e, newFd);
    case ThreadEnds(owner) => ThreadEndsKeeps(v, owner);
    case Lock => LockKeeps(v, true);
    case Deliver(answer) => DeliverKeeps(v, answer);
    case Unlock => LockKeeps(v, false);
    case AddUser(name, pass) => AddUserKeeps(v, name, pass);
  }

  lemma ActStaysWithin(v: Server, a: Action, limit: int)
    requires Within(v, limit) && Below(a, limit)
    ensures Within(Act(v, a), limit)
  {
    if a.Dispatch? && a.fd in v.table && v.table[a.fd] in v.slots && !a.e.Resolved? {
      DispatchStaysWithin(v, v.table[a.fd], a.e, a.newFd, limit);
    }
  }

  lemma DispatchStaysWithin(v: Server, id: nat, e: Event, newFd: int, limit: int)
    requires Within(v, limit) && newFd < limit && id in v.slots && !e.Resolved?
    ensures Within(DispatchEvent(v, id, e, newFd), limit)
  {
    if !ReachesPeer(v.slots[id], e) {
      AstrayStaysWithin(v, id, e, R.Narrow(PeerFd(v.slots[id], e.side)), limit);
    }
  }

  lemma AstrayStaysWithin(v: Server, id: nat, e: Event, target: int, limit: int)
    requires Within(v, limit) && id in v.slots && !e.Resolved?
    ensures Within(GoAstray(v, id, e, target), limit)
  {
    var s := v.slots[id].s;
    LandStaysWithin(v, id, Astray(s, Step(s, v.users, e), Other(e.side)), Asked(s, e), target, limit);
  }

  lemma LandStaysWithin(v: Server, id: nat, t: Session, asked: Option<Interest>, target: int, limit: int)
    requires Within(v, limit) && id in v.slots
    ensures Within(Land(v, id, t, asked, target), limit)
  {
  }

  lemma {:induction false} RunKeeps(v: Server, acts: seq<Action>)
    requires Sound(v) && Within(v, SHORT) && Runs(v, acts, SHORT)
    ensures var u := After(v, acts); !u.aborted ==> Sound(u) && Within(u, SHORT)
    decreases |acts|
  {
    if acts != [] {
      var v1 := Act(v, acts[0]);
      ActKeeps(v, acts[0]);
      ActStaysWithin(v, acts[0], SHORT);
      if v1.aborted {
        AbortedStays(v1, acts[1..]);
      } else {
        RunKeeps(v1, acts[1..]);
      }
    }
  }

  /** Nothing follows an abort. */
  lemma AbortedStays(v: Server, acts: seq<Action>)
    requires v.aborted && Runs(v, acts, SHORT)
    ensures acts == [] && After(v, acts) == v
  {
    StuckPathEnds(Admits(SHORT), Act, v, acts);
  }

  lemma {:induction false} OwnAnswersAside(v: Server, acts: seq<Action>, limit: int, id: nat)
    requires RunsFor(v, acts, limit, id)
    ensures Runs(v, acts, limit)
    decreases |acts|
  {
    if acts != [] {
      PathFirst(AdmitsFor(limit, id), Act, v, acts);
      OwnAnswersAside(Act(v, acts[0]), acts[1..], limit, id);
    }
  }

  // ---------------------------------------------------------------------
  // One session's own invariant

  lemma InvUnderMoreUsers(s: Session, users: seq<User>, name: CString, pass: CString)
    requires Inv(s, users)
    ensures Inv(s, UsersAfter(users, name, pass))
  {
    AddUserOnlyExtends(users, name, pass, s.auth.user, s.auth.pass);
  }

  lemma UpdateKeepsInvOf(v: Server, i: nat, t: Session, newFd: int, id: nat)
    requires i in v.slots && InvOf(v, id) && (i == id ==> Inv(t, v.users))
    ensures InvOf(Update(v, i, t, newFd), id)
  {
  }

  lemma DispatchKeepsInvOf(v: Server, fd: int, e: Event, newFd: int, id: nat)
    requires var a := Dispatch(fd, e, newFd); Sound(v) && Within(v, SHORT) && Possible(v, a) && GoodFor(v, a, id)
    requires InvOf(v, id)
    ensures InvOf(Act(v, Dispatch(fd, e, newFd)), id)
  {
    var i := v.table[fd];
    assert SlotOk(v, i);
    PeerIsReached(v, i, e);
    if i == id {
      StepKeepsInvIffCopesWith(v.slots[id].s, v.users, e);
    }
    UpdateKeepsInvOf(v, i, Step(v.slots[i].s, v.users, e), newFd, id);
  }

  lemma DeliverKeepsInvOf(v: Server, answer: Answer, id: nat)
    requires Sound(v) && Possible(v, Deliver(answer)) && GoodFor(v, Deliver(answer), id) && InvOf(v, id)
    ensures InvOf(DeliverJob(v, answer), id)
  {
    JobFindsItsSession(v, 0);
    var i := v.queue[0].owner;
    var v1 := v.(queue := v.queue[1..], removed := v.removed + [i], delivered := v.delivered + [i]);
    if i == id {
      StepKeepsInvIffCopesWith(v.slots[id].s, v.users, Resolved(answer.attempts));
    }
    NothingToForget(v1, i, answer.attempts);
    UpdateKeepsInvOf(v1, i, Step(v.slots[i].s, v.users, Resolved(answer.attempts)), answer.newFd, id);
  }

  /** Only the answers to session `id` count for it. */
  lemma ActKeepsInvOf(v: Server, a: Action, id: nat)
    requires Sound(v) && Within(v, SHORT) && Possible(v, a) && GoodFor(v, a, id) && InvOf(v, id)
    ensures InvOf(Act(v, a), id)
  {
    match a
    case Accept(fd) => NewSessionIsInv(v.users);
    case Dispatch(fd, e, newFd) => DispatchKeepsInvOf(v, fd, e, newFd, id);
    case Deliver(answer) => DeliverKeepsInvOf(v, answer, id);
    case AddUser(name, pass) =>
      if id in v.slots {
        InvUnderMoreUsers(v.slots[id].s, v.users, name, pass);
      }
    case _ =>
  }

  lemma {:induction false} RunKeepsInvOf(v: Server, acts: seq<Action>, id: nat)
    requires Sound(v) && Within(v, SHORT) && RunsFor(v, acts, SHORT, id) && InvOf(v, id)
    ensures var u := After(v, acts); InvOf(u, id) && (!u.aborted ==> Sound(u))
    decreases |acts|
  {
    if acts != [] {
      var v1 := Act(v, acts[0]);
      PathFirst(AdmitsFor(SHORT, id), Act, v, acts);
      ActKeeps(v, acts[0]);
      ActStaysWithin(v, acts[0], SHORT);
      ActKeepsInvOf(v, acts[0], id);
      if v1.aborted {
        OwnAnswersAside(v1, acts[1..], SHORT, id);
        AbortedStays(v1, acts[1..]);
      } else {
        RunKeepsInvOf(v1, acts[1..], id);
      }
    }
  }

  /** With good answers for every session nothing aborts, and all keep their invariants. */
  lemma GoodActKeeps(v: Server, a: Action)
    requires ServerInv(v) && Within(v, SHORT) && Possible(v, a) && Good(v, a)
    ensures ServerInv(Act(v, a))
  {
    ActKeeps(v, a);
    if a.Dispatch? {
      var s := v.slots[v.table[a.fd]].s;
      assert InvOf(v, v.table[a.fd]);
      StepKeepsInvIffCopesWith(s, v.users, a.e);
      assert SlotOk(v, v.table[a.fd]);
      StepHandles(s, v.users, a.e);
    }
    forall id | id in Act(v, a).slots
      ensures InvOf(Act(v, a), id)
    {
      assert id in v.slots ==> InvOf(v, id);
      ActKeepsInvOf(v, a, id);
    }
  }

  lemma {:induction false} GoodRunKeeps(v: Server, acts: seq<Action>, limit: int)
    requires ServerInv(v) && Within(v, SHORT) && GoodRuns(v, acts, limit) && limit <= SHORT
    ensures ServerInv(After(v, acts))
    decreases |acts|
  {
    if acts != [] {
      GoodActKeeps(v, acts[0]);
      ActStaysWithin(v, acts[0], SHORT);
      GoodRunKeeps(Act(v, acts[0]), acts[1..], limit);
    }
  }

  // ---------------------------------------------------------------------
  // Authentication, whatever the environment does

  /** No live session is further than what it has shown of itself allows. */
  predicate AuthHolds(v: Server) {
    forall id :: id in v.slots ==> v.slots[id].s.status == Alive && AuthInv(v.slots[id].s, v.users)
  }

  lemma UpdateKeepsAuth(v: Server, id: nat, t: Session, newFd: int)
    requires AuthHolds(v) && id in v.slots && AuthInv(t, v.users)
    ensures AuthHolds(Update(v, id, t, newFd))
  {
  }

  lemma DisturbKeepsAuth(v: Server, fd: int, i: Interest)
    requires AuthHolds(v) && fd in v.table && v.table[fd] in v.slots
    ensures AuthHolds(Disturb(v, fd, i))
  {
    var slot := v.slots[v.table[fd]];
    assert SameAuth(slot.s, slot.s.SetInterest(SideOf(slot, fd), i));
  }

  lemma LandKeepsAuth(v: Server, id: nat, t: Session, asked: Option<Interest>, target: int)
    requires AuthHolds(v) && id in v.slots && AuthInv(t, v.users) && t.status == Alive
    ensures AuthHolds(Land(v, id, t, asked, target))
  {
    var v1 := v.(slots := v.slots[id := v.slots[id].(s := t)]);
    if asked.Some? {
      if target in v.table {
        if v.table[target] in v1.slots {
          DisturbKeepsAuth(v1, target, asked.value);
        }
      } else if target !in v.passive {
        UpdateKeepsAuth(v, id, Sessions.Teardown(t), -1);
      }
    }
  }

  lemma GoAstrayKeepsAuth(v: Server, id: nat, e: Event, target: int)
    requires AuthHolds(v) && id in v.slots && !e.Resolved? && AuthInv(Step(v.slots[id].s, v.users, e), v.users)
    ensures AuthHolds(GoAstray(v, id, e, target))
  {
    var s := v.slots[id].s;
    var t := Step(s, v.users, e);
    if t.status != Alive {
      UpdateKeepsAuth(v, id, t, -1);
    } else {
      assert SameAuth(t, Astray(s, t, Other(e.side)));
      LandKeepsAuth(v, id, Astray(s, t, Other(e.side)), Asked(s, e), target);
    }
  }

  lemma DispatchKeepsAuth(v: Server, id: nat, e: Event, newFd: int)
    requires AuthHolds(v) && id in v.slots && !e.Resolved?
    ensures AuthHolds(DispatchEvent(v, id, e, newFd))
  {
    StepKeepsAuth(v.slots[id].s, v.users, e);
    if ReachesPeer(v.slots[id], e) {
      UpdateKeepsAuth(v, id, Step(v.slots[id].s, v.users, e), newFd);
    } else {
      GoAstrayKeepsAuth(v, id, e, R.Narrow(PeerFd(v.slots[id], e.side)));
    }
  }

  lemma ReconnectingKeepsAuth(v: Server, id: nat, attempts: seq<Attempt>)
    requires AuthHolds(v) && id in v.slots
    ensures AuthHolds(Reconnecting(v, id, attempts))
  {
    assert SameAuth(v.slots[id].s, v.slots[id].s.(sock := NoSocket));
  }

  lemma DeliveryKeepsAuth(v: Server, answer: Answer)
    requires AuthHolds(v) && v.queue != []
    ensures AuthHolds(DeliverJob(v, answer))
  {
    var fd := v.queue[0].fd;
    if fd in v.table && v.table[fd] in v.slots {
      var id := v.table[fd];
      var v1 := v.(queue := v.queue[1..], removed := v.removed + [v.queue[0].owner], delivered := v.delivered + [id]);
      var v2 := Reconnecting(v1, id, answer.attempts);
      StepKeepsAuth(v.slots[id].s, v.users, Resolved(answer.attempts));
      ReconnectingKeepsAuth(v1, id, answer.attempts);
      UpdateKeepsAuth(v2, id, Step(v.slots[id].s, v.users, Resolved(answer.attempts)), answer.newFd);
    }
  }

  /** Any action at all, possible or not. */
  lemma ActKeepsAuth(v: Server, a: Action)
    requires AuthHolds(v)
    ensures AuthHolds(Act(v, a))
  {
    match a
    case Dispatch(fd, e, newFd) =>
      if fd in v.table && v.table[fd] in v.slots && !e.Resolved? {
        DispatchKeepsAuth(v, v.table[fd], e, newFd);
      }
    case Deliver(answer) =>
      if v.queue != [] {
        DeliveryKeepsAuth(v, answer);
      }
    case AddUser(name, pass) =>
      forall id | id in v.slots ensures AuthInv(v.slots[id].s, UsersAfter(v.users, name, pass)) {
        AuthUnderMoreUsers(v.slots[id].s, v.users, name, pass);
      }
    case _ =>
  }

  lemma {:induction false} RunKeepsAuth(v: Server, acts: seq<Action>)
    requires AuthHolds(v)
    ensures AuthHolds(After(v, acts))
    decreases |acts|
  {
    if acts != [] {
      ActKeepsAuth(v, acts[0]);
      RunKeepsAuth(Act(v, acts[0]), acts[1..]);
    }
  }

  /**
   * Whatever the network, the resolver and the origins answer, and whichever
   * descriptors the kernel hands out: a session that may send a request, or has
   * sent one, either offered "no authentication" and not the password method, or
   * named a pair that the table of users accepts now. Not even `Possible` is
   * needed of the actions.
   */
  lemma AuthenticationIsNeverSkipped(passive: set<int>, acts: seq<Action>, id: nat)
    requires id in After(NewServer(passive), acts).slots
    requires var s := After(NewServer(passive), acts).slots[id].s;
             s.current.Some? && Rank(RequestRead) <= Rank(s.current.value) <= Rank(Copy)
    ensures var v := After(NewServer(passive), acts); var s := v.slots[id].s;
            || (G.NO_AUTHENTICATION_REQUIRED in s.greeting.methods && G.USERNAME_PASSWORD_AUTH !in s.greeting.methods)
            || (G.USERNAME_PASSWORD_AUTH in s.greeting.methods && Accepted(v.users, s.auth.user, s.auth.pass))
  {
    RunKeepsAuth(NewServer(passive), acts);
  }

  // ---------------------------------------------------------------------
  // Replies, whatever the environment does

  /** What every live session has answered, and what waits to be sent, is as its state says. */
  predicate RepliesHold(v: Server) {
    forall id :: id in v.slots ==> v.slots[id].s.status == Alive && ReplyInv(v.slots[id].s)
  }

  lemma UpdateKeepsReplies(v: Server, id: nat, t: Session, newFd: int)
    requires RepliesHold(v) && id in v.slots && ReplyInv(t)
    ensures RepliesHold(Update(v, id, t, newFd))
  {
    hide ReplyInv;
    var u := Update(v, id, t, newFd);
    forall k | k in u.slots ensures u.slots[k].s.status == Alive && ReplyInv(u.slots[k].s) {
      assert k != id ==> u.slots[k] == v.slots[k];
    }
  }

  lemma DisturbKeepsReplies(v: Server, fd: int, i: Interest)
    requires RepliesHold(v) && fd in v.table && v.table[fd] in v.slots
    ensures RepliesHold(Disturb(v, fd, i))
  {
    var slot := v.slots[v.table[fd]];
    var side := SideOf(slot, fd);
    var t := slot.s.SetInterest(side, Additive(slot.s.io.Interest(side), i));
    SameRepliesHold(slot.s, t);
    assert Disturb(v, fd, i) == v || Disturb(v, fd, i) == v.(slots := v.slots[v.table[fd] := slot.(s := t)]);
  }

  lemma LandKeepsReplies(v: Server, id: nat, t: Session, asked: Option<Interest>, target: int)
    requires RepliesHold(v) && id in v.slots && ReplyInv(t) && t.status == Alive
    ensures RepliesHold(Land(v, id, t, asked, target))
  {
    var v1 := v.(slots := v.slots[id := v.slots[id].(s := t)]);
    if asked.Some? {
      if target in v.table {
        if v.table[target] in v1.slots {
          DisturbKeepsReplies(v1, target, asked.value);
        }
      } else if target !in v.passive {
        UpdateKeepsReplies(v, id, Sessions.Teardown(t), -1);
      }
    }
  }

  lemma GoAstrayKeepsReplies(v: Server, id: nat, e: Event, target: int)
    requires RepliesHold(v) && id in v.slots && !e.Resolved? && ReplyInv(Step(v.slots[id].s, v.users, e))
    ensures RepliesHold(GoAstray(v, id, e, target))
  {
    var s := v.slots[id].s;
    var t := Step(s, v.users, e);
    if t.status != Alive {
      UpdateKeepsReplies(v, id, t, -1);
    } else {
      SameRepliesHold(t, Astray(s, t, Other(e.side)));
      LandKeepsReplies(v, id, Astray(s, t, Other(e.side)), Asked(s, e), target);
    }
  }

  lemma DispatchKeepsReplies(v: Server, id: nat, e: Event, newFd: int)
    requires RepliesHold(v) && id in v.slots && !e.Resolved?
    ensures RepliesHold(DispatchEvent(v, id, e, newFd))
  {
    StepKeepsReplies(v.slots[id].s, v.users, e);
    if ReachesPeer(v.slots[id], e) {
      UpdateKeepsReplies(v, id, Step(v.slots[id].s, v.users, e), newFd);
    } else {
      GoAstrayKeepsReplies(v, id, e, R.Narrow(PeerFd(v.slots[id], e.side)));
    }
  }

  lemma ReconnectingKeepsReplies(v: Server, id: nat, attempts: seq<Attempt>)
    requires RepliesHold(v) && id in v.slots
    ensures RepliesHold(Reconnecting(v, id, attempts))
  {
  }

  lemma DeliveryKeepsReplies(v: Server, answer: Answer)
    requires RepliesHold(v) && v.queue != []
    ensures RepliesHold(DeliverJob(v, answer))
  {
    var fd := v.queue[0].fd;
    if fd in v.table && v.table[fd] in v.slots {
      var id := v.table[fd];
      var v1 := v.(queue := v.queue[1..], removed := v.removed + [v.queue[0].owner], delivered := v.delivered + [id]);
      var v2 := Reconnecting(v1, id, answer.attempts);
      StepKeepsReplies(v.slots[id].s, v.users, Resolved(answer.attempts));
      ReconnectingKeepsReplies(v1, id, answer.attempts);
      UpdateKeepsReplies(v2, id, Step(v.slots[id].s, v.users, Resolved(answer.attempts)), answer.newFd);
    }
  }

  /** Any action at all, possible or not. */
  lemma ActKeepsReplies(v: Server, a: Action)
    requires RepliesHold(v)
    ensures RepliesHold(Act(v, a))
  {
    match a
    case Dispatch(fd, e, newFd) =>
      if fd in v.table && v.table[fd] in v.slots && !e.Resolved? {
        DispatchKeepsReplies(v, v.table[fd], e, newFd);
      }
    case Deliver(answer) =>
      if v.queue != [] {
        DeliveryKeepsReplies(v, answer);
      }
    case _ =>
  }

  lemma {:induction false} RunKeepsReplies(v: Server, acts: seq<Action>)
    requires RepliesHold(v)
    ensures RepliesHold(After(v, acts))
    decreases |acts|
  {
    if acts != [] {
      ActKeepsReplies(v, acts[0]);
      RunKeepsReplies(Act(v, acts[0]), acts[1..]);
    }
  }

  /**
   * Whatever the network, the resolver and the origins answer, and whichever
   * descriptors the kernel hands out: a session that relays was entered over a
   * registered connection seen without error, behind whole replies of success and
   * nothing else, and no relayed byte was lost or made up. Again not even
   * `Possible` is needed of the actions.
   */
  lemma RelayingIsEarned(passive: set<int>, acts: seq<Action>, id: nat)
    requires id in After(NewServer(passive), acts).slots
    requires After(NewServer(passive), acts).slots[id].s.current == Some(Copy)
    ensures var s := After(NewServer(passive), acts).slots[id].s;
            && s.sock == Registered && s.verified && s.fills > 0
            && s.replySent == Repeat(Q.ReplyMessage(Q.SUCCEEDED), s.fills)
            && R.Conserved(s.io, s.early, [])
  {
    RunKeepsReplies(NewServer(passive), acts);
  }

  /**
   * Likewise, what was sent in answer to a request, to either end, and what waits to
   * be sent, is whole copies of the ten-byte reply, and one of success follows a
   * connection seen without error.
   */
  lemma EveryReplyIsWhole(passive: set<int>, acts: seq<Action>, id: nat)
    requires id in After(NewServer(passive), acts).slots
    requires After(NewServer(passive), acts).slots[id].s.current == Some(RequestWrite)
    ensures var s := After(NewServer(passive), acts).slots[id].s;
            && s.replySent + s.io.wb.content == Repeat(Q.ReplyMessage(s.request.reply), s.fills)
            && (s.request.reply == Q.SUCCEEDED ==> s.verified)
  {
    RunKeepsReplies(NewServer(passive), acts);
  }

  // ---------------------------------------------------------------------
  // Success over a socket that the selector knows

  /** The resolver's answer to session `id` sets its client to be written over an unregistered socket. */
  predicate Misled(v: Server, a: Action, id: nat) {
    && a.Deliver? && v.queue != [] && v.queue[0].fd in v.table && v.table[v.queue[0].fd] == id
    && Misleads(a.answer.attempts)
  }

  function AdmitsLed(limit: int, id: nat): (Server, Action) -> bool {
    (v, a) => Possible(v, a) && !Misled(v, a, id) && Below(a, limit)
  }

  /** With any answers but those that mislead session `id`. */
  ghost predicate RunsLed(v: Server, acts: seq<Action>, limit: int, id: nat) {
    Path(AdmitsLed(limit, id), Act, v, acts)
  }

  predicate KnownOf(v: Server, id: nat) {
    id in v.slots ==> Known(v.slots[id].s)
  }

  lemma UpdateKeepsKnown(v: Server, i: nat, t: Session, newFd: int, id: nat)
    requires i in v.slots && KnownOf(v, id) && (i == id ==> Known(t))
    ensures KnownOf(Update(v, i, t, newFd), id)
  {
  }

  lemma DispatchKeepsKnown(v: Server, fd: int, e: Event, newFd: int, id: nat)
    requires Sound(v) && Within(v, SHORT) && Possible(v, Dispatch(fd, e, newFd)) && RepliesHold(v) && KnownOf(v, id)
    ensures KnownOf(Act(v, Dispatch(fd, e, newFd)), id)
  {
    var i := v.table[fd];
    assert SlotOk(v, i);
    PeerIsReached(v, i, e);
    if i == id {
      StepKeepsKnown(v.slots[id].s, v.users, e);
    }
    UpdateKeepsKnown(v, i, Step(v.slots[i].s, v.users, e), newFd, id);
  }

  lemma DeliverKeepsKnown(v: Server, answer: Answer, id: nat)
    requires Sound(v) && Possible(v, Deliver(answer)) && !Misled(v, Deliver(answer), id) && KnownOf(v, id)
    ensures KnownOf(DeliverJob(v, answer), id)
  {
    JobFindsItsSession(v, 0);
    var i := v.queue[0].owner;
    var v1 := v.(queue := v.queue[1..], removed := v.removed + [i], delivered := v.delivered + [i]);
    assert SlotOk(v, i);
    AwaitingIsQuiet(v.slots[i].s, Resolved(answer.attempts));
    if i == id {
      ResolvedKeepsKnownIff(v.slots[id].s, v.users, answer.attempts);
    }
    NothingToForget(v1, i, answer.attempts);
    UpdateKeepsKnown(v1, i, Step(v.slots[i].s, v.users, Resolved(answer.attempts)), answer.newFd, id);
  }

  lemma ActKeepsKnown(v: Server, a: Action, id: nat)
    requires Sound(v) && Within(v, SHORT) && Possible(v, a) && !Misled(v, a, id) && RepliesHold(v) && KnownOf(v, id)
    ensures KnownOf(Act(v, a), id)
  {
    match a
    case Dispatch(fd, e, newFd) => DispatchKeepsKnown(v, fd, e, newFd, id);
    case Deliver(answer) => DeliverKeepsKnown(v, answer, id);
    case _ =>
  }

  lemma {:induction false} RunKeepsKnown(v: Server, acts: seq<Action>, id: nat)
    requires Sound(v) && Within(v, SHORT) && RunsLed(v, acts, SHORT, id) && RepliesHold(v) && KnownOf(v, id)
    ensures KnownOf(After(v, acts), id)
    decreases |acts|
  {
    if acts != [] {
      var v1 := Act(v, acts[0]);
      PathFirst(AdmitsLed(SHORT, id), Act, v, acts);
      ActKeeps(v, acts[0]);
      ActStaysWithin(v, acts[0], SHORT);
      ActKeepsReplies(v, acts[0]);
      ActKeepsKnown(v, acts[0], id);
      if v1.aborted {
        StuckPathEnds(AdmitsLed(SHORT, id), Act, v1, acts[1..]);
      } else {
        RunKeepsKnown(v1, acts[1..], id);
      }
    }
  }

  /**
   * Success is being reported over a registered socket, unless the resolver's answer
   * misled this session: see SessionReply.ResolvedKeepsKnownIff.
   */
  lemma SuccessIsOverRegistered(passive: set<int>, acts: seq<Action>, id: nat)
    requires RunsLed(NewServer(passive), acts, SHORT, id) && id in After(NewServer(passive), acts).slots
    requires var s := After(NewServer(passive), acts).slots[id].s;
             s.current == Some(RequestWrite) && s.request.reply == Q.SUCCEEDED
    ensures After(NewServer(passive), acts).slots[id].s.sock == Registered
  {
    NewServerIsInv(passive);
    RunKeepsKnown(NewServer(passive), acts, id);
    RunKeepsReplies(NewServer(passive), acts);
  }

  // ---------------------------------------------------------------------
  // What every run of the server guarantees

  /**
   * Whatever the environment answers, and up to an abort: a registered descriptor
   * waits only for what its session's state handles, so no missing handler is met.
   */
  lemma EveryInterestHasItsHandler(passive: set<int>, acts: seq<Action>, fd: int)
    requires Runs(NewServer(passive), acts, SHORT) && !After(NewServer(passive), acts).aborted
    requires fd in After(NewServer(passive), acts).table
    ensures var v := After(NewServer(passive), acts);
            && v.table[fd] in v.slots
            && var slot := v.slots[v.table[fd]];
               var i := slot.s.io.Interest(SideOf(slot, fd));
               var st := First(slot.s).current.value;
               (HasRead(i) ==> OnRead(st)) && (HasWrite(i) ==> OnWrite(st))
  {
    NewServerIsInv(passive);
    RunKeeps(NewServer(passive), acts);
    var v := After(NewServer(passive), acts);
    assert EntryOk(v, fd) && SlotOk(v, v.table[fd]);
    HandledHasHandler(v.slots[v.table[fd]].s);
  }

  /** And an action ends the process exactly in the cases of `Aborts`. */
  lemma AbortsIff(passive: set<int>, acts: seq<Action>, a: Action)
    requires Runs(NewServer(passive), acts, SHORT) && Possible(After(NewServer(passive), acts), a)
    ensures var v := After(NewServer(passive), acts); Act(v, a).aborted <==> AbortedBy(v, a)
  {
    NewServerIsInv(passive);
    RunKeeps(NewServer(passive), acts);
    ActKeeps(After(NewServer(passive), acts), a);
  }

  /**
   * Under any interleaving of resolver threads and drains, whatever they find, and
   * up to an abort: the notifications made are the jobs removed, no session's
   * twice; each job still queued names, through its descriptor, the very session
   * that asked for it.
   */
  lemma EachJobIsDeliveredOnce(passive: set<int>, acts: seq<Action>)
    requires Runs(NewServer(passive), acts, SHORT) && !After(NewServer(passive), acts).aborted
    ensures var v := After(NewServer(passive), acts);
            && v.delivered == v.removed
            && (forall i, j :: 0 <= i < j < |v.removed| ==> v.removed[i] != v.removed[j])
            && (forall i :: 0 <= i < |v.queue| ==>
                  v.queue[i].fd in v.table && v.table[v.queue[i].fd] == v.queue[i].owner
                    && v.queue[i].owner !in v.removed)
  {
    NewServerIsInv(passive);
    RunKeeps(NewServer(passive), acts);
    var v := After(NewServer(passive), acts);
    forall i | 0 <= i < |v.queue|
      ensures v.queue[i].fd in v.table && v.table[v.queue[i].fd] == v.queue[i].owner && v.queue[i].owner !in v.removed
    {
      JobFindsItsSession(v, i);
      assert Awaited(v, v.queue[i].owner, v.queue[i].fd);
      forall k | 0 <= k < |v.removed|
        ensures v.removed[k] != v.queue[i].owner
      {
        assert Past(v, v.removed[k]);
      }
    }
  }

  /** A descriptor of the session is waited for, with an answer the kernel can give. */
  predicate Waits(v: Server, id: nat, fd: int, e: Event)
    requires id in v.slots
  {
    fd in v.table && v.table[fd] == id && !e.Resolved? && e.side == SideOf(v.slots[id], fd) && Enabled(v.slots[id].s, e)
  }

  /**
   * No live session is forgotten: one of its descriptors is waited for, or its
   * resolution is running or queued; but for one in COPY whose client had sent
   * bytes beyond its request. Again only its own answers matter.
   */
  lemma NoSessionIsForgotten(passive: set<int>, acts: seq<Action>, id: nat)
    requires RunsFor(NewServer(passive), acts, SHORT, id) && !After(NewServer(passive), acts).aborted
    requires id in After(NewServer(passive), acts).slots
    requires var s := After(NewServer(passive), acts).slots[id].s; s.current == Some(Copy) ==> s.early == []
    ensures var v := After(NewServer(passive), acts);
            (exists fd, e :: Waits(v, id, fd, e)) || id in v.threads || Queued(v, id)
  {
    NewServerIsInv(passive);
    RunKeepsInvOf(NewServer(passive), acts, id);
    var v := After(NewServer(passive), acts);
    var slot := v.slots[id];
    assert SlotOk(v, id);
    var e := AlwaysWaiting(slot.s, v.users);
    if !slot.s.resolving {
      assert Waits(v, id, if e.side == Client then slot.clientFd else slot.originFd, e);
    }
  }
}
