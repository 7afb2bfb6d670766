/**
 * How far the server's invariant reaches: the COPY handlers pass the other end's
 * descriptor through eight bits (src/copy_stm.c), so all of it rests on
 * descriptors below 256, and on nothing less.
 */
module ServerLimits {
  import opened Base
  import opened Buffers
  import opened Interests
  import opened Parameters
  import opened Paths
  import opened SelectorTables
  import opened Sessions
  import opened SessionAnswers
  import opened SessionSafety
  import opened SessionProgress
  import opened ServerAstray
  import opened Servers
  import G = GreetingParsers
  import Q = RequestParsers
  import R = Relays

  // ---------------------------------------------------------------------
  // Runs

  lemma RunThen(v: Server, acts: seq<Action>, more: seq<Action>, limit: int)
    requires GoodRuns(v, acts, limit) && GoodRuns(After(v, acts), more, limit)
    ensures GoodRuns(v, acts + more, limit) && After(v, acts + more) == After(After(v, acts), more)
  {
    PathThen(Allows(limit), Act, v, acts, more);
  }

  lemma OneAct(v: Server, a: Action, limit: int)
    requires Possible(v, a) && Good(v, a) && Below(a, limit)
    ensures GoodRuns(v, [a], limit) && After(v, [a]) == Act(v, a)
  {
    PathOfOne(Allows(limit), Act, v, a);
  }

  /** Session `id` can be dispatched, with `newFd` for its origin. */
  predicate Ready(v: Server, id: nat, newFd: int) {
    && !v.aborted && !v.locked && id in v.slots && ValidFd(newFd) && newFd !in v.passive
    && var slot := v.slots[id];
    && Inv(slot.s, v.users) && slot.clientFd in v.table && v.table[slot.clientFd] == id && slot.clientFd != newFd
    && (slot.s.resolving ==> id in v.threads && v.threads[id] == slot.clientFd)
    && if slot.s.sock == Registered then slot.originFd == newFd && newFd in v.table && v.table[newFd] == id
       else slot.originFd == -1 && newFd !in v.table
  }

  /** Only session `id` has moved on, and registered `newFd` at most. */
  predicate Elsewhere(v: Server, u: Server, id: nat, newFd: int)
    requires id in v.slots && id in u.slots
  {
    && u.passive == v.passive && u.users == v.users && u.nextId == v.nextId
    && u.threads - {id} == v.threads - {id}
    && u.queue == v.queue && u.removed == v.removed && u.delivered == v.delivered
    && u.slots == v.slots[id := u.slots[id]] && u.slots[id].clientFd == v.slots[id].clientFd
    && (u.table == v.table || u.table == v.table[newFd := id])
  }

  lemma StillElsewhere(v: Server, u: Server, w: Server, id: nat, newFd: int)
    requires id in v.slots && id in u.slots && id in w.slots && Elsewhere(v, u, id, newFd) && Elsewhere(u, w, id, newFd)
    ensures Elsewhere(v, w, id, newFd)
  {
  }

  lemma LiftEvent(v: Server, id: nat, e: Event, newFd: int, limit: int) returns (a: Action)
    requires Ready(v, id, newFd) && newFd < limit && !e.Resolved?
    requires Served(v.slots[id].s, e) && Step(v.slots[id].s, v.users, e).status == Alive
    ensures Possible(v, a) && Good(v, a) && Below(a, limit)
    ensures var u := Act(v, a);
            id in u.slots && Ready(u, id, newFd) && u.slots[id].s == Step(v.slots[id].s, v.users, e)
              && Elsewhere(v, u, id, newFd)
  {
    var slot := v.slots[id];
    a := Dispatch(if e.side == Client then slot.clientFd else slot.originFd, e, newFd);
    StepEffects(slot.s, v.users, e);
    UpdateIsReady(v, id, Step(slot.s, v.users, e), newFd);
  }

  lemma UpdateIsReady(v: Server, id: nat, t: Session, newFd: int)
    requires Ready(v, id, newFd) && t.status == Alive && Inv(t, v.users)
    requires v.slots[id].s.sock == Registered ==> t.sock == Registered
    ensures var u := Update(v, id, t, newFd);
            id in u.slots && Ready(u, id, newFd) && u.slots[id].s == t && Elsewhere(v, u, id, newFd)
  {
  }

  /** What leads one session on is a run of the server. */
  lemma {:induction false} LiftEvents(v: Server, id: nat, es: seq<Event>, t: Session, newFd: int, limit: int)
      returns (acts: seq<Action>)
    requires Ready(v, id, newFd) && newFd < limit && forall e :: e in es ==> !e.Resolved?
    requires Leads(v.slots[id].s, v.users, es, t) && t.status == Alive
    ensures GoodRuns(v, acts, limit)
    ensures var u := After(v, acts);
            id in u.slots && Ready(u, id, newFd) && u.slots[id].s == t && Elsewhere(v, u, id, newFd)
    decreases |es|
  {
    if es == [] {
      acts := [];
    } else {
      FirstOfLeads(v.slots[id].s, v.users, es, t);
      var a := LiftEvent(v, id, es[0], newFd, limit);
      var v1 := Act(v, a);
      var more := LiftEvents(v1, id, es[1..], t, newFd, limit);
      StillElsewhere(v, v1, After(v1, more), id, newFd);
      acts := [a] + more;
      assert acts[1..] == more;
    }
  }

  /** A client that needs no authentication and names an address of version 4. */
  function Visitor(addr: seq<byte>): Speaker
    requires |addr| == 4
  {
    Speaker([G.NO_AUTHENTICATION_REQUIRED], [G.Encode([G.NO_AUTHENTICATION_REQUIRED])], [], false,
            [], [], [], [], false,
            Q.IPV4, addr, 80, [Q.Encode(Q.IPV4, addr, 80)], [])
  }

  lemma VisitorIsRelayed(users: seq<User>, addr: seq<byte>) returns (t: Session)
    requires |addr| == 4
    ensures var es := Visitor(addr).Events();
            Leads(NEW_SESSION, users, es, t) && forall e :: e in es ==> !e.Resolved?
    ensures Relaying(t, EmptyBuf(BUFFER_SIZE))
  {
    var c := Visitor(addr);
    WholeIsCut(G.Encode(c.methods));
    WholeIsCut(Q.Encode(Q.IPV4, addr, 80));
    t := WellBehavedClientReachesCopy(users, c);
  }

  /** One session, relaying between two descriptors. */
  predicate Pair(v: Server, passive: set<int>, client: int, origin: int) {
    && !v.aborted && !v.locked && v.passive == passive && v.users == [] && v.nextId == 1
    && v.queue == [] && v.removed == [] && v.delivered == []
    && v.slots.Keys == {0} && v.table == map[client := 0, origin := 0]
    && v.slots[0].clientFd == client && v.slots[0].originFd == origin
    && Relaying(v.slots[0].s, EmptyBuf(BUFFER_SIZE)) && Inv(v.slots[0].s, [])
  }

  /** Any two descriptors can come to be those of a relaying session. */
  lemma PairIsReached(passive: set<int>, client: int, origin: int, limit: int) returns (acts: seq<Action>)
    requires ValidFd(client) && ValidFd(origin) && client != origin && client < limit && origin < limit
    requires client !in passive && origin !in passive
    ensures GoodRuns(NewServer(passive), acts, limit) && Pair(After(NewServer(passive), acts), passive, client, origin)
  {
    var v := NewServer(passive);
    var v1 := AcceptIsReady(passive, client, origin);
    OneAct(v, Accept(client), limit);
    var more := VisitorComes(v1, origin, limit, [0, 0, 0, 0]);
    RunThen(v, [Accept(client)], more, limit);
    PairStands(v1, After(v1, more), passive, client, origin);
    acts := [Accept(client)] + more;
  }

  lemma VisitorComes(v: Server, origin: int, limit: int, addr: seq<byte>) returns (acts: seq<Action>)
    requires |addr| == 4 && Ready(v, 0, origin) && v.slots[0].s == NEW_SESSION && origin < limit
    ensures GoodRuns(v, acts, limit)
    ensures var u := After(v, acts);
            0 in u.slots && Ready(u, 0, origin) && Elsewhere(v, u, 0, origin)
              && Relaying(u.slots[0].s, EmptyBuf(BUFFER_SIZE))
  {
    var t := VisitorIsRelayed(v.users, addr);
    acts := LiftEvents(v, 0, Visitor(addr).Events(), t, origin, limit);
  }

  lemma AcceptIsReady(passive: set<int>, client: int, origin: int) returns (t: Server)
    requires ValidFd(client) && ValidFd(origin) && client != origin && client !in passive && origin !in passive
    ensures Possible(NewServer(passive), Accept(client)) && t == Act(NewServer(passive), Accept(client))
    ensures t == Server(passive, map[0 := Slot(client, -1, NEW_SESSION)], map[client := 0], [], 1, map[], [], [], [],
            false, false)
    ensures Ready(t, 0, origin)
  {
    t := Act(NewServer(passive), Accept(client));
    NewSessionIsInv([]);
  }

  lemma PairStands(v: Server, u: Server, passive: set<int>, client: int, origin: int)
    requires v.slots.Keys == {0} && v.slots[0].clientFd == client && v.table == map[client := 0] && v.nextId == 1
    requires v.queue == [] && v.removed == [] && v.delivered == []
    requires v.passive == passive && v.users == [] && 0 in u.slots && Elsewhere(v, u, 0, origin)
    requires Ready(u, 0, origin) && Relaying(u.slots[0].s, EmptyBuf(BUFFER_SIZE))
    ensures Pair(u, passive, client, origin)
  {
  }

  /** The client of a relay speaks. */
  const SPEAKS := Arrives([0])

  lemma ClientSpeaks(v: Server, passive: set<int>, client: int, origin: int)
    requires Pair(v, passive, client, origin) && client != origin
    ensures Enabled(v.slots[0].s, SPEAKS) && Possible(v, Dispatch(client, SPEAKS, client))
  {
  }

  /**
   * Over every run the server's invariant holds if and only if descriptors stay
   * below 256. Descriptor 0 is a listening socket: the program closes its
   * standard input before it opens the first.
   */
  lemma InvariantIffDescriptorsAreShort(passive: set<int>, limit: int)
    requires 0 in passive && forall fd :: fd in passive ==> fd < 100
    ensures (forall acts :: GoodRuns(NewServer(passive), acts, limit) ==> ServerInv(After(NewServer(passive), acts)))
            <==> limit <= SHORT
  {
    var v := NewServer(passive);
    if limit <= SHORT {
      forall acts | GoodRuns(v, acts, limit)
        ensures ServerInv(After(v, acts))
      {
        NewServerIsInv(passive);
        GoodRunKeeps(v, acts, limit);
      }
    } else {
      var acts := LongDescriptorBreaks(passive, 100, limit);
    }
  }

  /** A run after which bytes of a client are in the relay, its origin on descriptor 256 does not wait for them. */
  lemma LongDescriptorBreaks(passive: set<int>, client: int, limit: int) returns (acts: seq<Action>)
    requires 0 in passive && client !in passive && 256 !in passive && 0 <= client < 256 < limit
    ensures GoodRuns(NewServer(passive), acts, limit)
    ensures var v := After(NewServer(passive), acts);
            && !v.aborted && !ServerInv(v) && 0 in v.slots && v.slots[0].originFd == 256
            && var s := v.slots[0].s;
               && s.current == Some(Copy) && s.io.wire.fromClient == [0]
               && !HasWrite(s.io.oi) && s.io.wire.toOrigin == []
  {
    var v := NewServer(passive);
    var a := Dispatch(client, SPEAKS, client);
    acts := PairIsReached(passive, client, 256, limit);
    SpeakingBreaks(After(v, acts), passive, client, limit);
    RunThen(v, acts, [a], limit);
    acts := acts + [a];
  }

  lemma SpeakingBreaks(v: Server, passive: set<int>, client: int, limit: int)
    requires Pair(v, passive, client, 256) && 0 in passive && client !in passive && 0 <= client < 256 < limit
    ensures var a := Dispatch(client, SPEAKS, client);
            && GoodRuns(v, [a], limit)
            && var u := After(v, [a]);
               && !u.aborted && !ServerInv(u) && 0 in u.slots && u.slots[0].originFd == 256
               && var s := u.slots[0].s;
                  && s.current == Some(Copy) && s.io.wire.fromClient == [0]
                  && !HasWrite(s.io.oi) && s.io.wire.toOrigin == []
  {
    var a := Dispatch(client, SPEAKS, client);
    var s := v.slots[0].s;
    ClientSpeaks(v, passive, client, 256);
    OneAct(v, a, limit);
    ActsOnLowBits(v, client, SPEAKS, client, 0);
    DataStays(s, [], SPEAKS);
    AstrayIsInvIff(s, [], SPEAKS);
    SpeakingIsHeard(s);
    AstrayOnPassive(v, 0, SPEAKS, 0, Step(s, [], SPEAKS));
    NotInvIsNotKept(Act(v, a), 0);
  }

  /** The first byte of a relay comes in. */
  lemma SpeakingIsHeard(s: Session)
    requires Relaying(s, EmptyBuf(BUFFER_SIZE)) && Inv(s, [])
    ensures !NeedsNoWaking(s, SPEAKS)
    ensures var t := Step(s, [], SPEAKS);
            t.status == Alive ==>
              var a := Astray(s, t, Origin);
              && a.status == Alive && a.current == Some(Copy) && a.io.wire.fromClient == [0]
              && !HasWrite(a.io.oi) && a.io.wire.toOrigin == []
  {
    CopyOutcome(s, [], SPEAKS);
    assert [] + [0] == [0];
  }

  lemma AstrayOnPassive(v: Server, id: nat, e: Event, target: int, t: Session)
    requires id in v.slots && !e.Resolved? && t == Step(v.slots[id].s, v.users, e) && t.status == Alive
    requires target !in v.table && target in v.passive
    ensures GoAstray(v, id, e, target)
            == v.(slots := v.slots[id := v.slots[id].(s := Astray(v.slots[id].s, t, Other(e.side)))])
  {
  }

  /**
   * And no further descriptor is safe from aborting the process: when an origin
   * has `victim + 256`, bytes from its client have a session that has just been
   * accepted on `victim` wait for a write that no handler takes. That is none of
   * the cases of `Aborts`, so Servers.AbortsIff needs descriptors below 256 too.
   */
  lemma LongDescriptorAborts(passive: set<int>, client: int, victim: int, spare: int, limit: int)
      returns (acts: seq<Action>, last: Action)
    requires 0 <= victim < 256 && ValidFd(client) && ValidFd(spare) && |{client, victim, victim + 256, spare}| == 4
    requires passive !! {client, victim, victim + 256, spare}
    requires client < limit && spare < limit && victim + 256 < limit
    ensures var v := NewServer(passive);
            && GoodRuns(v, acts, limit) && GoodRuns(v, acts + [last], limit) && After(v, acts + [last]).aborted
            && !AbortedBy(After(v, acts), last)
  {
    var v := NewServer(passive);
    acts := PairIsReached(passive, client, victim + 256, limit);
    var more;
    more, last := VictimAborts(After(v, acts), passive, client, victim, spare, limit);
    RunThen(v, acts, more, limit);
    acts := acts + more;
    RunThen(v, acts, [last], limit);
  }

  lemma VictimAborts(v: Server, passive: set<int>, client: int, victim: int, spare: int, limit: int)
      returns (acts: seq<Action>, last: Action)
    requires Pair(v, passive, client, victim + 256) && 0 <= victim < 256 && ValidFd(spare)
    requires client != victim + 256 && client != victim && spare !in {client, victim, victim + 256}
    requires victim !in passive && spare !in passive && client < limit && spare < limit && victim < limit
    ensures GoodRuns(v, acts, limit) && GoodRuns(After(v, acts), [last], limit)
    ensures After(After(v, acts), [last]).aborted && !AbortedBy(After(v, acts), last)
  {
    var a, b, u := Accept(victim), Dispatch(client, SPEAKS, client), Act(v, Accept(victim));
    last := Dispatch(victim, FAILS, spare);
    VictimComes(v, passive, client, victim);
    VictimIsWoken(u, client, victim);
    VictimIsCalled(Act(u, b), victim, spare);
    OneAct(v, a, limit);
    OneAct(u, b, limit);
    OneAct(Act(u, b), last, limit);
    RunThen(v, [a], [b], limit);
    acts := [a] + [b];
  }

  /** The client is found gone when written to. */
  const FAILS := Writable(Client, R.SendError, true, NoError, false)

  /** A relay from descriptor `client` to `victim + 256`, and a session just accepted on `victim`. */
  predicate Threatened(v: Server, client: int, victim: int) {
    && !v.aborted && !v.locked && v.users == []
    && v.table == map[client := 0, victim + 256 := 0, victim := 1] && v.slots.Keys == {0, 1}
    && v.slots[1] == Slot(victim, -1, NEW_SESSION)
    && var slot := v.slots[0];
       slot.clientFd == client && slot.originFd == victim + 256
       && slot.s.current == Some(Copy) && slot.s.sock == Registered && Inv(slot.s, []) && Enabled(slot.s, SPEAKS)
  }

  lemma VictimComes(v: Server, passive: set<int>, client: int, victim: int)
    requires Pair(v, passive, client, victim + 256) && 0 <= victim < 256
    requires client != victim + 256 && client != victim && victim !in passive
    ensures Possible(v, Accept(victim)) && Threatened(Act(v, Accept(victim)), client, victim)
  {
    ClientSpeaks(v, passive, client, victim + 256);
    assert v.table[victim := 1] == map[client := 0, victim + 256 := 0, victim := 1];
  }

  lemma VictimIsWoken(v: Server, client: int, victim: int)
    requires Threatened(v, client, victim) && 0 <= victim < 256 && client != victim + 256 && client != victim
    ensures var b := Dispatch(client, SPEAKS, client); var u := Act(v, b);
            && Possible(v, b) && Good(v, b) && !u.aborted && !u.locked && u.table == v.table && u.passive == v.passive
            && 1 in u.slots && u.slots[1] == Slot(victim, -1, NEW_SESSION.SetInterest(Client, OP_BOTH))
  {
    SpeakerStays(v, client, victim);
    AstrayDisturbs(v, 0, SPEAKS, victim, Step(v.slots[0].s, [], SPEAKS));
    NewcomerIsWoken(victim);
    SpeakingIsPossible(v, client, victim);
    LowBitsAreVictim(v, client, victim);
  }

  lemma LowBitsAreVictim(v: Server, client: int, victim: int)
    requires Threatened(v, client, victim) && 0 <= victim < 256 && client != victim + 256 && client != victim
    ensures Act(v, Dispatch(client, SPEAKS, client)) == GoAstray(v, 0, SPEAKS, victim)
  {
    assert R.Narrow(victim + 256) == victim;
    ActsOnLowBits(v, client, SPEAKS, client, victim);
  }

  lemma SpeakerStays(v: Server, client: int, victim: int)
    requires Threatened(v, client, victim) && client != victim
    ensures Step(v.slots[0].s, [], SPEAKS).status == Alive
  {
    DataStays(v.slots[0].s, [], SPEAKS);
  }

  lemma NewcomerIsWoken(victim: int)
    ensures var slot := Slot(victim, -1, NEW_SESSION); var side := SideOf(slot, victim);
            slot.(s := slot.s.SetInterest(side, Additive(slot.s.io.Interest(side), OP_WRITE)))
            == Slot(victim, -1, NEW_SESSION.SetInterest(Client, OP_BOTH))
  {
  }

  lemma SpeakingIsPossible(v: Server, client: int, victim: int)
    requires Threatened(v, client, victim) && client != victim
    ensures var b := Dispatch(client, SPEAKS, client); Possible(v, b) && Good(v, b)
  {
  }

  lemma ActsOnLowBits(v: Server, fd: int, e: Event, newFd: int, target: int)
    requires fd in v.table && v.table[fd] in v.slots && !e.Resolved? && v.slots[v.table[fd]].s.current == Some(Copy)
    requires var peer := PeerFd(v.slots[v.table[fd]], e.side); R.Narrow(peer) == target != peer
    ensures Act(v, Dispatch(fd, e, newFd)) == GoAstray(v, v.table[fd], e, target)
  {
    assert !ReachesPeer(v.slots[v.table[fd]], e);
  }

  lemma AstrayDisturbs(v: Server, id: nat, e: Event, target: int, t: Session)
    requires id in v.slots && e.Readable? && e.recv.Data? && t == Step(v.slots[id].s, v.users, e) && t.status == Alive
    requires target in v.table && v.table[target] != id && v.table[target] in v.slots
    requires target == v.slots[v.table[target]].clientFd
    ensures var slot := v.slots[v.table[target]]; var side := SideOf(slot, target);
            var woken := slot.(s := slot.s.SetInterest(side, Additive(slot.s.io.Interest(side), OP_WRITE)));
            var spoken := v.slots[id].(s := Astray(v.slots[id].s, t, Other(e.side)));
            GoAstray(v, id, e, target) == v.(slots := v.slots[id := spoken][v.table[target] := woken])
  {
  }

  lemma VictimIsCalled(v: Server, victim: int, spare: int)
    requires !v.aborted && !v.locked && victim in v.table && v.table[victim] == 1 && FreshFd(v, spare)
    requires 1 in v.slots && v.slots[1] == Slot(victim, -1, NEW_SESSION.SetInterest(Client, OP_BOTH))
    ensures var c := Dispatch(victim, FAILS, spare);
            Possible(v, c) && Good(v, c) && Act(v, c).aborted && !AbortedBy(v, c)
  {
  }

  // ---------------------------------------------------------------------
  // How many sessions that allows

  /** Each descriptor below `fd` is a session's or one of `others`. */
  predicate Filled(v: Server, fd: int, others: set<int>) {
    forall d :: 0 <= d < fd ==> d in v.table || d in others
  }

  /** The kernel hands out the lowest descriptor not in use; at most `k` in use are no session's. */
  ghost predicate Lowest(v: Server, fd: int, k: nat) {
    exists others: set<int> :: |others| <= k && Filled(v, fd, others)
  }

  /** At most `n` sessions at a time; a session that has its origin opens no descriptor. */
  ghost predicate Crowd(v: Server, a: Action, n: nat, k: nat) {
    match a
    case Accept(fd) => |v.slots| < n && Lowest(v, fd, k)
    case Dispatch(fd, _, newFd) =>
      fd in v.table && v.table[fd] in v.slots ==>
        if v.slots[v.table[fd]].s.sock == Registered then newFd == -1 else Lowest(v, newFd, k)
    case Deliver(answer) => Lowest(v, answer.newFd, k)
    case _ => true
  }

  ghost function AdmitsCrowd(n: nat, k: nat): (Server, Action) -> bool {
    (v, a) => Possible(v, a) && Crowd(v, a, n, k)
  }

  ghost predicate CrowdRuns(v: Server, acts: seq<Action>, n: nat, k: nat) {
    Path(AdmitsCrowd(n, k), Act, v, acts)
  }

  lemma {:induction false} UpToIsSet(fd: nat) returns (below: set<int>)
    ensures |below| == fd && forall d :: d in below <==> 0 <= d < fd
  {
    if fd == 0 {
      below := {};
    } else {
      below := UpToIsSet(fd - 1);
      below := below + {fd - 1};
    }
  }

  lemma SubsetIsSmaller(a: set<int>, b: set<int>)
    requires a <= b
    ensures |a| <= |b|
  {
    assert b == a + (b - a);
  }

  lemma LowestIsBounded(v: Server, fd: int, k: nat)
    requires Lowest(v, fd, k)
    ensures fd <= |v.table| + k
  {
    var others: set<int> :| |others| <= k && Filled(v, fd, others);
    if fd > 0 {
      var below := UpToIsSet(fd);
      var used := v.table.Keys + others;
      forall d | d in below ensures d in used {
        assert d in v.table || d in others;
      }
      SubsetIsSmaller(below, used);
    }
  }

  /** The descriptors of some sessions: of their clients, or of their origins. */
  function FdsOf(v: Server, ids: set<nat>, side: Side): set<int>
    requires ids <= v.slots.Keys
  {
    set id | id in ids :: if side == Client then v.slots[id].clientFd else v.slots[id].originFd
  }

  lemma {:induction false} FdsAreNoMore(v: Server, ids: set<nat>, side: Side)
    requires ids <= v.slots.Keys
    ensures |FdsOf(v, ids, side)| <= |ids|
    decreases |ids|
  {
    if ids != {} {
      var id :| id in ids;
      var fd := if side == Client then v.slots[id].clientFd else v.slots[id].originFd;
      FdsAreNoMore(v, ids - {id}, side);
      assert FdsOf(v, ids, side) == FdsOf(v, ids - {id}, side) + {fd};
    }
  }

  /** The sessions whose origin is registered. */
  function Linking(v: Server): (ids: set<nat>)
    ensures ids <= v.slots.Keys
  {
    set i | i in v.slots && v.slots[i].s.sock == Registered
  }

  lemma EntriesAreFds(v: Server)
    requires Sound(v)
    ensures v.table.Keys <= FdsOf(v, v.slots.Keys, Client) + FdsOf(v, Linking(v), Origin)
  {
    forall fd | fd in v.table ensures fd in FdsOf(v, v.slots.Keys, Client) + FdsOf(v, Linking(v), Origin) {
      assert EntryOk(v, fd) && SlotOk(v, v.table[fd]);
    }
  }

  /** Two descriptors a session, and one fewer while the origin of one is not registered. */
  lemma TableIsBounded(v: Server, id: nat)
    requires Sound(v)
    ensures |v.table| <= 2 * |v.slots|
    ensures id in v.slots && v.slots[id].s.sock != Registered ==> |v.table| < 2 * |v.slots|
  {
    var linked := Linking(v);
    var clients, origins := FdsOf(v, v.slots.Keys, Client), FdsOf(v, linked, Origin);
    FdsAreNoMore(v, v.slots.Keys, Client);
    FdsAreNoMore(v, linked, Origin);
    EntriesAreFds(v);
    SubsetIsSmaller(v.table.Keys, clients + origins);
    assert v.slots.Keys == linked + (v.slots.Keys - linked);
    assert id in v.slots && v.slots[id].s.sock != Registered ==> id in v.slots.Keys - linked;
  }

  lemma CrowdIsBelow(v: Server, a: Action, n: nat, k: nat)
    requires Sound(v) && |v.slots| <= n && 2 * n + k <= SHORT && Possible(v, a) && Crowd(v, a, n, k)
    ensures Below(a, SHORT)
  {
    match a
    case Accept(fd) =>
      TableIsBounded(v, 0);
      LowestIsBounded(v, fd, k);
    case Dispatch(fd, e, newFd) =>
      if v.slots[v.table[fd]].s.sock != Registered {
        TableIsBounded(v, v.table[fd]);
        LowestIsBounded(v, newFd, k);
      }
    case Deliver(answer) =>
      var id := v.queue[0].owner;
      assert Awaited(v, id, v.queue[0].fd) && SlotOk(v, id);
      AwaitingIsQuiet(v.slots[id].s, Resolved([]));
      TableIsBounded(v, id);
      LowestIsBounded(v, answer.newFd, k);
    case _ =>
  }

  lemma UpdateAddsNone(v: Server, id: nat, t: Session, newFd: int)
    requires id in v.slots
    ensures |Update(v, id, t, newFd).slots| <= |v.slots|
  {
    var u := Update(v, id, t, newFd);
    assert u.slots.Keys == v.slots.Keys || u.slots.Keys == v.slots.Keys - {id};
  }

  lemma OnlyAcceptAdds(v: Server, a: Action)
    requires Sound(v) && Within(v, SHORT) && Possible(v, a)
    ensures |Act(v, a).slots| <= |v.slots| + if a.Accept? then 1 else 0
  {
    match a
    case Dispatch(fd, e, newFd) =>
      var id := v.table[fd];
      assert SlotOk(v, id);
      PeerIsReached(v, id, e);
      UpdateAddsNone(v, id, Step(v.slots[id].s, v.users, e), newFd);
    case Deliver(answer) =>
      JobFindsItsSession(v, 0);
      var id := v.queue[0].owner;
      var v1 := v.(queue := v.queue[1..], removed := v.removed + [id], delivered := v.delivered + [id]);
      NothingToForget(v1, id, answer.attempts);
      UpdateAddsNone(v1, id, Step(v.slots[id].s, v.users, Resolved(answer.attempts)), answer.newFd);
    case _ =>
  }

  lemma {:induction false} CrowdStaysShort(v: Server, acts: seq<Action>, n: nat, k: nat)
    requires Sound(v) && Within(v, SHORT) && |v.slots| <= n && 2 * n + k <= SHORT && CrowdRuns(v, acts, n, k)
    ensures Runs(v, acts, SHORT)
    decreases |acts|
  {
    if acts != [] {
      var a, v1 := acts[0], Act(v, acts[0]);
      PathFirst(AdmitsCrowd(n, k), Act, v, acts);
      CrowdIsBelow(v, a, n, k);
      ActKeeps(v, a);
      ActStaysWithin(v, a, SHORT);
      OnlyAcceptAdds(v, a);
      if v1.aborted {
        StuckPathEnds(AdmitsCrowd(n, k), Act, v1, acts[1..]);
      } else {
        CrowdStaysShort(v1, acts[1..], n, k);
      }
    }
  }

  /**
   * What an operator controls: when the kernel hands out the lowest descriptor not
   * in use, at most `n` sessions live at a time, and at most `k` other descriptors
   * are open, every run is one with short descriptors if 2n + k is at most 256.
   */
  lemma FewSessionsAreShort(passive: set<int>, acts: seq<Action>, n: nat, k: nat)
    requires 2 * n + k <= SHORT && CrowdRuns(NewServer(passive), acts, n, k)
    ensures Runs(NewServer(passive), acts, SHORT)
  {
    NewServerIsInv(passive);
    CrowdStaysShort(NewServer(passive), acts, n, k);
  }
}
