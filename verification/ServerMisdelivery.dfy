/**
 * A resolver's answer that reaches the wrong session: the job names only a
 * descriptor (src/selector.c), and with an origin above 255 another session can
 * be closed while its resolution runs, its descriptor handed out again, and the
 * answer given to the newcomer.
 */
module ServerMisdelivery {
  import opened Base
  import opened Buffers
  import opened Interests
  import opened Parameters
  import opened SelectorTables
  import opened Sessions
  import opened SessionSafety
  import opened SessionProgress
  import opened ServerAstray
  import opened ServerLimits
  import opened Servers
  import G = GreetingParsers
  import Q = RequestParsers
  import R = Relays

  /** A request that names the host "a". */
  const QUESTION := Q.Encode(Q.FQDN, [97], 80)

  /** A client that needs no authentication and names a host, up to where its resolution runs. */
  function Asker(): seq<Event> {
    [Arrives(G.Encode([G.NO_AUTHENTICATION_REQUIRED])), Takes(2)] + Reads([QUESTION])
  }

  /** Waiting for its resolution, with interest `ci` for its client. */
  predicate Asking(s: Session, ci: Interest) {
    && s.status == Alive && s.current == Some(OriginConnect) && s.resolving
    && s.sock == NoSocket && s.io.ci == ci && s.io.oi == OP_NOOP
  }

  lemma AskerResolves(users: seq<User>) returns (t: Session)
    ensures Leads(NEW_SESSION, users, Asker(), t) && Asking(t, OP_NOOP)
    ensures forall e :: e in Asker() ==> !e.Resolved?
  {
    var s := Admitted(users);
    WholeIsCut(QUESTION);
    t := RequestIsHeard(s, users, [QUESTION], Q.FQDN, [97], 80, []);
    var hello := [Arrives(G.Encode([G.NO_AUTHENTICATION_REQUIRED])), Takes(2)];
    LeadsThen(NEW_SESSION, users, hello, s, Reads([QUESTION]), t);
  }

  /** A session is accepted on `fd` and asks; nothing else changes. */
  predicate Came(v: Server, u: Server, fd: int) {
    var id := v.nextId;
    && !u.aborted && !u.locked && u.passive == v.passive && u.users == v.users && u.nextId == id + 1
    && u.queue == v.queue && u.removed == v.removed && u.delivered == v.delivered
    && u.table == v.table[fd := id]
    && id in u.slots && u.slots == v.slots[id := Slot(fd, -1, u.slots[id].s)] && Asking(u.slots[id].s, OP_NOOP)
    && u.threads - {id} == v.threads - {id} && id in u.threads && u.threads[id] == fd
  }

  predicate CanCome(v: Server, fd: int, spare: int) {
    && !v.aborted && !v.locked && v.nextId !in v.slots && |v.slots| < 3
    && FreshFd(v, fd) && FreshFd(v, spare) && fd != spare
  }

  lemma AskerIsReady(v: Server, fd: int, spare: int)
    requires CanCome(v, fd, spare)
    ensures var v1 := Act(v, Accept(fd));
            && Possible(v, Accept(fd)) && Good(v, Accept(fd)) && v1.users == v.users
            && Ready(v1, v.nextId, spare) && v1.slots[v.nextId].s == NEW_SESSION
  {
    NewSessionIsInv(v.users);
  }

  lemma AskerComes(v: Server, fd: int, spare: int, limit: int) returns (acts: seq<Action>)
    requires CanCome(v, fd, spare) && fd < limit && spare < limit
    ensures GoodRuns(v, acts, limit) && Came(v, After(v, acts), fd)
  {
    var a, v1 := Accept(fd), Act(v, Accept(fd));
    AskerIsReady(v, fd, spare);
    OneAct(v, a, limit);
    var t := AskerResolves(v.users);
    var more := LiftEvents(v1, v.nextId, Asker(), t, spare, limit);
    RunThen(v, [a], more, limit);
    CameByEvents(v, v1, After(v1, more), fd, spare);
    acts := [a] + more;
  }

  lemma CameByEvents(v: Server, v1: Server, u: Server, fd: int, spare: int)
    requires CanCome(v, fd, spare) && v1 == Act(v, Accept(fd))
    requires v.nextId in u.slots && Elsewhere(v1, u, v.nextId, spare) && Ready(u, v.nextId, spare)
    requires Asking(u.slots[v.nextId].s, OP_NOOP)
    ensures Came(v, u, fd)
  {
  }

  // ---------------------------------------------------------------------
  // The run

  /** Nothing queued, nothing removed, session 1 resolving on behalf of descriptor `victim`. */
  predicate Running(v: Server, passive: set<int>, client: int, victim: int) {
    && !v.aborted && !v.locked && v.users == [] && v.passive == passive
    && v.queue == [] && v.removed == [] && v.delivered == [] && 1 in v.threads && v.threads[1] == victim
    && 0 in v.slots && v.slots[0].clientFd == client && v.slots[0].originFd == victim + 256
  }

  /** A relay from `client` to `victim + 256`, and a session on `victim` that asks. */
  predicate Exposed(v: Server, passive: set<int>, client: int, victim: int, ci: Interest) {
    && Running(v, passive, client, victim) && v.nextId == 2
    && v.table == map[client := 0, victim + 256 := 0, victim := 1] && v.slots.Keys == {0, 1}
    && v.slots[1].clientFd == victim && v.slots[1].originFd == -1 && Asking(v.slots[1].s, ci)
  }

  /** The relay can be spoken to. */
  predicate Speaking(s: Session) {
    s.current == Some(Copy) && s.sock == Registered && Inv(s, []) && Enabled(s, SPEAKS)
  }

  lemma PairIsExposed(v: Server, u: Server, passive: set<int>, client: int, victim: int)
    requires Pair(v, passive, client, victim + 256) && Came(v, u, victim)
    requires client != victim + 256 && client != victim
    ensures Exposed(u, passive, client, victim, OP_NOOP) && Speaking(u.slots[0].s)
  {
    ClientSpeaks(v, passive, client, victim + 256);
  }

  /** Bytes for the origin have the session on `victim` wait to be written. */
  lemma AskerIsWoken(v: Server, passive: set<int>, client: int, victim: int)
    requires Exposed(v, passive, client, victim, OP_NOOP) && Speaking(v.slots[0].s)
    requires 0 <= victim < 256 && client != victim + 256 && client != victim
    ensures var b := Dispatch(client, SPEAKS, client);
            Possible(v, b) && Good(v, b) && Exposed(Act(v, b), passive, client, victim, OP_WRITE)
  {
    DataStays(v.slots[0].s, [], SPEAKS);
    assert R.Narrow(victim + 256) == victim;
    ActsOnLowBits(v, client, SPEAKS, client, victim);
    AstrayDisturbs(v, 0, SPEAKS, victim, Step(v.slots[0].s, [], SPEAKS));
    AskerSpeaks(v, client, victim);
  }

  lemma AskerSpeaks(v: Server, client: int, victim: int)
    requires !v.aborted && !v.locked && client in v.table && v.table[client] == 0 && 0 in v.slots
    requires v.slots[0].clientFd == client && Speaking(v.slots[0].s)
    ensures var b := Dispatch(client, SPEAKS, client); Possible(v, b) && Good(v, b)
  {
  }

  /** Written to, and getsockopt fails, there being no socket. */
  const GIVES_UP := Writable(Client, R.SendError, true, NoAnswer, false)

  lemma AskerEnds(s: Session, users: seq<User>)
    requires Asking(s, OP_WRITE)
    ensures Enabled(s, GIVES_UP) && CopesWith(s, GIVES_UP) && Step(s, users, GIVES_UP).status == Closed
  {
  }

  /** The session is closed, its resolution still running. */
  predicate Left(v: Server, passive: set<int>, client: int, victim: int) {
    && Running(v, passive, client, victim) && v.nextId == 2
    && v.table == map[client := 0, victim + 256 := 0] && v.slots.Keys == {0}
  }

  lemma AskerLeaves(v: Server, passive: set<int>, client: int, victim: int, spare: int)
    requires Exposed(v, passive, client, victim, OP_WRITE) && FreshFd(v, spare)
    requires 0 <= victim && client != victim + 256 && client != victim && client >= 0
    ensures var c := Dispatch(victim, GIVES_UP, spare);
            Possible(v, c) && Good(v, c) && Left(Act(v, c), passive, client, victim)
  {
    AskerEnds(v.slots[1].s, v.users);
    assert map[client := 0, victim + 256 := 0, victim := 1] - {victim, -1} == map[client := 0, victim + 256 := 0];
  }

  /** Sessions 1 and 2 both asked for the sake of `victim`, which is session 2's. */
  predicate Confused(v: Server, victim: int) {
    && !v.aborted && !v.locked && v.queue == [] && v.removed == [] && v.delivered == []
    && 1 in v.threads && v.threads[1] == victim && 2 in v.threads
    && victim in v.table && v.table[victim] == 2 && 2 in v.slots && Asking(v.slots[2].s, OP_NOOP)
  }

  lemma NewcomerConfuses(v: Server, u: Server, passive: set<int>, client: int, victim: int)
    requires Left(v, passive, client, victim) && Came(v, u, victim)
    ensures Confused(u, victim)
  {
    assert 1 in v.threads - {2} && (v.threads - {2})[1] == victim;
    assert 1 in u.threads - {2} && (u.threads - {2})[1] == victim;
  }

  lemma NobodyThere(s: Session, users: seq<User>)
    requires Asking(s, OP_NOOP)
    ensures var t := Step(s, users, Resolved([]));
            t.status == Alive && t.current == Some(RequestWrite) && t.request.reply == Q.HOST_UNREACHABLE
            && !t.resolving && t.sock == NoSocket
  {
  }

  /** Session 1 asked, session 2 was answered, and its own resolution still runs. */
  predicate Misdelivered(v: Server) {
    && !v.aborted && v.removed == [1] && v.delivered == [2] && 2 in v.threads
    && 2 in v.slots && v.slots[2].s.current == Some(RequestWrite)
    && v.slots[2].s.request.reply == Q.HOST_UNREACHABLE
  }

  lemma ThreeActs(v: Server, a: Action, b: Action, c: Action, limit: int) returns (acts: seq<Action>)
    requires Below(a, limit) && Below(b, limit) && Below(c, limit) && Possible(v, a) && Good(v, a)
    requires var u := Act(v, a);
             Possible(u, b) && Good(u, b) && Possible(Act(u, b), c) && Good(Act(u, b), c)
    ensures GoodRuns(v, acts, limit) && After(v, acts) == Act(Act(Act(v, a), b), c)
  {
    var u := Act(v, a);
    OneAct(v, a, limit);
    OneAct(u, b, limit);
    OneAct(Act(u, b), c, limit);
    RunThen(u, [b], [c], limit);
    RunThen(v, [a], [b] + [c], limit);
    acts := [a] + ([b] + [c]);
  }

  /** The first thread ends, and its job is delivered. */
  lemma JobGoesAstray(v: Server, victim: int, spare: int)
    requires Confused(v, victim) && FreshFd(v, spare)
    ensures var a := ThreadEnds(1); var v1 := Act(v, a); var v2 := Act(v1, Lock); var d := Deliver(Answer([], spare));
            && Possible(v, a) && Good(v, a) && Possible(v1, Lock) && Good(v1, Lock) && Possible(v2, d) && Good(v2, d)
            && Misdelivered(Act(v2, d))
  {
    var v1 := Act(v, ThreadEnds(1));
    assert v1 == v.(threads := v.threads - {1}, queue := [Job(victim, 1)]);
    var v2 := Act(v1, Lock);
    NobodyThere(v.slots[2].s, v.users);
    assert v2.queue[1..] == [] && v2.removed + [1] == [1] && v2.delivered + [2] == [2];
  }

  /**
   * With an origin 256 above the descriptor of a session that waits for a
   * resolution, the answer to that resolution can be given to another session: so
   * Servers.EachJobIsDeliveredOnce needs descriptors below 256.
   */
  lemma LongDescriptorMisdelivers(passive: set<int>, client: int, victim: int, spare: int, limit: int)
      returns (acts: seq<Action>)
    requires 0 <= victim < 256 && ValidFd(client) && ValidFd(spare) && |{client, victim, victim + 256, spare}| == 4
    requires passive !! {client, victim, victim + 256, spare}
    requires client < limit && spare < limit && victim + 256 < limit
    ensures GoodRuns(NewServer(passive), acts, limit) && Misdelivered(After(NewServer(passive), acts))
  {
    var v := NewServer(passive);
    acts := PairIsReached(passive, client, victim + 256, limit);
    var v1 := After(v, acts);
    var more := AskerComes(v1, victim, spare, limit);
    RunThen(v, acts, more, limit);
    acts := acts + more;
    var v2 := After(v1, more);
    PairIsExposed(v1, v2, passive, client, victim);
    more := AskerGoes(v2, passive, client, victim, spare, limit);
    RunThen(v, acts, more, limit);
    acts := acts + more;
    more := AnswerGoesAstray(After(v2, more), passive, client, victim, spare, limit);
    RunThen(v, acts, more, limit);
    acts := acts + more;
  }

  lemma AskerGoes(v: Server, passive: set<int>, client: int, victim: int, spare: int, limit: int)
      returns (acts: seq<Action>)
    requires Exposed(v, passive, client, victim, OP_NOOP) && Speaking(v.slots[0].s)
    requires 0 <= victim < 256 && client >= 0 && ValidFd(spare) && |{client, victim, victim + 256, spare}| == 4
    requires spare !in passive && client < limit && spare < limit
    ensures GoodRuns(v, acts, limit) && Left(After(v, acts), passive, client, victim)
  {
    var b, c := Dispatch(client, SPEAKS, client), Dispatch(victim, GIVES_UP, spare);
    AskerIsWoken(v, passive, client, victim);
    AskerLeaves(Act(v, b), passive, client, victim, spare);
    OneAct(v, b, limit);
    OneAct(Act(v, b), c, limit);
    RunThen(v, [b], [c], limit);
    acts := [b] + [c];
  }

  lemma AnswerGoesAstray(v: Server, passive: set<int>, client: int, victim: int, spare: int, limit: int)
      returns (acts: seq<Action>)
    requires Left(v, passive, client, victim)
    requires 0 <= victim < 256 && ValidFd(spare) && |{client, victim, victim + 256, spare}| == 4
    requires victim !in passive && spare !in passive && spare < limit && victim < limit
    ensures GoodRuns(v, acts, limit) && Misdelivered(After(v, acts))
  {
    acts := AskerComes(v, victim, spare, limit);
    var u := After(v, acts);
    NewcomerConfuses(v, u, passive, client, victim);
    JobGoesAstray(u, victim, spare);
    var last := ThreeActs(u, ThreadEnds(1), Lock, Deliver(Answer([], spare)), limit);
    RunThen(v, acts, last, limit);
    acts := acts + last;
  }
}
