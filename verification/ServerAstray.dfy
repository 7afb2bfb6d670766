/**
 * The COPY handlers pass the other end's descriptor through eight bits
 * (src/copy_stm.c). What an event does when that names another descriptor:
 * exactly when the server's invariant survives it, and what becomes of an origin
 * whose descriptor is too long.
 */
module ServerAstray {
  import opened Base
  import opened Buffers
  import opened Interests
  import opened Parameters
  import opened Paths
  import opened Sessions
  import opened SessionAnswers
  import SessionCopy
  import opened SessionSafety
  import opened Servers
  import R = Relays

  // ---------------------------------------------------------------------
  // Interest from outside

  /** What the invariant says of the relay itself. */
  predicate RelayOk(r: R.Relay, early: seq<byte>) {
    R.Sound(r, early, []) && (early == [] ==> R.Coupled(r, Client) && R.Coupled(r, Origin))
  }

  /** In COPY nothing else of the invariant speaks of interests. */
  lemma InvIsRelayOk(s: Session, users: seq<User>, r: R.Relay)
    requires Inv(s, users) && s.status == Alive && s.current == Some(Copy) && r.rb == s.io.rb && r.wb == s.io.wb
    ensures Inv(s.(io := r), users) <==> RelayOk(r, s.early)
  {
  }

  /** A session that `i` more interest on its descriptor of `side` leaves as its invariant says. */
  predicate Tolerates(s: Session, side: Side, i: Interest) {
    || Additive(s.io.Interest(side), i) == s.io.Interest(side)
    || (s.current == Some(Copy)
        && (i == OP_WRITE ==> s.io.To(side).content != []) && (i == OP_READ ==> !s.io.Ended(side)))
  }

  function Added(s: Session, side: Side, i: Interest): Session {
    s.SetInterest(side, Additive(s.io.Interest(side), i))
  }

  lemma ToleratesIff(s: Session, users: seq<User>, side: Side, i: Interest)
    requires Inv(s, users) && s.status == Alive && (side == Origin ==> s.sock == Registered)
    requires i == OP_READ || i == OP_WRITE
    ensures Inv(Added(s, side, i), users) <==> Tolerates(s, side, i)
  {
    if s.current == Some(Copy) {
      InvIsRelayOk(s, users, Added(s, side, i).io);
      RelayTolerates(s.io, s.early, side, i);
    }
  }

  lemma RelayTolerates(r: R.Relay, early: seq<byte>, side: Side, i: Interest)
    requires RelayOk(r, early) && (i == OP_READ || i == OP_WRITE)
    ensures RelayOk(r.SetInterest(side, Additive(r.Interest(side), i)), early) <==>
            || Additive(r.Interest(side), i) == r.Interest(side)
            || ((i == OP_WRITE ==> r.To(side).content != []) && (i == OP_READ ==> !r.Ended(side)))
  {
  }

  // ---------------------------------------------------------------------
  // Interest that does not arrive

  /**
   * The other end need not be woken: it waits to be written already, or it is what
   * is left of a half-closed relay with bytes left over from the request; or there
   * are more bytes to send to this end before its source matters.
   */
  predicate NeedsNoWaking(s: Session, e: Event)
    requires !e.Resolved?
  {
    var peer := Other(e.side);
    if e.Readable? then HasWrite(s.io.Interest(peer)) || (s.early != [] && s.io.flags != R.ALL_OPEN)
    else HasRead(s.io.Interest(peer)) || (e.send.Sent? && e.send.n < |s.io.To(e.side).content|)
  }

  predicate InCopy(s: Session, users: seq<User>, e: Event) {
    Inv(s, users) && s.current == Some(Copy) && Enabled(s, e) && !e.Resolved? && CopesWith(s, e)
  }

  lemma CopyStepKeeps(s: Session, users: seq<User>, e: Event)
    requires InCopy(s, users, e)
    ensures var t := Step(s, users, e);
            && Inv(t, users) && t.status != Aborted
            && (t.status == Alive ==> t.current == Some(Copy) && t.sock == Registered && !t.resolving)
  {
    StepKeepsInvIffCopesWith(s, users, e);
    StepEffects(s, users, e);
  }

  /** The relay after bytes of `side`, with interest `j` at the other end, and `i` at `side` itself. */
  lemma UnwokenByData(r: R.Relay, early: seq<byte>, side: Side, bs: seq<byte>, i: Interest)
    requires RelayOk(r, early) && HasRead(r.Interest(side)) && R.LegalRecv(r.From(side), R.Data(bs)) && !HasRead(i)
    ensures var peer := Other(side);
            var a := R.CopyRead(r, side, R.Data(bs), true).0.SetInterest(peer, r.Interest(peer));
            var quiet := HasWrite(r.Interest(peer)) || (early != [] && r.flags != R.ALL_OPEN);
            && (RelayOk(a, early) <==> quiet) && (RelayOk(a.SetInterest(side, i), early) ==> quiet)
  {
    R.DataKeepsSound(r, side, bs, early, []);
  }

  lemma UnwokenBySend(r: R.Relay, early: seq<byte>, side: Side, n: nat, i: Interest)
    requires RelayOk(r, early) && HasWrite(r.Interest(side)) && 0 < n <= |r.To(side).content| && r.Reading(Other(side))
    ensures var peer := Other(side);
            var a := R.CopyWrite(r, side, R.Sent(n), true).0.SetInterest(peer, r.Interest(peer));
            var quiet := HasRead(r.Interest(peer)) || n < |r.To(side).content|;
            && (RelayOk(a, early) <==> quiet)
            && (!HasWrite(i) && RelayOk(a.SetInterest(side, i), early) ==> quiet)
  {
    if n == |r.To(side).content| {
      R.FullWriteKeepsSound(r, side, true, early, []);
    } else {
      R.PartialWriteKeepsSound(r, side, n, true, early, []);
    }
  }

  /** The session's step is its relay's. */
  lemma CopyOutcome(s: Session, users: seq<User>, e: Event)
    requires s.status == Alive && s.current == Some(Copy) && !e.Resolved? && Step(s, users, e).status == Alive
    ensures var t := Step(s, users, e);
            t.io == R.Step(s.io, RelayEvent(e)).0 && t == s.(io := t.io, tracker := t.tracker)
  {
    SessionCopy.CopyStepIsRelayStep(s, users, e);
  }

  /** What a relay step leaves of the other end, but for the interest it asks. */
  lemma StepSparesPeer(r: R.Relay, e: R.Event, early: seq<byte>)
    requires RelayOk(r, early) && R.Enabled(r, e) && R.Step(r, e).1 == R.Stay
    ensures var t := R.Step(r, e).0; var peer := Other(e.side);
            var asks := if e.io.Readable? then e.io.recv.Data? else r.Reading(peer);
            && t.Shutdowns(peer) == r.Shutdowns(peer)
            && (!asks ==> t.Interest(peer) == r.Interest(peer))
  {
  }

  lemma CopyStays(s: Session, users: seq<User>, e: Event)
    requires InCopy(s, users, e) && Step(s, users, e).status == Alive
    ensures R.Enabled(s.io, RelayEvent(e)) && R.Step(s.io, RelayEvent(e)).1 == R.Stay
    ensures Asked(s, e).Some? <==> if e.Readable? then e.recv.Data? else s.io.Reading(Other(e.side))
  {
  }

  /** Without a request for interest the session is as after a step that arrived; with one, the other end's stands. */
  lemma AstrayIs(s: Session, users: seq<User>, e: Event)
    requires InCopy(s, users, e) && Step(s, users, e).status == Alive
    ensures var t := Step(s, users, e); var peer := Other(e.side);
            && Astray(s, t, peer) == t.SetInterest(peer, s.io.Interest(peer))
            && (Asked(s, e).None? ==> Astray(s, t, peer) == t)
  {
    CopyStays(s, users, e);
    CopyOutcome(s, users, e);
    InvIsRelayOk(s, users, s.io);
    StepSparesPeer(s.io, RelayEvent(e), s.early);
    AstrayOf(s, Step(s, users, e), Other(e.side));
  }

  lemma AstrayOf(s: Session, t: Session, peer: Side)
    requires t.io.Shutdowns(peer) == s.io.Shutdowns(peer)
    ensures Astray(s, t, peer) == t.SetInterest(peer, s.io.Interest(peer))
    ensures t.io.Interest(peer) == s.io.Interest(peer) ==> t.SetInterest(peer, s.io.Interest(peer)) == t
  {
  }

  /** Whether the session survives an interest that did not arrive; not even interest of its own that did repairs it. */
  lemma AstrayIsInvIff(s: Session, users: seq<User>, e: Event)
    requires InCopy(s, users, e) && Asked(s, e).Some? && Step(s, users, e).status == Alive
    ensures var a := Astray(s, Step(s, users, e), Other(e.side));
            && (Inv(a, users) <==> NeedsNoWaking(s, e))
            && (Inv(Added(a, e.side, Asked(s, e).value), users) ==> NeedsNoWaking(s, e))
  {
    var t := Step(s, users, e);
    var a := Astray(s, t, Other(e.side));
    var b := Added(a, e.side, Asked(s, e).value);
    CopyStepKeeps(s, users, e);
    AstrayIs(s, users, e);
    InvIsRelayOk(t, users, a.io);
    InvIsRelayOk(t, users, b.io);
    assert a == t.(io := a.io) && b == t.(io := b.io);
    AskedInRelay(s, users, e);
  }

  /** The same of the relay alone. */
  lemma AskedInRelay(s: Session, users: seq<User>, e: Event)
    requires InCopy(s, users, e) && Asked(s, e).Some? && Step(s, users, e).status == Alive
    ensures var t := Step(s, users, e); var peer := Other(e.side);
            var a := t.io.SetInterest(peer, s.io.Interest(peer));
            var b := a.SetInterest(e.side, Additive(a.Interest(e.side), Asked(s, e).value));
            && t.early == s.early && (RelayOk(a, s.early) <==> NeedsNoWaking(s, e))
            && (RelayOk(b, s.early) ==> NeedsNoWaking(s, e))
  {
    var t := Step(s, users, e);
    var a := t.io.SetInterest(Other(e.side), s.io.Interest(Other(e.side)));
    var i := Additive(a.Interest(e.side), Asked(s, e).value);
    CopyOutcome(s, users, e);
    InvIsRelayOk(s, users, s.io);
    if e.Readable? {
      UnwokenByData(s.io, s.early, e.side, e.recv.bytes, i);
    } else {
      UnwokenBySend(s.io, s.early, e.side, e.send.n, i);
    }
  }

  // ---------------------------------------------------------------------
  // One event of the server

  /** A session that relays, or has ended. */
  predicate Relayed(t: Session) {
    t.status == Closed || (t.status == Alive && t.current == Some(Copy) && t.sock == Registered && !t.resolving)
  }

  lemma RelayedOutcome(v: Server, id: nat, t: Session)
    requires id in v.slots && Relayed(t)
    ensures Outcome(v, id, t) && Handled(t)
  {
  }

  /** It is put back as good as it was. */
  lemma PutBackKeeps(v: Server, id: nat, t: Session)
    requires ServerInv(v) && id in v.slots && v.slots[id].s.current == Some(Copy) && Relayed(t) && Inv(t, v.users)
    ensures ServerInv(Update(v, id, t, -1)) && (t.status == Alive <==> id in Update(v, id, t, -1).slots)
  {
    assert SlotOk(v, id);
    NotAwaited(v, id);
    RelayedOutcome(v, id, t);
    UpdateKeeps(v, id, t, -1);
    forall i | i in Update(v, id, t, -1).slots
      ensures InvOf(Update(v, id, t, -1), i)
    {
      assert InvOf(v, i);
      UpdateKeepsInvOf(v, id, t, -1, i);
    }
  }

  lemma PutBackIsUpdate(v: Server, id: nat, t: Session)
    requires id in v.slots && t.status == Alive
    requires t.sock == v.slots[id].s.sock && t.resolving == v.slots[id].s.resolving
    ensures Update(v, id, t, -1) == v.(slots := v.slots[id := v.slots[id].(s := t)])
  {
  }

  /** The same without `Update`, exactly. */
  lemma PutBackKeepsIff(v: Server, id: nat, t: Session)
    requires ServerInv(v) && id in v.slots && v.slots[id].s.current == Some(Copy) && Relayed(t) && t.status == Alive
    ensures ServerInv(v.(slots := v.slots[id := v.slots[id].(s := t)])) <==> Inv(t, v.users)
  {
    assert SlotOk(v, id);
    PutBackIsUpdate(v, id, t);
    if Inv(t, v.users) {
      PutBackKeeps(v, id, t);
    } else {
      PutBackBreaks(v, id, t);
    }
  }

  lemma PutBackBreaks(v: Server, id: nat, t: Session)
    requires id in v.slots && t.status == Alive && !Inv(t, v.users)
    ensures !ServerInv(v.(slots := v.slots[id := v.slots[id].(s := t)]))
  {
    NotInvIsNotKept(v.(slots := v.slots[id := v.slots[id].(s := t)]), id);
  }

  /** A session whose invariant is broken breaks the server's. */
  lemma NotInvIsNotKept(v: Server, id: nat)
    requires id in v.slots && v.slots[id].s.status == Alive && !Inv(v.slots[id].s, v.users)
    ensures !ServerInv(v)
  {
    assert !InvOf(v, id);
  }

  /** Interest that lands on a registered descriptor. */
  lemma DisturbSurvivesIff(v: Server, fd: int, i: Interest)
    requires ServerInv(v) && fd in v.table && v.table[fd] in v.slots && (i == OP_READ || i == OP_WRITE)
    ensures var slot := v.slots[v.table[fd]];
            ServerInv(Disturb(v, fd, i)) <==> Tolerates(slot.s, SideOf(slot, fd), i)
  {
    var id := v.table[fd];
    var slot := v.slots[id];
    var side := SideOf(slot, fd);
    assert EntryOk(v, fd) && SlotOk(v, id) && InvOf(v, id);
    ToleratesIff(slot.s, v.users, side, i);
    if slot.s.current == Some(Copy) {
      PutBackKeepsIff(v, id, Added(slot.s, side, i));
    } else if Tolerates(slot.s, side, i) {
      UntouchedBy(v, fd, i);
    } else {
      PutBackBreaks(v, id, Added(slot.s, side, i));
    }
  }

  lemma UntouchedBy(v: Server, fd: int, i: Interest)
    requires fd in v.table && v.table[fd] in v.slots
    requires var slot := v.slots[v.table[fd]];
             Additive(slot.s.io.Interest(SideOf(slot, fd)), i) == slot.s.io.Interest(SideOf(slot, fd))
    ensures Disturb(v, fd, i) == v
  {
    var slot := v.slots[v.table[fd]];
    assert Added(slot.s, SideOf(slot, fd), i) == slot.s;
  }

  /** The session that owns `target` bears interest `i`; session `id` as `t`, which it has become. */
  predicate Bears(v: Server, id: nat, t: Session, i: Interest, target: int)
    requires target in v.table && v.table[target] in v.slots
  {
    var slot := v.slots[v.table[target]];
    Tolerates(if v.table[target] == id then t else slot.s, SideOf(slot, target), i)
  }

  predicate OwnersLive(v: Server) {
    forall fd :: fd in v.table ==> v.table[fd] in v.slots
  }

  /**
   * A session of COPY becomes `t`, whose invariant holds or is not repaired by
   * interest of its own, and interest `i` lands on `target`.
   */
  lemma LandSurvivesIff(v: Server, id: nat, t: Session, side: Side, i: Interest, target: int)
    requires ServerInv(v) && OwnersLive(v) && id in v.slots && v.slots[id].s.current == Some(Copy)
    requires Relayed(t) && t.status == Alive && (i == OP_READ || i == OP_WRITE)
    requires target != PeerFd(v.slots[id], side) && (Inv(Added(t, side, i), v.users) ==> Inv(t, v.users))
    ensures ServerInv(Land(v, id, t, Some(i), target)) <==>
            || (target !in v.table && target !in v.passive)
            || (Inv(t, v.users) && (target in v.table ==> Bears(v, id, t, i, target)))
  {
    assert SlotOk(v, id);
    if target !in v.table && target !in v.passive {
      PutBackKeeps(v, id, Sessions.Teardown(t));
    } else {
      PutBackKeepsIff(v, id, t);
      if target in v.table {
        LandOnSession(v, id, t, side, i, target);
      }
    }
  }

  lemma LandOnSession(v: Server, id: nat, t: Session, side: Side, i: Interest, target: int)
    requires ServerInv(v) && OwnersLive(v) && id in v.slots && t.status == Alive && (i == OP_READ || i == OP_WRITE)
    requires target in v.table && target != PeerFd(v.slots[id], side)
    requires Inv(Added(t, side, i), v.users) ==> Inv(t, v.users)
    requires var v1 := v.(slots := v.slots[id := v.slots[id].(s := t)]); ServerInv(v1) <==> Inv(t, v.users)
    ensures ServerInv(Land(v, id, t, Some(i), target)) <==> Inv(t, v.users) && Bears(v, id, t, i, target)
  {
    var v1 := v.(slots := v.slots[id := v.slots[id].(s := t)]);
    assert EntryOk(v, target);
    LandIsDisturb(v, id, t, i, target);
    if Inv(t, v.users) {
      DisturbSurvivesIff(v1, target, i);
      OwnSide(v, id, side, target);
    } else {
      NotRepaired(v1, id, side, i, target);
    }
  }

  lemma LandIsDisturb(v: Server, id: nat, t: Session, i: Interest, target: int)
    requires OwnersLive(v) && id in v.slots && target in v.table
    ensures var v1 := v.(slots := v.slots[id := v.slots[id].(s := t)]);
            v.table[target] in v1.slots && Land(v, id, t, Some(i), target) == Disturb(v1, target, i)
  {
  }

  lemma OwnSide(v: Server, id: nat, side: Side, target: int)
    requires id in v.slots && target in v.table && v.table[target] in v.slots && EntryOk(v, target)
    requires target != PeerFd(v.slots[id], side)
    ensures v.table[target] == id ==> SideOf(v.slots[id], target) == side
  {
  }

  /** A broken session stays broken, whoever's descriptor the interest lands on. */
  lemma NotRepaired(v: Server, id: nat, side: Side, i: Interest, target: int)
    requires id in v.slots && v.slots[id].s.status == Alive && !Inv(v.slots[id].s, v.users)
    requires !Inv(Added(v.slots[id].s, side, i), v.users)
    requires target in v.table && v.table[target] in v.slots && target != PeerFd(v.slots[id], side)
    ensures !ServerInv(Disturb(v, target, i))
  {
    var u := Disturb(v, target, i);
    assert u.slots[id].s in {v.slots[id].s, Added(v.slots[id].s, side, i)};
    NotInvIsNotKept(u, id);
  }

  /**
   * When the invariant survives a COPY event: neither the tracker nor SIGPIPE ends
   * the process; and the other end's descriptor fits eight
   * bits; the session ends, or asks for no interest; the low bits name no
   * registered descriptor, which ends it; or neither it nor their owner minds.
   */
  predicate Survives(v: Server, id: nat, e: Event)
    requires id in v.slots && !e.Resolved? && OwnersLive(v)
  {
    CopesWith(v.slots[id].s, e) && SurvivesStray(v, id, e)
  }

  predicate SurvivesStray(v: Server, id: nat, e: Event)
    requires id in v.slots && !e.Resolved? && OwnersLive(v)
  {
    var slot := v.slots[id];
    var t := Step(slot.s, v.users, e);
    var target := R.Narrow(PeerFd(slot, e.side));
    || PeerFd(slot, e.side) <= 255
    || t.status != Alive || Asked(slot.s, e).None?
    || (target !in v.table && target !in v.passive)
    || (NeedsNoWaking(slot.s, e)
        && (target in v.table ==> Bears(v, id, Astray(slot.s, t, Other(e.side)), Asked(slot.s, e).value, target)))
  }

  lemma ShortIsReached(v: Server, id: nat, e: Event)
    requires Sound(v) && id in v.slots && v.slots[id].s.current == Some(Copy) && !e.Resolved?
    ensures ReachesPeer(v.slots[id], e) <==> PeerFd(v.slots[id], e.side) <= 255
  {
    assert SlotOk(v, id);
  }

  /** Over every COPY event, with any descriptors, leftover bytes or not. */
  lemma CopySurvivesIff(v: Server, fd: int, e: Event, newFd: int)
    requires ServerInv(v) && Possible(v, Dispatch(fd, e, newFd)) && v.slots[v.table[fd]].s.current == Some(Copy)
    ensures OwnersLive(v) && (ServerInv(Act(v, Dispatch(fd, e, newFd))) <==> Survives(v, v.table[fd], e))
  {
    var id := v.table[fd];
    forall d | d in v.table ensures v.table[d] in v.slots { assert EntryOk(v, d); }
    assert InvOf(v, id);
    ShortIsReached(v, id, e);
    if !CopesWith(v.slots[id].s, e) {
      NotCopedAborts(v, id, e, newFd);
    } else if ReachesPeer(v.slots[id], e) {
      ReachedKeeps(v, id, e, newFd);
    } else {
      AstraySurvivesIff(v, id, e);
    }
  }

  lemma NotCopedAborts(v: Server, id: nat, e: Event, newFd: int)
    requires id in v.slots && v.slots[id].s.status == Alive && v.slots[id].s.current == Some(Copy) && !e.Resolved?
    requires !CopesWith(v.slots[id].s, e)
    ensures !ServerInv(DispatchEvent(v, id, e, newFd))
  {
    NotCopedIsAborted(v.slots[id].s, v.users, e);
  }

  lemma NotCopedIsAborted(s: Session, users: seq<User>, e: Event)
    requires s.status == Alive && s.current == Some(Copy) && !e.Resolved? && !CopesWith(s, e)
    ensures Step(s, users, e).status == Aborted
  {
  }

  lemma ReachedKeeps(v: Server, id: nat, e: Event, newFd: int)
    requires ServerInv(v) && id in v.slots && InCopy(v.slots[id].s, v.users, e)
    ensures ServerInv(Update(v, id, Step(v.slots[id].s, v.users, e), newFd))
  {
    var t := Step(v.slots[id].s, v.users, e);
    CopyStepKeeps(v.slots[id].s, v.users, e);
    PutBackKeeps(v, id, t);
    NoNewDescriptor(v, id, t, newFd);
  }

  lemma NoNewDescriptor(v: Server, id: nat, t: Session, newFd: int)
    requires ServerInv(v) && id in v.slots && v.slots[id].s.current == Some(Copy)
    ensures Update(v, id, t, newFd) == Update(v, id, t, -1)
  {
    assert SlotOk(v, id);
  }

  lemma AstraySurvivesIff(v: Server, id: nat, e: Event)
    requires ServerInv(v) && id in v.slots && InCopy(v.slots[id].s, v.users, e) && !ReachesPeer(v.slots[id], e)
    requires OwnersLive(v)
    ensures ServerInv(GoAstray(v, id, e, R.Narrow(PeerFd(v.slots[id], e.side)))) <==> SurvivesStray(v, id, e)
  {
    var slot := v.slots[id];
    var t := Step(slot.s, v.users, e);
    var target := R.Narrow(PeerFd(slot, e.side));
    ShortIsReached(v, id, e);
    if t.status != Alive {
      ReachedKeeps(v, id, e, -1);
    } else if Asked(slot.s, e).None? {
      NothingAskedKeeps(v, id, e, target);
    } else {
      AskedSurvivesIff(v, id, e, target);
    }
  }

  lemma NothingAskedKeeps(v: Server, id: nat, e: Event, target: int)
    requires ServerInv(v) && id in v.slots && InCopy(v.slots[id].s, v.users, e)
    requires Asked(v.slots[id].s, e).None? && Step(v.slots[id].s, v.users, e).status == Alive
    ensures ServerInv(GoAstray(v, id, e, target))
  {
    CopyStepKeeps(v.slots[id].s, v.users, e);
    AstrayIs(v.slots[id].s, v.users, e);
    PutBackKeepsIff(v, id, Step(v.slots[id].s, v.users, e));
  }

  lemma AskedSurvivesIff(v: Server, id: nat, e: Event, target: int)
    requires ServerInv(v) && OwnersLive(v) && id in v.slots && InCopy(v.slots[id].s, v.users, e)
    requires Asked(v.slots[id].s, e).Some? && Step(v.slots[id].s, v.users, e).status == Alive
    requires target != PeerFd(v.slots[id], e.side)
    ensures var s := v.slots[id].s;
            var a := Astray(s, Step(s, v.users, e), Other(e.side));
            ServerInv(GoAstray(v, id, e, target)) <==>
            || (target !in v.table && target !in v.passive)
            || (NeedsNoWaking(s, e) && (target in v.table ==> Bears(v, id, a, Asked(s, e).value, target)))
  {
    var s := v.slots[id].s;
    CopyStepKeeps(s, v.users, e);
    AstrayIsInvIff(s, v.users, e);
    LandSurvivesIff(v, id, Astray(s, Step(s, v.users, e), Other(e.side)), e.side, Asked(s, e).value, target);
  }

  /** Nobody has the descriptor: the session is torn down, and the rest stands. */
  lemma AstrayEnds(v: Server, id: nat, e: Event, target: int)
    requires ServerInv(v) && id in v.slots && InCopy(v.slots[id].s, v.users, e)
    requires Asked(v.slots[id].s, e).Some? && Step(v.slots[id].s, v.users, e).status == Alive
    requires target !in v.table && target !in v.passive
    ensures var u := GoAstray(v, id, e, target); ServerInv(u) && id !in u.slots
  {
    CopyStepKeeps(v.slots[id].s, v.users, e);
    PutBackKeeps(v, id, Sessions.Teardown(Astray(v.slots[id].s, Step(v.slots[id].s, v.users, e), Other(e.side))));
  }

  /**
   * So for the first bytes relayed to an end that leave the tracker its array: the
   * invariant survives exactly when its descriptor is at most 255 or the low bits
   * name none that is registered, and with its session exactly when it is at most
   * 255.
   */
  lemma DataSurvivesIff(v: Server, fd: int, e: Event, newFd: int)
    requires ServerInv(v) && Possible(v, Dispatch(fd, e, newFd)) && e.Readable? && e.recv.Data?
    requires var s := v.slots[v.table[fd]].s;
             s.current == Some(Copy) && s.early == [] && s.io.From(e.side).content == []
    ensures var id := v.table[fd]; var slot := v.slots[id]; var peer := PeerFd(slot, e.side);
            var t := Act(v, Dispatch(fd, e, newFd));
            && (ServerInv(t) <==> !Overruns(slot.s, e)
                                  && (peer <= 255 || (R.Narrow(peer) !in v.table && R.Narrow(peer) !in v.passive)))
            && (ServerInv(t) && id in t.slots <==> !Overruns(slot.s, e) && peer <= 255)
  {
    var id := v.table[fd];
    assert InvOf(v, id);
    CopySurvivesIff(v, fd, e, newFd);
    if !Overruns(v.slots[id].s, e) {
      FirstBytesNeedWaking(v.slots[id].s, v.users, e);
      WhereFirstBytesEnd(v, fd, e, newFd);
    }
  }

  lemma FirstBytesNeedWaking(s: Session, users: seq<User>, e: Event)
    requires InCopy(s, users, e) && e.Readable? && e.recv.Data? && s.early == [] && s.io.From(e.side).content == []
    ensures !NeedsNoWaking(s, e) && Step(s, users, e).status == Alive
  {
    DataStays(s, users, e);
    assert R.Coupled(s.io, Other(e.side));
  }

  /** The session stays but when its interest is for nobody. */
  lemma WhereFirstBytesEnd(v: Server, fd: int, e: Event, newFd: int)
    requires ServerInv(v) && Possible(v, Dispatch(fd, e, newFd)) && e.Readable? && e.recv.Data?
    requires v.slots[v.table[fd]].s.current == Some(Copy) && !Overruns(v.slots[v.table[fd]].s, e)
    ensures var id := v.table[fd]; var peer := PeerFd(v.slots[id], e.side);
            && (peer <= 255 ==> id in Act(v, Dispatch(fd, e, newFd)).slots)
            && (peer > 255 && R.Narrow(peer) !in v.table && R.Narrow(peer) !in v.passive ==>
                  id !in Act(v, Dispatch(fd, e, newFd)).slots)
  {
    var id := v.table[fd];
    assert InvOf(v, id);
    DataStays(v.slots[id].s, v.users, e);
    ShortIsReached(v, id, e);
    if PeerFd(v.slots[id], e.side) <= 255 {
      LivesOn(v, id, Step(v.slots[id].s, v.users, e), newFd);
    } else if R.Narrow(PeerFd(v.slots[id], e.side)) !in v.table
              && R.Narrow(PeerFd(v.slots[id], e.side)) !in v.passive
    {
      AstrayEnds(v, id, e, R.Narrow(PeerFd(v.slots[id], e.side)));
    }
  }

  lemma LivesOn(v: Server, id: nat, t: Session, newFd: int)
    requires id in v.slots && t.status == Alive
    ensures id in Update(v, id, t, newFd).slots
  {
  }

  lemma DataStays(s: Session, users: seq<User>, e: Event)
    requires InCopy(s, users, e) && e.Readable? && e.recv.Data?
    ensures Step(s, users, e).status == Alive
  {
    R.DataKeepsSound(s.io, e.side, e.recv.bytes, s.early, []);
    SessionCopy.CopyStepIsRelayStep(s, users, e);
  }

  // ---------------------------------------------------------------------
  // An origin whose descriptor is too long

  /** Nothing was sent to the origin, and it does not wait to be written. */
  predicate Silent(s: Session) {
    s.sock == Registered && !HasWrite(s.io.oi) && s.io.wire.toOrigin == []
  }

  /** Every relay to a descriptor above 255 is silent. */
  predicate LongAreSilent(v: Server) {
    forall id :: id in v.slots ==> SlotSilent(v.slots[id])
  }

  predicate SlotSilent(slot: Slot) {
    slot.s.status == Alive && (slot.s.current == Some(Copy) && slot.originFd > 255 ==> Silent(slot.s))
  }

  /** COPY is entered from REQUEST_WRITE only. */
  lemma RepliesLeadToCopy(s: Session, users: seq<User>, e: Event)
    requires s.status == Alive && s.current != Some(Copy)
    requires Step(s, users, e).status == Alive && Step(s, users, e).current == Some(Copy)
    ensures s.current == Some(RequestWrite) && e.Writable?
    ensures var (t, ret) := RequestWriteStep(s, e.side, e.send);
            t.status == Alive && ret == Copy && Step(s, users, e) == Jump(t, Copy, InProgress)
  {
    var s0 := First(s);
    var (s1, ret) := HandlerStep(s0, users, s0.current.value, e);
    HandlersClimb(s0, users, s0.current.value, e);
    JumpToCopy(s1, ret, ConnOf(e));
    JumpOpensAtMostOnce(s1, ret, ConnOf(e));
  }

  /** And over a registered origin that is only read. */
  lemma CopyBeginsSilent(s: Session, users: seq<User>, e: Event)
    requires s.status == Alive && s.current != Some(Copy)
    ensures var t := Step(s, users, e); t.status == Alive && t.current == Some(Copy) ==> Silent(t)
  {
    var t := Step(s, users, e);
    if t.status == Alive && t.current == Some(Copy) {
      RepliesLeadToCopy(s, users, e);
      ReplyLeadsSilent(s, e.side, e.send);
    }
  }

  lemma ReplyLeadsSilent(s: Session, side: Side, send: R.Send)
    requires s.status == Alive && s.current == Some(RequestWrite)
    ensures var (t, ret) := RequestWriteStep(s, side, send);
            t.status == Alive && ret == Copy ==> Silent(Jump(t, Copy, InProgress))
  {
  }

  /** An event of a silent relay sends nothing to the origin, and only the client's bytes ask for interest there. */
  lemma RelayStaysSilent(r: R.Relay, e: R.Event)
    requires !HasWrite(r.oi) && r.wire.toOrigin == [] && R.Enabled(r, e)
    ensures var t := R.Step(r, e).0; t.wire.toOrigin == [] && (e.side == Origin ==> !HasWrite(t.oi))
  {
    match e.io
    case Readable(recv) => ReadStaysSilent(r, e.side, recv, e.shutOk);
    case Writable(send) => ClientSendStaysSilent(r, send, e.shutOk);
  }

  lemma ReadStaysSilent(r: R.Relay, side: Side, recv: R.Recv, shutOk: bool)
    requires !HasWrite(r.oi)
    ensures var t := R.CopyRead(r, side, recv, shutOk).0;
            t.wire.toOrigin == r.wire.toOrigin && (side == Origin ==> !HasWrite(t.oi))
  {
  }

  lemma ClientSendStaysSilent(r: R.Relay, send: R.Send, shutOk: bool)
    ensures R.CopyWrite(r, Client, send, shutOk).0.wire.toOrigin == r.wire.toOrigin
  {
  }

  lemma CopyStaysSilent(s: Session, users: seq<User>, e: Event)
    requires s.status == Alive && s.current == Some(Copy) && Silent(s) && Enabled(s, e)
    requires !e.Resolved? && Step(s, users, e).status == Alive
    ensures var t := Step(s, users, e);
            && (e.side == Client ==> Silent(Astray(s, t, Origin)))
            && (e.side == Origin ==> Silent(t) && Silent(Astray(s, t, Client)))
  {
    CopyOutcome(s, users, e);
    EnabledInRelay(s, e);
    RelayStaysSilent(s.io, RelayEvent(e));
  }

  lemma EnabledInRelay(s: Session, e: Event)
    requires s.current == Some(Copy) && Enabled(s, e) && !e.Resolved?
    ensures R.Enabled(s.io, RelayEvent(e))
  {
  }

  lemma UpdateStaysSilent(v: Server, id: nat, t: Session, newFd: int)
    requires LongAreSilent(v) && id in v.slots
    requires t.status == Alive && t.current == Some(Copy) ==>
               Silent(t) || (t.sock == v.slots[id].s.sock && v.slots[id].originFd <= 255)
    ensures LongAreSilent(Update(v, id, t, newFd))
  {
    assert SlotSilent(v.slots[id]);
  }

  /** Interest set from outside is on descriptors below 256. */
  lemma DisturbStaysSilent(v: Server, fd: int, i: Interest)
    requires LongAreSilent(v) && fd in v.table && v.table[fd] in v.slots && fd <= 255
    ensures LongAreSilent(Disturb(v, fd, i))
  {
    assert SlotSilent(v.slots[v.table[fd]]);
  }

  lemma LandStaysSilent(v: Server, id: nat, t: Session, asked: Option<Interest>, target: int)
    requires LongAreSilent(v) && id in v.slots && t.status == Alive && target <= 255
    requires v.slots[id].originFd > 255 && t.current == Some(Copy) ==> Silent(t)
    ensures LongAreSilent(Land(v, id, t, asked, target))
  {
    var v1 := v.(slots := v.slots[id := v.slots[id].(s := t)]);
    assert SlotSilent(v1.slots[id]);
    if asked.Some? {
      if target in v.table {
        if v.table[target] in v1.slots {
          DisturbStaysSilent(v1, target, asked.value);
        }
      } else if target !in v.passive {
        UpdateStaysSilent(v, id, Sessions.Teardown(t), -1);
      }
    }
  }

  lemma GoAstrayStaysSilent(v: Server, id: nat, e: Event, target: int)
    requires LongAreSilent(v) && id in v.slots && Enabled(v.slots[id].s, e) && !e.Resolved? && target <= 255
    requires v.slots[id].s.current == Some(Copy)
    ensures LongAreSilent(GoAstray(v, id, e, target))
  {
    var slot := v.slots[id];
    var t := Step(slot.s, v.users, e);
    assert SlotSilent(slot);
    if t.status != Alive {
      UpdateStaysSilent(v, id, t, -1);
    } else {
      if slot.originFd > 255 {
        CopyStaysSilent(slot.s, v.users, e);
      }
      LandStaysSilent(v, id, Astray(slot.s, t, Other(e.side)), Asked(slot.s, e), target);
    }
  }

  lemma DispatchStaysSilent(v: Server, id: nat, e: Event, newFd: int)
    requires LongAreSilent(v) && id in v.slots && Enabled(v.slots[id].s, e) && !e.Resolved?
    ensures LongAreSilent(DispatchEvent(v, id, e, newFd))
  {
    var slot := v.slots[id];
    assert SlotSilent(slot);
    if slot.s.current != Some(Copy) {
      CopyBeginsSilent(slot.s, v.users, e);
      UpdateStaysSilent(v, id, Step(slot.s, v.users, e), newFd);
    } else if ReachesPeer(slot, e) {
      CopyReachedStaysSilent(v, id, e, newFd);
    } else {
      GoAstrayStaysSilent(v, id, e, R.Narrow(PeerFd(slot, e.side)));
    }
  }

  lemma CopyReachedStaysSilent(v: Server, id: nat, e: Event, newFd: int)
    requires LongAreSilent(v) && id in v.slots && Enabled(v.slots[id].s, e) && !e.Resolved?
    requires v.slots[id].s.current == Some(Copy) && ReachesPeer(v.slots[id], e)
    ensures LongAreSilent(Update(v, id, Step(v.slots[id].s, v.users, e), newFd))
  {
    var slot := v.slots[id];
    assert SlotSilent(slot);
    if slot.originFd > 255 {
      if Step(slot.s, v.users, e).status == Alive {
        CopyStaysSilent(slot.s, v.users, e);
      }
    } else {
      CopyKeepsItsSocket(slot.s, v.users, e);
    }
    UpdateStaysSilent(v, id, Step(slot.s, v.users, e), newFd);
  }

  lemma CopyKeepsItsSocket(s: Session, users: seq<User>, e: Event)
    requires s.status == Alive && s.current == Some(Copy) && !e.Resolved?
    ensures Step(s, users, e).status == Alive ==> Step(s, users, e).sock == s.sock
  {
    CopyKeepsSocket(s, users, e);
    var (s1, ret) := HandlerStep(s, users, Copy, e);
    JumpOpensAtMostOnce(s1, ret, ConnOf(e));
  }

  lemma ReconnectingStaysSilent(v: Server, id: nat, attempts: seq<Attempt>)
    requires LongAreSilent(v) && id in v.slots
    ensures LongAreSilent(Reconnecting(v, id, attempts))
  {
    assert SlotSilent(v.slots[id]);
  }

  lemma DeliveryStaysSilent(v: Server, answer: Answer)
    requires LongAreSilent(v) && v.queue != []
    ensures LongAreSilent(DeliverJob(v, answer))
  {
    var fd := v.queue[0].fd;
    if fd in v.table && v.table[fd] in v.slots {
      var id := v.table[fd];
      var s := v.slots[id].s;
      var v1 := v.(queue := v.queue[1..], removed := v.removed + [v.queue[0].owner], delivered := v.delivered + [id]);
      assert SlotSilent(v.slots[id]);
      if s.current != Some(Copy) {
        CopyBeginsSilent(s, v.users, Resolved(answer.attempts));
      }
      var v2 := Reconnecting(v1, id, answer.attempts);
      ReconnectingStaysSilent(v1, id, answer.attempts);
      UpdateStaysSilent(v2, id, Step(s, v.users, Resolved(answer.attempts)), answer.newFd);
    }
  }

  lemma ActStaysSilent(v: Server, a: Action)
    requires LongAreSilent(v) && Possible(v, a)
    ensures LongAreSilent(Act(v, a))
  {
    match a
    case Dispatch(fd, e, newFd) => DispatchStaysSilent(v, v.table[fd], e, newFd);
    case Deliver(answer) => DeliveryStaysSilent(v, answer);
    case _ => assert forall id :: id in v.slots ==> SlotSilent(v.slots[id]);
  }

  lemma {:induction false} RunStaysSilent(v: Server, acts: seq<Action>, limit: int)
    requires LongAreSilent(v) && Runs(v, acts, limit)
    ensures LongAreSilent(After(v, acts))
    decreases |acts|
  {
    if acts != [] {
      ActStaysSilent(v, acts[0]);
      RunStaysSilent(Act(v, acts[0]), acts[1..], limit);
    }
  }

  /**
   * Over every run, with any answers and any descriptors: an origin whose
   * descriptor is above 255 never waits to be written in COPY, so nothing that its
   * client sends reaches it.
   */
  lemma LongOriginGetsNothing(passive: set<int>, acts: seq<Action>, limit: int, id: nat)
    requires Runs(NewServer(passive), acts, limit) && id in After(NewServer(passive), acts).slots
    requires var slot := After(NewServer(passive), acts).slots[id];
             slot.s.current == Some(Copy) && slot.originFd > 255
    ensures var s := After(NewServer(passive), acts).slots[id].s;
            s.sock == Registered && !HasWrite(s.io.oi) && s.io.wire.toOrigin == []
  {
    RunStaysSilent(NewServer(passive), acts, limit);
    assert SlotSilent(After(NewServer(passive), acts).slots[id]);
  }
}
