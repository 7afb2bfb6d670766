/**
 * Replies on their own: whatever the network, the resolver and the origin answer,
 * what was sent in answer to a request, and what waits to be sent, is whole
 * copies of the ten-byte reply; success is reported only after a connection seen
 * without error; and a relay begins only behind such replies and loses no byte.
 */
module SessionReply {
  import opened Base
  import opened Buffers
  import opened Interests
  import opened Parameters
  import opened Sessions
  import opened SessionSafety
  import G = GreetingParsers
  import A = AuthParsers
  import Q = RequestParsers
  import R = Relays

  predicate NoReply(s: Session) {
    s.replySent == [] && s.fills == 0
  }

  predicate Nothing(s: Session) {
    NoReply(s) && s.io.wb.content == []
  }

  /** What a session in state `st` has answered. */
  predicate ReplyAt(s: Session, st: St) {
    match st
    case RequestRead => Nothing(s) && !Q.Stops(s.request)
    case OriginConnect => Nothing(s)
    case RequestWrite => RepliesWhole(s) && (s.request.reply == Q.SUCCEEDED ==> s.verified)
    case Copy =>
      && s.sock == Registered && s.verified && s.fills > 0
      && s.replySent == Repeat(Q.ReplyMessage(Q.SUCCEEDED), s.fills)
      && R.Conserved(s.io, s.early, [])
    case Done => true
    case Error => true
    case _ => NoReply(s)
  }

  predicate ReplyInv(s: Session) {
    s.status == Alive ==> ReplyAt(s, First(s).current.value)
  }

  /** Interests, flags and shutdowns aside, which replies do not depend on. */
  predicate SameReplies(s: Session, t: Session) {
    && t.status == s.status && t.current == s.current && t.sock == s.sock && t.request == s.request
    && t.verified == s.verified && t.early == s.early && t.replySent == s.replySent && t.fills == s.fills
    && t.io.rb == s.io.rb && t.io.wb == s.io.wb
    && (forall side :: t.io.Received(side) == s.io.Received(side) && t.io.SentTo(side) == s.io.SentTo(side))
  }

  lemma SameRepliesHold(s: Session, t: Session)
    requires ReplyInv(s) && SameReplies(s, t)
    ensures ReplyInv(t)
  {
    assert forall side :: t.io.Received(side) == s.io.Received(side) && t.io.SentTo(side) == s.io.SentTo(side);
    assert t.io.wire.toOrigin == s.io.SentTo(Origin) && t.io.wire.toClient == s.io.SentTo(Client);
    assert t.io.wire.fromOrigin == s.io.Received(Origin) && t.io.wire.fromClient == s.io.Received(Client);
  }

  /** What is needed to enter `st`; the entry action does the rest. */
  predicate Entering(s: Session, st: St) {
    match st
    case RequestRead => Nothing(s)
    case Copy =>
      && s.sock == Registered && s.verified && s.fills > 0 && s.io.wb.content == []
      && s.replySent == Repeat(Q.ReplyMessage(Q.SUCCEEDED), s.fills)
    case _ => ReplyAt(s, st)
  }

  lemma {:induction false} JumpKeepsReplies(s: Session, next: St, conn: Conn)
    requires if s.current == Some(next) then ReplyAt(s, next) else Entering(s, next)
    ensures var t := Jump(s, next, conn); t.current.Some? && ReplyAt(t, t.current.value)
    decreases 8 - Rank(next)
  {
    if s.current != Some(next) {
      var (s1, st) := Arrive(s.(current := Some(next)), next, conn);
      if st != next {
        JumpKeepsReplies(s1, st, conn);
      }
    }
  }

  lemma AttemptKeepsReplies(s: Session, a: Attempt)
    requires Nothing(s)
    ensures var (t, ret) := FirstAttempt(s, a);
            Nothing(t) && (ret == OriginConnect || (ret == RequestWrite && t.request.reply != Q.SUCCEEDED))
  {
  }

  lemma {:induction false} AddressesKeepReplies(s: Session, attempts: seq<Attempt>)
    requires Nothing(s)
    ensures var (t, ret) := TryAddresses(s, attempts);
            Nothing(t) && (ret == OriginConnect || (ret == RequestWrite && t.request.reply != Q.SUCCEEDED))
    decreases |attempts|
  {
    if attempts != [] {
      AttemptKeepsReplies(s, attempts[0]);
      AddressesKeepReplies(FirstAttempt(s, attempts[0]).0, attempts[1..]);
    }
  }

  /** A handler's outcome: fit to stay, or to enter where it leads. */
  predicate Fit(s: Session, st: St, ret: St) {
    if ret == st then ReplyAt(s, st) else Entering(s, ret)
  }

  lemma NothingIsWhole(s: Session)
    requires Nothing(s)
    ensures RepliesWhole(s)
  {
  }

  lemma ConsumedIsFit(s: Session, users: seq<User>)
    requires NoReply(s)
    ensures var (t, ret) := GreetingConsumed(s); Fit(t, GreetingRead, ret)
    ensures var (t, ret) := AuthConsumed(s, users); t.status == Aborted || Fit(t, AuthRead, ret)
  {
  }

  lemma RequestConsumedIsFit(s: Session)
    requires Nothing(s) && (s.request.state == Q.Error ==> s.request.reply != Q.SUCCEEDED)
    ensures var (t, ret) := RequestConsumed(s); t.status == Aborted || Fit(t, RequestRead, ret)
  {
    NothingIsWhole(s);
  }

  lemma ReadIsFit(s: Session, users: seq<User>, st: St, e: Event)
    requires e.Readable? && st != Copy && ReplyAt(s, st)
    ensures var (t, ret) := HandlerStep(s, users, st, e); t.status == Aborted || Fit(t, st, ret)
  {
    if e.recv.Data? {
      var b := s.io.rb.Append(e.recv.bytes);
      match st
      case GreetingRead =>
        var (g, rb) := G.ParseBuf(s.greeting, b);
        ConsumedIsFit(s.SetRb(rb).(greeting := g), users);
      case AuthRead =>
        var (a, rb) := A.ParseBuf(s.auth, b);
        ConsumedIsFit(s.SetRb(rb).(auth := a), users);
      case RequestRead =>
        Q.RefusalHasCode(s.request, b.content);
        var (q, rb) := Q.ParseBuf(s.request, b);
        RequestConsumedIsFit(s.SetRb(rb).(request := q));
      case _ =>
    }
  }

  lemma AnswerSentIsFit(s: Session, send: R.Send)
    requires NoReply(s)
    ensures var (t, ret) := GreetingWriteStep(s, send); Fit(t, GreetingWrite, ret)
    ensures var (t, ret) := AuthWriteStep(s, send); Fit(t, AuthWrite, ret)
  {
  }

  lemma ReplySentIsFit(s: Session, side: Side, send: R.Send)
    requires ReplyAt(s, RequestWrite)
    ensures var (t, ret) := RequestWriteStep(s, side, send); t.status == Aborted || Fit(t, RequestWrite, ret)
  {
    if s.io.wb.Room() >= 10 {
      var s1 := Refilled(s);
      RefillIsWhole(s);
      if !SendFailed(s1.io.wb, send) {
        CountedOutIsWhole(s1, send.n);
        ReplyAdvancedIsFit(CountedOut(s1, send.n), side);
      }
    }
  }

  lemma RefillIsWhole(s: Session)
    requires RepliesWhole(s)
    ensures RepliesWhole(Refilled(s))
  {
    var m := Q.ReplyMessage(s.request.reply);
    assert s.replySent + (s.io.wb.content + m) == (s.replySent + s.io.wb.content) + m;
  }

  lemma CountedOutIsWhole(s: Session, n: nat)
    requires RepliesWhole(s) && n <= |s.io.wb.content|
    ensures RepliesWhole(CountedOut(s, n))
  {
    R.Pop(s.replySent, s.io.wb.content, n);
  }

  lemma ReplyAdvancedIsFit(s: Session, side: Side)
    requires ReplyAt(s, RequestWrite) && s.fills > 0
    ensures var (t, ret) := ReplyAdvanced(s, side); Fit(t, RequestWrite, ret)
  {
    assert s.io.wb.content == [] ==> s.replySent + s.io.wb.content == s.replySent;
  }

  lemma VerifiedIsFit(s: Session, side: Side, soError: SoError)
    requires ReplyAt(s, OriginConnect)
    ensures var (t, ret) := VerifyStep(s, side, soError); Fit(t, OriginConnect, ret)
  {
    if soError != NoAnswer {
      NothingIsWhole(VerifyStep(s, side, soError).0);
    }
  }

  lemma WriteIsFit(s: Session, users: seq<User>, st: St, e: Event)
    requires e.Writable? && st != Copy && ReplyAt(s, st)
    ensures var (t, ret) := HandlerStep(s, users, st, e); t.status == Aborted || Fit(t, st, ret)
  {
    match st
    case GreetingWrite => AnswerSentIsFit(s, e.send);
    case AuthWrite => AnswerSentIsFit(s, e.send);
    case RequestWrite => ReplySentIsFit(s, e.side, e.send);
    case OriginConnect => VerifiedIsFit(s, e.side, e.soError);
    case _ =>
  }

  lemma DataConserves(r: R.Relay, side: Side, bs: seq<byte>, early: seq<byte>)
    requires R.Conserved(r, early, [])
    ensures R.Conserved(R.CopyRead(r, side, R.Data(bs), true).0, early, [])
  {
    if side == Client {
      R.Push(r.wire.toOrigin, r.wb.content, [], r.wire.fromClient, bs);
    } else {
      R.Push(r.wire.toClient, r.rb.content, early, r.wire.fromOrigin, bs);
    }
  }

  lemma EndConserves(r: R.Relay, side: Side, recv: R.Recv, shutOk: bool, early: seq<byte>)
    requires R.Conserved(r, early, []) && !recv.Data?
    ensures R.Conserved(R.CopyRead(r, side, recv, shutOk).0, early, [])
  {
  }

  lemma SentConserves(r: R.Relay, side: Side, n: nat, early: seq<byte>)
    requires R.Conserved(r, early, []) && 0 < n <= |r.To(side).content|
    ensures var bs := r.To(side).content[..n];
            R.Conserved(r.SetFrom(Other(side), r.To(side).Advance(n)).NoteSent(side, bs), early, [])
  {
    R.Pop(r.SentTo(side), r.To(side).content, n);
  }

  lemma DrainConserves(r: R.Relay, side: Side, shutOk: bool, early: seq<byte>)
    requires R.Conserved(r, early, [])
    ensures R.Conserved(R.BytesSent(r, side, shutOk).0, early, [])
  {
  }

  lemma WriteConserves(r: R.Relay, side: Side, send: R.Send, shutOk: bool, early: seq<byte>)
    requires R.Conserved(r, early, [])
    ensures R.Conserved(R.CopyWrite(r, side, send, shutOk).0, early, [])
  {
    if send.Sent? && 0 < send.n <= |r.To(side).content| {
      var bs := r.To(side).content[..send.n];
      SentConserves(r, side, send.n, early);
      DrainConserves(r.SetFrom(Other(side), r.To(side).Advance(send.n)).NoteSent(side, bs), side, shutOk, early);
    }
  }

  /** Whatever recv and send return, also more than there is room for, no relayed byte is lost or made up. */
  lemma StepConserves(r: R.Relay, e: R.Event, early: seq<byte>)
    requires R.Conserved(r, early, [])
    ensures R.Conserved(R.Step(r, e).0, early, [])
  {
    match e.io
    case Readable(recv) =>
      if recv.Data? {
        DataConserves(r, e.side, recv.bytes, early);
      } else {
        EndConserves(r, e.side, recv, e.shutOk, early);
      }
    case Writable(send) => WriteConserves(r, e.side, send, e.shutOk, early);
  }

  lemma RelayedIsFit(s: Session, io: R.Relay, t: Session)
    requires ReplyAt(s, Copy) && R.Conserved(io, s.early, [])
    requires t == s.(io := io, tracker := t.tracker, status := t.status)
    ensures ReplyAt(t, Copy)
  {
  }

  lemma CopyTouchesRelayOnly(s: Session, e: Event)
    requires !e.Resolved?
    ensures var (t, ret) := CopyStep(s, e); var (io, next) := R.Step(s.io, RelayEvent(e));
            t == s.(io := io, tracker := t.tracker) && ret == StateOf(next)
  {
  }

  lemma CopyIsFit(s: Session, users: seq<User>, e: Event)
    requires !e.Resolved? && s.status == Alive && ReplyAt(s, Copy)
    ensures var (t, ret) := HandlerStep(s, users, Copy, e); t.status == Aborted || Fit(t, Copy, ret)
  {
    var (io, next) := R.Step(s.io, RelayEvent(e));
    StepConserves(s.io, RelayEvent(e), s.early);
    CopyTouchesRelayOnly(s, e);
    RelayedIsFit(s, io, CopyStep(s, e).0);
  }

  lemma HandlerIsFit(s: Session, users: seq<User>, st: St, e: Event)
    requires s.status == Alive && ReplyAt(s, st)
    ensures var (t, ret) := HandlerStep(s, users, st, e); t.status == Aborted || Fit(t, st, ret)
  {
    if e.Resolved? {
      if st == OriginConnect {
        AddressesKeepReplies(s.(resolving := false), e.attempts);
        NothingIsWhole(TryAddresses(s.(resolving := false), e.attempts).0);
      }
    } else if st == Copy {
      CopyIsFit(s, users, e);
    } else if e.Readable? {
      ReadIsFit(s, users, st, e);
    } else {
      WriteIsFit(s, users, st, e);
    }
  }

  lemma JumpIsFit(s: Session, st: St, ret: St, conn: Conn)
    requires s.current == Some(st) && Fit(s, st, ret)
    ensures ReplyInv(Jump(s, ret, conn))
  {
    JumpKeepsReplies(s, ret, conn);
  }

  lemma FinishKeepsReplies(s: Session, st: St, ret: St, conn: Conn)
    requires s.current == Some(st) && (s.status == Aborted || Fit(s, st, ret))
    ensures ReplyInv(Finish(s, ret, conn))
  {
    if s.status != Aborted {
      JumpIsFit(s, st, ret, conn);
    }
  }

  /** Every event keeps it, whether or not the selector would dispatch it, and whatever the environment answers. */
  lemma StepKeepsReplies(s: Session, users: seq<User>, e: Event)
    requires ReplyInv(s)
    ensures ReplyInv(Step(s, users, e))
  {
    if s.status == Alive {
      var s0 := First(s);
      var st := s0.current.value;
      var (s1, ret) := HandlerStep(s0, users, st, e);
      HandlerIsFit(s0, users, st, e);
      HandlersClimb(s0, users, st, e);
      FinishKeepsReplies(s1, st, ret, ConnOf(e));
    }
  }

  // ---------------------------------------------------------------------
  // Success and the connection

  /**
   * The client is written to, or its readiness taken for the origin's, only over a
   * socket that the selector knows.
   */
  predicate KnownAt(s: Session, st: St) {
    match st
    case OriginConnect => HasWrite(s.io.ci) ==> s.sock == Registered
    case RequestWrite => s.request.reply == Q.SUCCEEDED ==> s.sock == Registered
    case _ => true
  }

  predicate Known(s: Session) {
    s.status == Alive && s.current.Some? ==> KnownAt(s, s.current.value)
  }

  predicate KnownFit(s: Session, st: St, ret: St) {
    if ret == OriginConnect && st != OriginConnect then s.io.ci == OP_NOOP else KnownAt(s, ret)
  }

  /** An address that connects at once, after none or some that are refused. */
  predicate EndsConnected(attempts: seq<Attempt>)
    decreases |attempts|
  {
    && attempts != []
    && (attempts[0].outcome == Connected || (attempts[0].outcome == Unreachable && EndsConnected(attempts[1..])))
  }

  /** A refused address sets the client to be written, and a later one connects at once. */
  predicate Misleads(attempts: seq<Attempt>) {
    EndsConnected(attempts) && attempts[0].outcome == Unreachable
  }

  lemma {:induction false} WalkEnds(s: Session, attempts: seq<Attempt>)
    ensures var (t, ret) := TryAddresses(s, attempts);
            && (ret == OriginConnect || (ret == RequestWrite && t.request.reply == Q.HOST_UNREACHABLE))
            && t.status == s.status && t.current == s.current
            && (EndsConnected(attempts) ==> ret == OriginConnect && t.sock == Loose)
            && (ret == OriginConnect ==>
                  && attempts != [] && (t.sock == Registered || EndsConnected(attempts))
                  && t.io.ci == if attempts[0].outcome == Unreachable then OP_WRITE else s.io.ci)
    decreases |attempts|
  {
    if attempts != [] {
      WalkEnds(FirstAttempt(s, attempts[0]).0, attempts[1..]);
    }
  }

  /** The answer to a resolution keeps it iff it does not mislead. */
  lemma ResolvedKeepsKnownIff(s: Session, users: seq<User>, attempts: seq<Attempt>)
    requires s.status == Alive && s.current == Some(OriginConnect) && s.io.ci == OP_NOOP
    ensures Known(Step(s, users, Resolved(attempts))) <==> !Misleads(attempts)
  {
    WalkEnds(s.(resolving := false), attempts);
  }

  lemma {:induction false} JumpKeepsKnown(s: Session, next: St, conn: Conn)
    requires s.current != Some(next) && (if next == OriginConnect then s.io.ci == OP_NOOP else KnownAt(s, next))
    ensures var t := Jump(s, next, conn); t.current.Some? && KnownAt(t, t.current.value)
    decreases 8 - Rank(next)
  {
    var (s1, st) := Arrive(s.(current := Some(next)), next, conn);
    if st != next {
      JumpKeepsKnown(s1, st, conn);
    }
  }

  lemma ReadIsKnown(s: Session, users: seq<User>, st: St, e: Event)
    requires e.Readable? && ReplyAt(s, st) && s.status == Alive && KnownAt(s, st)
    ensures var (t, ret) := HandlerStep(s, users, st, e); t.status == Aborted || KnownFit(t, st, ret)
  {
    if st == RequestRead && e.recv.Data? {
      Q.RefusalHasCode(s.request, s.io.rb.Append(e.recv.bytes).content);
    }
  }

  lemma WriteIsKnown(s: Session, users: seq<User>, st: St, e: Event)
    requires e.Writable? && KnownAt(s, st) && (e.side == Origin ==> s.sock == Registered)
    requires e.side == Client ==> HasWrite(s.io.ci)
    ensures var (t, ret) := HandlerStep(s, users, st, e); t.status == Aborted || KnownFit(t, st, ret)
  {
  }

  lemma JumpIsKnown(s: Session, st: St, ret: St, conn: Conn)
    requires s.current == Some(st) && KnownFit(s, st, ret)
    ensures Known(Jump(s, ret, conn))
  {
    if ret != st {
      JumpKeepsKnown(s, ret, conn);
    }
  }

  lemma FinishKeepsKnown(s: Session, st: St, ret: St, conn: Conn)
    requires s.current == Some(st) && (s.status == Aborted || KnownFit(s, st, ret))
    ensures Known(Finish(s, ret, conn))
  {
    if s.status != Aborted {
      JumpIsKnown(s, st, ret, conn);
    }
  }

  /** Every event that the selector can dispatch keeps it. */
  lemma StepKeepsKnown(s: Session, users: seq<User>, e: Event)
    requires Known(s) && ReplyInv(s) && Enabled(s, e) && !e.Resolved?
    ensures Known(Step(s, users, e))
  {
    var s0 := First(s);
    var st := s0.current.value;
    var (s1, ret) := HandlerStep(s0, users, st, e);
    if e.Readable? {
      ReadIsKnown(s0, users, st, e);
    } else {
      WriteIsKnown(s0, users, st, e);
    }
    HandlersClimb(s0, users, st, e);
    FinishKeepsKnown(s1, st, ret, ConnOf(e));
  }

  // ---------------------------------------------------------------------
  // Success without a connection to the origin

  /** Success is reported over the socket at hand; whether that is registered is decided before. */
  lemma SuccessIsConnectedIff(s: Session, users: seq<User>, e: Event)
    requires s.status == Alive && s.current == Some(OriginConnect) && e.Writable? && e.soError == NoError
    ensures var t := Step(s, users, e);
            && t.status == Alive && t.current == Some(RequestWrite) && t.request.reply == Q.SUCCEEDED
            && (t.sock == Registered <==> s.sock == Registered)
  {
  }

  /**
   * And it need not be: a first address refused leaves the client waiting to be
   * written, a second that connects at once leaves a socket the selector does not
   * know, and the client is told of success.
   */
  lemma SuccessWithoutConnection(s: Session, users: seq<User>, v6: bool, w6: bool)
    requires s.status == Alive && s.resolving && s.current == Some(OriginConnect)
    ensures var t := Step(s, users, Resolved([Attempt(v6, Unreachable), Attempt(w6, Connected)]));
            var e := Writable(Client, R.SendError, true, NoError, false);
            && Enabled(t, e)
            && var u := Step(t, users, e);
               u.current == Some(RequestWrite) && u.request.reply == Q.SUCCEEDED && u.sock == Loose
  {
    var a, b := Attempt(v6, Unreachable), Attempt(w6, Connected);
    var r := s.(resolving := false);
    assert [a, b][1..] == [b];
    assert TryAddresses(r, [a, b]) == TryAddresses(FirstAttempt(r, a).0, [b]) == FirstAttempt(FirstAttempt(r, a).0, b);
    SuccessIsConnectedIff(Step(s, users, Resolved([a, b])), users, Writable(Client, R.SendError, true, NoError, false));
  }
}
