/**
 * What holds of a session whatever the environment answers, also where the
 * source does not cope: a session waits only for events that its state has a
 * handler for, its resolution is awaited quietly, and only six things end the
 * process.
 */
module SessionAnswers {
  import opened Base
  import opened Buffers
  import opened Streams
  import opened Interests
  import opened Parameters
  import opened Sessions
  import opened SessionSafety
  import G = GreetingParsers
  import A = AuthParsers
  import Q = RequestParsers
  import R = Relays

  // ---------------------------------------------------------------------
  // The invariant

  predicate NoSocketYet(s: Session) {
    s.sock == NoSocket && s.io.oi == OP_NOOP && !s.resolving
  }

  /** The client is to speak, and nothing waits for it. */
  predicate Hears(s: Session) {
    NoSocketYet(s) && !HasWrite(s.io.ci) && s.io.wb == EmptyBuf(BUFFER_SIZE)
  }

  predicate Speaks(s: Session) {
    NoSocketYet(s) && !HasRead(s.io.ci) && s.io.wb.Ok() && s.io.wb.cap == BUFFER_SIZE
  }

  predicate NoReads(s: Session) {
    !HasRead(s.io.ci) && !HasRead(s.io.oi)
  }

  /** What a session in state `st` may wait for. */
  predicate HandledIn(s: Session, st: St) {
    match st
    case GreetingRead => Hears(s)
    case GreetingWrite => Speaks(s)
    case AuthRead => Hears(s)
    case AuthWrite => Speaks(s)
    case RequestRead => Hears(s)
    case OriginConnect => NoReads(s) && (s.resolving ==> s.sock == NoSocket && s.io.ci == OP_NOOP)
    case RequestWrite => NoReads(s) && !s.resolving
    case Copy => s.sock == Registered && !s.resolving
    case _ => false
  }

  predicate Handled(s: Session) {
    || s.status == Closed
    || (s.status == Alive && HandledIn(s, First(s).current.value))
  }

  /** Interest means a handler: so the aborts for a missing one are never reached. */
  lemma HandledHasHandler(s: Session)
    requires Handled(s) && s.status == Alive
    ensures var st := First(s).current.value;
            && (HasRead(s.io.ci) || (s.sock == Registered && HasRead(s.io.oi)) ==> OnRead(st))
            && (HasWrite(s.io.ci) || (s.sock == Registered && HasWrite(s.io.oi)) ==> OnWrite(st))
            && (s.resolving ==> OnBlock(st))
  {
  }

  /** A resolution is awaited by a session that waits for nothing else and has no socket. */
  lemma AwaitingIsQuiet(s: Session, e: Event)
    requires Handled(s) && s.status == Alive && s.resolving
    ensures s.current == Some(OriginConnect) && s.io.ci == OP_NOOP && s.sock == NoSocket
    ensures Enabled(s, e) ==> e.Resolved?
  {
  }

  // ---------------------------------------------------------------------
  // What aborts

  /**
   * A request that names no host; a credential longer than the tracker's array; a
   * reply without room for it; a send to a connection that was reset; the end of a
   * session whose socket the selector does not know, after its reply or when
   * getsockopt fails.
   */
  predicate Aborts(s: Session, e: Event) {
    match e
    case Readable(_, recv, _, _, _) =>
      || Overruns(s, e)
      || (s.current == Some(RequestRead) && recv.Data?
          && Q.ParseBuf(s.request, s.io.rb.Append(recv.bytes)).0.state.Faulted?)
    case Writable(_, send, _, soError, _) =>
      if s.current == Some(OriginConnect) then s.sock == Loose && soError == NoAnswer
      else if s.current == Some(RequestWrite) then
        send.Broken? || s.io.wb.Room() < 10
        || (s.sock == Loose && (send.SendError? || send.n == |s.io.wb.content| + 10))
      else send.Broken? || Overruns(s, e)
    case Resolved(_) => false
  }

  /** A handler's outcome `ret` from state `st`: ready to stay, or to enter where it leads. */
  predicate ReadyFor(s: Session, st: St, ret: St) {
    if ret == st then HandledIn(s, st)
    else
      match ret
      case GreetingWrite => Speaks(s)
      case AuthRead => Hears(s)
      case AuthWrite => Speaks(s)
      case RequestRead => Hears(s)
      case OriginConnect => NoReads(s) && NoSocketYet(s) && s.io.ci == OP_NOOP
      case RequestWrite => NoReads(s) && !s.resolving
      case Copy => s.sock == Registered && !s.resolving
      case GreetingRead => false
      case _ => true
  }

  /** Entry actions settle it. */
  lemma FinishHandles(s: Session, st: St, ret: St, conn: Conn)
    requires s.current == Some(st) && s.status == Alive && ReadyFor(s, st, ret) && st != Done && st != Error
    ensures var t := Finish(s, ret, conn);
            && (t.status == Aborted <==> (ret == Done || ret == Error) && s.sock == Loose)
            && (t.status != Aborted ==> Handled(t))
  {
  }

  // ---------------------------------------------------------------------
  // One lemma per handler

  lemma GreetingReadHandles(s: Session, e: Event)
    requires HandledIn(s, GreetingRead) && s.status == Alive && e.Readable?
    ensures var (t, ret) := GreetingReadStep(s, e.recv);
            t.status == Alive && t.current == s.current && t.sock == s.sock && ReadyFor(t, GreetingRead, ret)
  {
    if e.recv.Data? {
      var (g, rb) := G.ParseBuf(s.greeting, s.io.rb.Append(e.recv.bytes));
      GreetingConsumedHandles(s.SetRb(rb).(greeting := g));
    }
  }

  lemma GreetingConsumedHandles(s: Session)
    requires HandledIn(s, GreetingRead)
    ensures var (t, ret) := GreetingConsumed(s);
            t.status == s.status && t.current == s.current && t.sock == s.sock && ReadyFor(t, GreetingRead, ret)
  {
  }

  lemma AuthReadHandles(s: Session, users: seq<User>, e: Event)
    requires HandledIn(s, AuthRead) && s.status == Alive && e.Readable?
    ensures var (t, ret) := AuthReadStep(s, users, e.recv);
            t.status == Alive && t.current == s.current && t.sock == s.sock && ReadyFor(t, AuthRead, ret)
  {
    if e.recv.Data? {
      var (a, rb) := A.ParseBuf(s.auth, s.io.rb.Append(e.recv.bytes));
      AuthConsumedHandles(s.SetRb(rb).(auth := a), users);
    }
  }

  lemma AuthConsumedHandles(s: Session, users: seq<User>)
    requires HandledIn(s, AuthRead)
    ensures var (t, ret) := AuthConsumed(s, users);
            t.status == s.status && t.current == s.current && t.sock == s.sock && ReadyFor(t, AuthRead, ret)
  {
  }

  lemma RequestReadHandles(s: Session, e: Event)
    requires HandledIn(s, RequestRead) && s.status == Alive && s.current == Some(RequestRead) && e.Readable?
    ensures var (t, ret) := RequestReadStep(s, e.recv);
            && t.current == s.current && t.sock == s.sock && (t.status == Aborted <==> Aborts(s, e))
            && (t.status != Aborted ==> t.status == Alive && ReadyFor(t, RequestRead, ret))
  {
    if e.recv.Data? {
      var (q, rb) := Q.ParseBuf(s.request, s.io.rb.Append(e.recv.bytes));
      RequestConsumedHandles(s.SetRb(rb).(request := q));
    }
  }

  lemma RequestConsumedHandles(s: Session)
    requires HandledIn(s, RequestRead) && s.status == Alive
    ensures var (t, ret) := RequestConsumed(s);
            && t.current == s.current && t.sock == s.sock && (t.status == Aborted <==> s.request.state.Faulted?)
            && (t.status != Aborted ==> t.status == Alive && ReadyFor(t, RequestRead, ret))
  {
  }

  lemma AnswersHandle(s: Session, send: R.Send)
    requires s.status == Alive && Speaks(s)
    ensures var (t, ret) := GreetingWriteStep(s, send);
            t.status == Alive && t.current == s.current && t.sock == s.sock && ReadyFor(t, GreetingWrite, ret)
    ensures var (t, ret) := AuthWriteStep(s, send);
            t.status == Alive && t.current == s.current && t.sock == s.sock && ReadyFor(t, AuthWrite, ret)
  {
  }

  lemma ReplyHandles(s: Session, side: Side, send: R.Send)
    requires s.status == Alive && HandledIn(s, RequestWrite)
    requires R.LegalSend(s.io.wb.Append(Q.ReplyMessage(s.request.reply)), send)
    requires side == Origin ==> s.sock == Registered
    ensures var (t, ret) := RequestWriteStep(s, side, send);
            && t.current == s.current && t.sock == s.sock && (t.status == Aborted <==> s.io.wb.Room() < 10)
            && (t.status != Aborted ==>
                  && t.status == Alive && ReadyFor(t, RequestWrite, ret)
                  && (s.sock == Loose ==>
                        (ret == Done || ret == Error <==> !send.Sent? || send.n == |s.io.wb.content| + 10)))
  {
    if s.io.wb.Room() >= 10 {
      var s1 := Refilled(s);
      if !SendFailed(s1.io.wb, send) {
        ReplyAdvancedHandles(CountedOut(s1, send.n), side);
      }
    }
  }

  lemma ReplyAdvancedHandles(s: Session, side: Side)
    requires s.status == Alive && HandledIn(s, RequestWrite) && (side == Origin ==> s.sock == Registered)
    ensures var (t, ret) := ReplyAdvanced(s, side);
            && t.current == s.current && t.sock == s.sock && t.status == Alive && ReadyFor(t, RequestWrite, ret)
            && (s.sock == Loose ==> (ret == Done || ret == Error <==> s.io.wb.content == []))
  {
  }

  lemma VerifyHandles(s: Session, side: Side, soError: SoError)
    requires s.status == Alive && HandledIn(s, OriginConnect) && !s.resolving
    ensures var (t, ret) := VerifyStep(s, side, soError);
            && t.current == s.current && t.sock == s.sock && t.status == Alive && ReadyFor(t, OriginConnect, ret)
            && (ret == Done || ret == Error <==> soError == NoAnswer)
  {
  }

  lemma {:induction false} AddressesHandle(s: Session, attempts: seq<Attempt>)
    requires s.status == Alive && NoReads(s) && !s.resolving
    ensures var (t, ret) := TryAddresses(s, attempts);
            && t.current == s.current && t.status == Alive && ReadyFor(t, OriginConnect, ret)
            && !t.resolving && (ret == OriginConnect || ret == RequestWrite)
    decreases |attempts|
  {
    if attempts != [] {
      AddressesHandle(FirstAttempt(s, attempts[0]).0, attempts[1..]);
    }
  }

  lemma CopyHandles(s: Session, e: Event)
    requires s.status == Alive && HandledIn(s, Copy) && !e.Resolved?
    ensures var (t, ret) := CopyHandler(s, e);
            && t.current == s.current && t.sock == s.sock && (t.status == Aborted <==> Overruns(s, e))
            && (t.status != Aborted ==> t.status == Alive && ReadyFor(t, Copy, ret))
  {
  }

  // ---------------------------------------------------------------------
  // One step

  /** A handler's outcome, for every event that the selector can dispatch. */
  lemma HandlerHandles(s: Session, users: seq<User>, st: St, e: Event)
    requires s.status == Alive && s.current == Some(st) && HandledIn(s, st) && Enabled(s, e)
    ensures var (t, ret) := HandlerStep(s, users, st, e);
            && t.current == s.current && (t.status == Aborted || (t.status == Alive && ReadyFor(t, st, ret)))
            && (t.status == Aborted || ((ret == Done || ret == Error) && t.sock == Loose) <==> Aborts(s, e))
  {
    hide CopyStep, TryAddresses;
    match st
    case GreetingRead => GreetingReadHandles(s, e);
    case GreetingWrite => AnswersHandle(s, e.send);
    case AuthRead => AuthReadHandles(s, users, e);
    case AuthWrite => AnswersHandle(s, e.send);
    case RequestRead => RequestReadHandles(s, e);
    case RequestWrite => ReplyHandles(s, e.side, e.send);
    case OriginConnect =>
      if e.Resolved? {
        AddressesHandle(s.(resolving := false), e.attempts);
      } else {
        VerifyHandles(s, e.side, e.soError);
      }
    case Copy => CopyHandles(s, e);
  }

  /** Any answer at all: the session stays handled or the process is aborted, and that exactly as `Aborts` says. */
  lemma StepHandles(s: Session, users: seq<User>, e: Event)
    requires Handled(s) && Enabled(s, e)
    ensures var t := Step(s, users, e); (t.status == Aborted <==> Aborts(s, e)) && (t.status != Aborted ==> Handled(t))
  {
    var s0 := First(s);
    var st := s0.current.value;
    var (s1, ret) := HandlerStep(s0, users, st, e);
    HandlerHandles(s0, users, st, e);
    if s1.status == Alive {
      FinishHandles(s1, st, ret, ConnOf(e));
    }
  }

  /** A registered origin stays; a resolution starts below ORIGIN_CONNECT in rank only, and its answer ends it. */
  lemma HandledEffects(s: Session, users: seq<User>, e: Event)
    requires Handled(s) && Enabled(s, e) && Step(s, users, e).status == Alive
    ensures var t := Step(s, users, e);
            && (s.sock == Registered ==> t.sock == Registered)
            && (t.resolving && !s.resolving ==> Rank(First(s).current.value) < Rank(OriginConnect))
            && (e.Resolved? ==> !t.resolving && t.current.Some? && Rank(t.current.value) >= Rank(OriginConnect))
            && t.current.Some? && Rank(t.current.value) >= Rank(First(s).current.value)
  {
    var s0 := First(s);
    var st := s0.current.value;
    var (s1, ret) := HandlerStep(s0, users, st, e);
    StatesClimb(s, users, e);
    HandlersClimb(s0, users, st, e);
    JumpOpensAtMostOnce(s1, ret, ConnOf(e));
    if e.Resolved? {
      AddressesHandle(s.(resolving := false), e.attempts);
    } else {
      HandlerKeepsSocket(s0, users, st, e);
    }
  }

  lemma NewSessionIsHandled()
    ensures Handled(NEW_SESSION)
  {
  }
}
