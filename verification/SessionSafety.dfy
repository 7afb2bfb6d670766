/**
 * What holds of a session over every run: no event meets a state without its
 * handler, nothing aborts, authentication cannot be skipped, and the relay is
 * entered only over a verified connection. A step keeps the invariant exactly
 * when `CopesWith` says so.
 */
module SessionSafety {
  import opened Base
  import opened Buffers
  import opened Streams
  import opened Interests
  import opened Parameters
  import P = Pop3Sniffers
  import R = Relays
  import opened Sessions
  import G = GreetingParsers
  import A = AuthParsers
  import Q = RequestParsers

  // ---------------------------------------------------------------------
  // The invariant

  /** The client offered no authentication and not the password method, or named an accepted pair. */
  predicate Authorised(s: Session, users: seq<User>) {
    || (s.selected == G.NO_AUTHENTICATION_REQUIRED
        && G.NO_AUTHENTICATION_REQUIRED in s.greeting.methods && G.USERNAME_PASSWORD_AUTH !in s.greeting.methods)
    || (s.selected == G.USERNAME_PASSWORD_AUTH && G.USERNAME_PASSWORD_AUTH in s.greeting.methods
        && s.authReply == AUTH_SUCCESS && Accepted(users, s.auth.user, s.auth.pass))
  }

  predicate NoOrigin(s: Session) {
    s.sock == NoSocket && s.io.oi == OP_NOOP && !s.resolving && s.replySent == [] && s.fills == 0
  }

  /** The client is to speak. */
  predicate Listening(s: Session) {
    NoOrigin(s) && s.io.ci == OP_READ && s.io.wb.content == []
  }

  /** An answer for the client is waiting in the buffer. */
  predicate Answering(s: Session) {
    NoOrigin(s) && s.io.ci == OP_WRITE && s.io.wb.content != []
  }

  function Repeat(m: seq<byte>, n: nat): seq<byte> {
    if n == 0 then [] else Repeat(m, n - 1) + m
  }

  /** Reply bytes sent and waiting are whole copies of the ten-byte reply. */
  predicate RepliesWhole(s: Session) {
    s.replySent + s.io.wb.content == Repeat(Q.ReplyMessage(s.request.reply), s.fills)
  }

  predicate InState(s: Session, users: seq<User>) {
    match s.current
    case None => Listening(s)
    case Some(GreetingRead) => Listening(s) && !G.Stops(s.greeting)
    case Some(GreetingWrite) => Answering(s) && s.selected == SelectMethod(s.greeting.methods)
    case Some(AuthRead) =>
      && Listening(s) && s.selected == G.USERNAME_PASSWORD_AUTH == SelectMethod(s.greeting.methods)
      && !A.Stops(s.auth) && s.authReply == AUTH_FAIL
    case Some(AuthWrite) =>
      && Answering(s) && s.selected == G.USERNAME_PASSWORD_AUTH == SelectMethod(s.greeting.methods)
      && (s.authReply == AUTH_SUCCESS ==> Accepted(users, s.auth.user, s.auth.pass))
    case Some(RequestRead) => Listening(s) && Authorised(s, users) && !Q.Stops(s.request)
    case Some(OriginConnect) =>
      && Authorised(s, users) && s.io.wb.content == [] && s.replySent == [] && s.fills == 0 && s.io.ci == OP_NOOP
      && if s.resolving then s.sock == NoSocket && s.io.oi == OP_NOOP
         else s.sock == Registered && s.io.oi == OP_WRITE
    case Some(RequestWrite) =>
      && Authorised(s, users) && s.io.ci == OP_WRITE && s.io.oi == OP_NOOP && s.sock != Loose && !s.resolving
      && (s.request.reply == Q.SUCCEEDED ==> s.sock == Registered && s.verified)
      && RepliesWhole(s)
    case Some(Copy) =>
      && Authorised(s, users) && s.sock == Registered && !s.resolving
      && s.request.reply == Q.SUCCEEDED && s.verified
      && s.fills > 0 && s.replySent == Repeat(Q.ReplyMessage(Q.SUCCEEDED), s.fills)
      && R.Sound(s.io, s.early, [])
      && (s.early == [] ==> R.Coupled(s.io, Client) && R.Coupled(s.io, Origin))
    case _ => false
  }

  predicate BuffersOk(s: Session) {
    s.io.rb.Ok() && s.io.wb.Ok() && s.io.rb.cap == s.io.wb.cap == BUFFER_SIZE
  }

  predicate Inv(s: Session, users: seq<User>) {
    || s.status == Closed
    || (s.status == Alive && BuffersOk(s) && (s.current == Some(Copy) || s.tracker == P.IDLE) && InState(s, users))
  }

  /** What the source copes with: all answers but these, and a reply only where there is room for it. */
  predicate CopesWith(s: Session, e: Event) {
    match e
    case Readable(_, recv, _, conn, _) =>
      // a credential that overruns the tracker's array
      && !Overruns(s, e)
      && (s.current == Some(RequestRead) && recv.Data? ==>
            var q := Q.ParseBuf(s.request, s.io.rb.Append(recv.bytes)).0;
            // a name of length zero; a connect that ends at once
            !q.state.Faulted? && (q.state.Done? && (q.atyp == Q.IPV4 || q.atyp == Q.IPV6) ==> conn == InProgress))
    case Writable(_, send, _, _, _) =>
      && !Overruns(s, e)
      // a connection that was reset
      && (send.Broken? ==> s.current == Some(OriginConnect))
      // the reply is put in the buffer again on every call
      && (s.current == Some(RequestWrite) ==> s.io.wb.Room() >= 10)
    case Resolved(attempts) =>
      // the first address decides
      attempts == [] || attempts[0].outcome == InProgress
  }

  // ---------------------------------------------------------------------
  // One lemma per handler

  /** GreetingRead but for the parser, which may have come to any state. */
  predicate GreetingParsed(s: Session) {
    s.status == Alive && BuffersOk(s) && s.tracker == P.IDLE && s.current == Some(GreetingRead) && Listening(s)
  }

  lemma GreetingConsumedKeeps(s: Session, users: seq<User>, conn: Conn)
    requires GreetingParsed(s)
    ensures var (s1, ret) := GreetingConsumed(s); Inv(Finish(s1, ret, conn), users)
  {
  }

  lemma GreetingReadKeeps(s: Session, users: seq<User>, recv: R.Recv, conn: Conn)
    requires Inv(s, users) && s.current == Some(GreetingRead) && s.status == Alive
    requires R.LegalRecv(s.io.rb, recv)
    ensures var (s1, ret) := GreetingReadStep(s, recv); Inv(Finish(s1, ret, conn), users)
  {
    if recv.Data? {
      var b := s.io.rb.Append(recv.bytes);
      ConsumeBufOk(G.Feed, G.Stops, s.greeting, b);
      var (g, rb) := G.ParseBuf(s.greeting, b);
      GreetingConsumedKeeps(s.SetRb(rb).(greeting := g), users, conn);
    }
  }

  lemma GreetingWriteKeeps(s: Session, users: seq<User>, send: R.Send)
    requires Inv(s, users) && s.current == Some(GreetingWrite) && s.status == Alive
    ensures var (s1, ret) := GreetingWriteStep(s, send); Inv(Finish(s1, ret, InProgress), users)
  {
    if !SendFailed(s.io.wb, send) && send.n == |s.io.wb.content| {
      MethodSentKeeps(s.SetWb(s.io.wb.Advance(send.n)).SetInterest(Client, OP_READ), users);
    }
  }

  /** The selected method is out: the state it asks for is entered. */
  lemma MethodSentKeeps(s: Session, users: seq<User>)
    requires s.status == Alive && BuffersOk(s) && s.tracker == P.IDLE && s.current == Some(GreetingWrite)
    requires Listening(s) && s.selected == SelectMethod(s.greeting.methods)
    ensures var next := if s.selected == G.NO_AUTHENTICATION_REQUIRED then RequestRead
                        else if s.selected == G.USERNAME_PASSWORD_AUTH then AuthRead
                        else Error;
            Inv(Finish(s, next, InProgress), users)
  {
  }

  /** AuthRead but for the parser, which may have come to any state. */
  predicate AuthParsed(s: Session) {
    && s.status == Alive && BuffersOk(s) && s.tracker == P.IDLE
    && s.current == Some(AuthRead) && Listening(s) && s.authReply == AUTH_FAIL
    && s.selected == G.USERNAME_PASSWORD_AUTH == SelectMethod(s.greeting.methods)
  }

  lemma AuthConsumedKeeps(s: Session, users: seq<User>, conn: Conn)
    requires AuthParsed(s)
    ensures var (s1, ret) := AuthConsumed(s, users); Inv(Finish(s1, ret, conn), users)
  {
    if A.Stops(s.auth) {
      StatusKeeps(AuthConsumed(s, users).0, users, conn);
    }
  }

  /** The outcome waits for the client. */
  lemma StatusKeeps(s: Session, users: seq<User>, conn: Conn)
    requires s.status == Alive && BuffersOk(s) && s.tracker == P.IDLE && s.current == Some(AuthRead) && Answering(s)
    requires s.selected == G.USERNAME_PASSWORD_AUTH == SelectMethod(s.greeting.methods)
    requires s.authReply == AUTH_SUCCESS ==> Accepted(users, s.auth.user, s.auth.pass)
    ensures Inv(Finish(s, AuthWrite, conn), users)
  {
  }

  lemma AuthReadKeeps(s: Session, users: seq<User>, recv: R.Recv, conn: Conn)
    requires Inv(s, users) && s.current == Some(AuthRead) && s.status == Alive
    requires R.LegalRecv(s.io.rb, recv)
    ensures var (s1, ret) := AuthReadStep(s, users, recv); Inv(Finish(s1, ret, conn), users)
  {
    if recv.Data? {
      var b := s.io.rb.Append(recv.bytes);
      ConsumeBufOk(A.Feed, A.Stops, s.auth, b);
      var (a, rb) := A.ParseBuf(s.auth, b);
      AuthConsumedKeeps(s.SetRb(rb).(auth := a), users, conn);
    }
  }

  lemma AuthWriteKeeps(s: Session, users: seq<User>, send: R.Send)
    requires Inv(s, users) && s.current == Some(AuthWrite) && s.status == Alive
    ensures var (s1, ret) := AuthWriteStep(s, send); Inv(Finish(s1, ret, InProgress), users)
  {
    if !SendFailed(s.io.wb, send) && send.n == |s.io.wb.content| {
      StatusSentKeeps(s.SetWb(s.io.wb.Advance(send.n)).SetInterest(Client, OP_READ), users);
    }
  }

  /** The status is out: the request is next, or the end. */
  lemma StatusSentKeeps(s: Session, users: seq<User>)
    requires s.status == Alive && BuffersOk(s) && s.tracker == P.IDLE && s.current == Some(AuthWrite) && Listening(s)
    requires s.authReply == AUTH_SUCCESS ==> Authorised(s, users)
    ensures Inv(Finish(s, if s.authReply == AUTH_SUCCESS then RequestRead else Done, InProgress), users)
  {
  }

  /** RequestRead but for the parser, which may have come to any state. */
  predicate RequestParsed(s: Session, users: seq<User>) {
    && s.status == Alive && BuffersOk(s) && s.tracker == P.IDLE
    && s.current == Some(RequestRead) && Listening(s) && Authorised(s, users)
    && (s.request.state == Q.Error ==> s.request.reply != Q.SUCCEEDED)
  }

  /** A complete request: the origin is connected to, or its name resolved. */
  lemma ConnectingKeeps(s: Session, users: seq<User>, conn: Conn)
    requires s.status == Alive && BuffersOk(s) && s.tracker == P.IDLE && s.current == Some(RequestRead)
    requires NoOrigin(s) && s.io.ci == OP_NOOP && s.io.wb.content == [] && Authorised(s, users)
    ensures Inv(Finish(s, OriginConnect, conn), users) <==>
            (s.request.atyp == Q.IPV4 || s.request.atyp == Q.IPV6 ==> conn == InProgress)
  {
  }

  lemma RefusingKeeps(s: Session, users: seq<User>, conn: Conn)
    requires s.status == Alive && BuffersOk(s) && s.tracker == P.IDLE && s.current == Some(RequestRead)
    requires NoOrigin(s) && s.io.ci == OP_WRITE && s.io.wb.content == [] && Authorised(s, users)
    requires s.request.reply != Q.SUCCEEDED
    ensures Inv(Finish(s, RequestWrite, conn), users)
  {
  }

  lemma RequestConsumedKeeps(s: Session, users: seq<User>, conn: Conn)
    requires RequestParsed(s, users)
    ensures var (s1, ret) := RequestConsumed(s);
            Inv(Finish(s1, ret, conn), users) <==>
            && s.request.state != Q.Faulted
            && (s.request.state == Q.Done && (s.request.atyp == Q.IPV4 || s.request.atyp == Q.IPV6)
               ==> conn == InProgress)
  {
    match s.request.state
    case Done => ConnectingKeeps(s.SetInterest(Client, OP_NOOP), users, conn);
    case Error => RefusingKeeps(s.SetInterest(Client, OP_WRITE), users, conn);
    case _ =>
  }

  lemma RequestReadKeeps(s: Session, users: seq<User>, e: Event)
    requires Inv(s, users) && s.current == Some(RequestRead) && s.status == Alive && e.Readable?
    requires R.LegalRecv(s.io.rb, e.recv)
    ensures var (s1, ret) := RequestReadStep(s, e.recv); Inv(Finish(s1, ret, e.conn), users) <==> CopesWith(s, e)
  {
    if e.recv.Data? {
      var b := s.io.rb.Append(e.recv.bytes);
      ConsumeBufOk(Q.FeedTurn, Q.Stops, s.request, b);
      Q.RefusalHasCode(s.request, b.content);
      var (q, rb) := Q.ParseBuf(s.request, b);
      RequestConsumedKeeps(s.SetRb(rb).(request := q), users, e.conn);
    }
  }

  /** REQUEST_WRITE in the middle of a send. */
  predicate Replying(s: Session, users: seq<User>) {
    && s.status == Alive && s.current == Some(RequestWrite) && BuffersOk(s) && s.tracker == P.IDLE
    && Authorised(s, users) && s.io.ci == OP_WRITE && s.io.oi == OP_NOOP && s.sock != Loose && !s.resolving
    && (s.request.reply == Q.SUCCEEDED ==> s.sock == Registered && s.verified)
    && s.fills > 0 && RepliesWhole(s)
  }

  lemma ReplyAdvancedKeeps(s: Session, users: seq<User>)
    requires Replying(s, users)
    ensures var (s1, ret) := ReplyAdvanced(s, Client); Inv(Finish(s1, ret, InProgress), users)
  {
    if s.io.wb.content == [] {
      assert s.replySent + s.io.wb.content == s.replySent;
      R.EntryIsSound(s.io.rb, EmptyBuf(BUFFER_SIZE));
    }
  }

  lemma RefilledIsReplying(s: Session, users: seq<User>)
    requires Inv(s, users) && s.current == Some(RequestWrite) && s.status == Alive && s.io.wb.Room() >= 10
    ensures Replying(Refilled(s), users)
  {
  }

  lemma CountedOutIsReplying(s: Session, users: seq<User>, n: nat)
    requires Replying(s, users) && n <= |s.io.wb.content|
    ensures Replying(CountedOut(s, n), users)
  {
  }

  lemma RequestWriteKeeps(s: Session, users: seq<User>, send: R.Send)
    requires Inv(s, users) && s.current == Some(RequestWrite) && s.status == Alive
    ensures var (s1, ret) := RequestWriteStep(s, Client, send);
            Inv(Finish(s1, ret, InProgress), users) <==> s.io.wb.Room() >= 10
  {
    if s.io.wb.Room() >= 10 {
      RefilledIsReplying(s, users);
      if !SendFailed(Refilled(s).io.wb, send) {
        CountedOutIsReplying(Refilled(s), users, send.n);
        ReplyAdvancedKeeps(CountedOut(Refilled(s), send.n), users);
      }
    }
  }

  lemma VerifyKeeps(s: Session, users: seq<User>, soError: SoError)
    requires Inv(s, users) && s.current == Some(OriginConnect) && s.status == Alive && s.sock == Registered
    ensures var (s1, ret) := VerifyStep(s, Origin, soError); Inv(Finish(s1, ret, InProgress), users)
  {
    assert Repeat(Q.ReplyMessage(ErrorReply(soError)), 0) == [];
  }

  /** After a first address that did not answer "in progress", no later one repairs the session. */
  lemma {:induction false} LaterAddressesDoNotHelp(s: Session, users: seq<User>, attempts: seq<Attempt>)
    requires s.status == Alive && s.sock == Loose && s.current == Some(OriginConnect) && s.io.ci == OP_WRITE
             && !s.resolving
    ensures var (s1, ret) := TryAddresses(s, attempts); !Inv(Finish(s1, ret, InProgress), users)
    decreases |attempts|
  {
    if attempts != [] {
      var (s1, st) := FirstAttempt(s, attempts[0]);
      if st != OriginConnect {
        LaterAddressesDoNotHelp(s1, users, attempts[1..]);
      }
    }
  }

  lemma NoAddressKeeps(s: Session, users: seq<User>)
    requires Inv(s, users) && s.current == Some(OriginConnect) && s.status == Alive && s.resolving
    ensures var (s1, ret) := ConnectBlockStep(s, []); Inv(Finish(s1, ret, InProgress), users)
  {
    assert Repeat(Q.ReplyMessage(Q.HOST_UNREACHABLE), 0) == [];
  }

  lemma FirstAddressKeepsIff(s: Session, users: seq<User>, attempts: seq<Attempt>)
    requires Inv(s, users) && s.current == Some(OriginConnect) && s.status == Alive && s.resolving
    requires attempts != [] && attempts[0].outcome != Unreachable
    ensures var (s1, ret) := ConnectBlockStep(s, attempts);
            Inv(Finish(s1, ret, InProgress), users) <==> attempts[0].outcome == InProgress
  {
  }

  lemma ConnectBlockKeeps(s: Session, users: seq<User>, attempts: seq<Attempt>)
    requires Inv(s, users) && s.current == Some(OriginConnect) && s.status == Alive && s.resolving
    ensures var (s1, ret) := ConnectBlockStep(s, attempts);
            Inv(Finish(s1, ret, InProgress), users) <==> attempts == [] || attempts[0].outcome == InProgress
  {
    if attempts == [] {
      NoAddressKeeps(s, users);
    } else if attempts[0].outcome == Unreachable {
      LaterAddressesDoNotHelp(FirstAttempt(s.(resolving := false), attempts[0]).0, users, attempts[1..]);
    } else {
      FirstAddressKeepsIff(s, users, attempts);
    }
  }

  /** The relay's own event, inside the session's. */
  function RelayEvent(e: Event): R.Event
    requires !e.Resolved?
  {
    R.Event(e.side, if e.Readable? then R.Readable(e.recv) else R.Writable(e.send), e.shutOk)
  }

  /** The session after a relay step, whatever the tracker made of it. */
  lemma RelayedKeeps(s: Session, users: seq<User>, next: R.Next, conn: Conn)
    requires s.status == Alive && s.current == Some(Copy) && s.sock != Loose
    requires next == R.Stay ==> Inv(s, users)
    ensures Inv(Finish(s, StateOf(next), conn), users)
  {
  }

  lemma CopyKeeps(s: Session, users: seq<User>, e: Event)
    requires Inv(s, users) && s.current == Some(Copy) && Enabled(s, e) && !e.Resolved?
    ensures var (s1, ret) := CopyHandler(s, e); Inv(Finish(s1, ret, ConnOf(e)), users) <==> !Overruns(s, e)
  {
    var (io, next) := R.Step(s.io, RelayEvent(e));
    R.StepKeepsSound(s.io, RelayEvent(e), s.early, []);
    if s.early == [] && next == R.Stay {
      R.StepKeepsTight(s.io, RelayEvent(e), s.early, []);
    }
    R.StepKeepsCaps(s.io, RelayEvent(e));
    var s1 := CopyStep(s, e).0;
    assert CopyStep(s, e) == (s1, StateOf(next)) && s1 == s.(io := io, tracker := s1.tracker);
    RelayedKeeps(s1, users, next, ConnOf(e));
  }

  // ---------------------------------------------------------------------
  // One step, and every run

  /** The invariant is kept by an enabled event exactly when the source copes with it. */
  lemma StepKeepsInvIffCopesWith(s: Session, users: seq<User>, e: Event)
    requires Inv(s, users) && Enabled(s, e)
    ensures Inv(Step(s, users, e), users) <==> CopesWith(s, e)
  {
    match e
    case Readable(_, _, _, _, _) => ReadKeepsInvIff(s, users, e);
    case Writable(_, _, _, _, _) => WriteKeepsInvIff(s, users, e);
    case Resolved(attempts) => ConnectBlockKeeps(s, users, attempts);
  }

  lemma ReadKeepsInvIff(s: Session, users: seq<User>, e: Event)
    requires Inv(s, users) && Enabled(s, e) && e.Readable?
    ensures Inv(Step(s, users, e), users) <==> CopesWith(s, e)
  {
    match First(s).current.value
    case GreetingRead => GreetingReadKeeps(First(s), users, e.recv, e.conn);
    case AuthRead => AuthReadKeeps(s, users, e.recv, e.conn);
    case RequestRead => RequestReadKeeps(s, users, e);
    case Copy => CopyKeeps(s, users, e);
  }

  lemma WriteKeepsInvIff(s: Session, users: seq<User>, e: Event)
    requires Inv(s, users) && Enabled(s, e) && e.Writable?
    ensures Inv(Step(s, users, e), users) <==> CopesWith(s, e)
  {
    if e.send.Broken? && s.current != Some(OriginConnect) {
      BrokenEndsAll(s, users, e);
    } else {
      WriteReturnsInvIff(s, users, e);
    }
  }

  lemma BrokenEndsAll(s: Session, users: seq<User>, e: Event)
    requires s.status == Alive && e.Writable? && e.send.Broken? && s.current != Some(OriginConnect)
    requires Inv(s, users) && Enabled(s, e)
    ensures Step(s, users, e).status == Aborted
  {
    assert Sends(First(s).current.value);
  }

  lemma WriteReturnsInvIff(s: Session, users: seq<User>, e: Event)
    requires Inv(s, users) && Enabled(s, e) && e.Writable? && (e.send.Broken? ==> s.current == Some(OriginConnect))
    ensures Inv(Step(s, users, e), users) <==> CopesWith(s, e)
  {
    match First(s).current.value
    case GreetingWrite => GreetingWriteKeeps(s, users, e.send);
    case AuthWrite => AuthWriteKeeps(s, users, e.send);
    case RequestWrite => RequestWriteKeeps(s, users, e.send);
    case OriginConnect => VerifyKeeps(s, users, e.soError);
    case Copy => CopyKeeps(s, users, e);
  }

  lemma NewSessionIsInv(users: seq<User>)
    ensures Inv(NEW_SESSION, users)
  {
  }

  /**
   * Interest on a descriptor means that the current state handles that event,
   * and an outstanding resolution that it handles the notification: the aborts
   * for a missing handler are never reached.
   */
  lemma InterestHasHandler(s: Session, users: seq<User>)
    requires Inv(s, users) && s.status == Alive
    ensures var st := First(s).current.value;
            && (HasRead(s.io.ci) || (s.sock == Registered && HasRead(s.io.oi)) ==> OnRead(st))
            && (HasWrite(s.io.ci) || (s.sock == Registered && HasWrite(s.io.oi)) ==> OnWrite(st))
            && (s.resolving ==> OnBlock(st))
  {
  }

  /**
   * A live session always has something to wait for, and the kernel an answer to
   * give: except in COPY, after a client that had sent bytes beyond its request.
   */
  lemma AlwaysWaiting(s: Session, users: seq<User>) returns (e: Event)
    requires Inv(s, users) && s.status == Alive && (s.current == Some(Copy) ==> s.early == [])
    ensures Enabled(s, e)
  {
    if s.resolving {
      e := Resolved([]);
    } else if HasRead(s.io.ci) {
      e := Readable(Client, R.Eof, true, InProgress, false);
    } else if HasWrite(s.io.ci) {
      e := Writable(Client, R.SendError, true, NoError, false);
    } else if HasRead(s.io.oi) {
      e := Readable(Origin, R.Eof, true, InProgress, false);
    } else {
      e := Writable(Origin, R.SendError, true, NoError, false);
    }
  }

  /** While a resolution is outstanding the session waits for nothing else and holds no origin descriptor. */
  lemma ResolvingIsQuiet(s: Session, users: seq<User>, e: Event)
    requires Inv(s, users) && s.status == Alive && s.resolving
    ensures s.current == Some(OriginConnect) && s.io.ci == OP_NOOP && s.sock == NoSocket
    ensures Enabled(s, e) ==> e.Resolved?
  {
  }

  /** The handlers return their own state or one of higher rank, whatever the session. */
  lemma HandlersClimb(s: Session, users: seq<User>, st: St, e: Event)
    requires s.status == Alive
    ensures var (s1, ret) := HandlerStep(s, users, st, e);
            && s1.current == s.current
            && (s1.status == s.status ==>
                  (ret == st || Rank(ret) > Rank(st)) && (ret == Copy ==> st == RequestWrite || st == Copy))
  {
    if e.Readable? {
      ReadsClimb(s, users, st, e);
    } else if e.Writable? {
      WritesClimb(s, users, st, e);
    } else if st == OriginConnect {
      AddressesClimb(s.(resolving := false), e.attempts);
    }
  }

  lemma ConsumedClimb(s: Session, users: seq<User>)
    requires s.status == Alive
    ensures var (s1, ret) := GreetingConsumed(s); s1.current == s.current && ret in {GreetingRead, GreetingWrite, Error}
    ensures var (s1, ret) := AuthConsumed(s, users); s1.current == s.current && ret in {AuthRead, AuthWrite, Error}
    ensures var (s1, ret) := RequestConsumed(s);
            s1.current == s.current && ret in {RequestRead, OriginConnect, RequestWrite, Error}
  {
  }

  lemma ReadsClimb(s: Session, users: seq<User>, st: St, e: Event)
    requires s.status == Alive && e.Readable?
    ensures var (s1, ret) := HandlerStep(s, users, st, e);
            && s1.current == s.current
            && (s1.status == s.status ==>
                  (ret == st || Rank(ret) > Rank(st)) && (ret == Copy ==> st == RequestWrite || st == Copy))
  {
    match st
    case GreetingRead => GreetingReadClimbs(s, e.recv);
    case AuthRead => AuthReadClimbs(s, users, e.recv);
    case RequestRead => RequestReadClimbs(s, e.recv);
    case _ =>
  }

  lemma GreetingReadClimbs(s: Session, recv: R.Recv)
    requires s.status == Alive
    ensures var (s1, ret) := GreetingReadStep(s, recv);
            s1.current == s.current && ret in {GreetingRead, GreetingWrite, Error}
  {
    if recv.Data? {
      var (g, rb) := G.ParseBuf(s.greeting, s.io.rb.Append(recv.bytes));
      ConsumedClimb(s.SetRb(rb).(greeting := g), []);
    }
  }

  lemma AuthReadClimbs(s: Session, users: seq<User>, recv: R.Recv)
    requires s.status == Alive
    ensures var (s1, ret) := AuthReadStep(s, users, recv);
            s1.current == s.current && ret in {AuthRead, AuthWrite, Error}
  {
    if recv.Data? {
      var (a, rb) := A.ParseBuf(s.auth, s.io.rb.Append(recv.bytes));
      ConsumedClimb(s.SetRb(rb).(auth := a), users);
    }
  }

  lemma RequestReadClimbs(s: Session, recv: R.Recv)
    requires s.status == Alive
    ensures var (s1, ret) := RequestReadStep(s, recv);
            s1.current == s.current && ret in {RequestRead, OriginConnect, RequestWrite, Error}
  {
    if recv.Data? {
      var (q, rb) := Q.ParseBuf(s.request, s.io.rb.Append(recv.bytes));
      ConsumedClimb(s.SetRb(rb).(request := q), []);
    }
  }

  lemma WritesClimb(s: Session, users: seq<User>, st: St, e: Event)
    requires s.status == Alive && e.Writable?
    ensures var (s1, ret) := HandlerStep(s, users, st, e);
            && s1.current == s.current
            && (s1.status == s.status ==>
                  (ret == st || Rank(ret) > Rank(st)) && (ret == Copy ==> st == RequestWrite || st == Copy))
  {
  }

  lemma {:induction false} AddressesClimb(s: Session, attempts: seq<Attempt>)
    ensures var (s1, ret) := TryAddresses(s, attempts);
            s1.current == s.current && s1.status == s.status && (ret == OriginConnect || ret == RequestWrite)
    decreases |attempts|
  {
    if attempts != [] {
      AddressesClimb(FirstAttempt(s, attempts[0]).0, attempts[1..]);
    }
  }

  /** Redirections settle in the state asked for or a higher one. */
  lemma JumpClimbs(s: Session, next: St, conn: Conn)
    ensures var s1 := Jump(s, next, conn); s1.current.Some? && Rank(s1.current.value) >= Rank(next)
  {
  }

  /** A session that lives on is in the same state or in one of strictly higher rank. */
  lemma StatesClimb(s: Session, users: seq<User>, e: Event)
    requires s.status == Alive && Step(s, users, e).status == Alive
    ensures var here, there := First(s).current, Step(s, users, e).current;
            there.Some? && (there == here || Rank(there.value) > Rank(here.value))
  {
    var s0 := First(s);
    var (s1, ret) := HandlerStep(s0, users, s0.current.value, e);
    HandlersClimb(s0, users, s0.current.value, e);
    JumpClimbs(s1, ret, ConnOf(e));
  }

  // ---------------------------------------------------------------------
  // Sockets and resolutions

  lemma ReadsKeepSocket(s: Session, users: seq<User>, st: St, e: Event)
    requires e.Readable? && st != Copy
    ensures var s1 := HandlerStep(s, users, st, e).0; s1.sock == s.sock && s1.resolving == s.resolving
  {
    if e.recv.Data? {
      var b := s.io.rb.Append(e.recv.bytes);
      match st
      case GreetingRead =>
        var (g, rb) := G.ParseBuf(s.greeting, b);
        ConsumedKeepsSocket(s.SetRb(rb).(greeting := g), users);
      case AuthRead =>
        var (a, rb) := A.ParseBuf(s.auth, b);
        ConsumedKeepsSocket(s.SetRb(rb).(auth := a), users);
      case RequestRead =>
        var (q, rb) := Q.ParseBuf(s.request, b);
        ConsumedKeepsSocket(s.SetRb(rb).(request := q), users);
      case _ =>
    }
  }

  lemma ConsumedKeepsSocket(s: Session, users: seq<User>)
    ensures GreetingConsumed(s).0.sock == s.sock && GreetingConsumed(s).0.resolving == s.resolving
    ensures AuthConsumed(s, users).0.sock == s.sock && AuthConsumed(s, users).0.resolving == s.resolving
    ensures RequestConsumed(s).0.sock == s.sock && RequestConsumed(s).0.resolving == s.resolving
  {
  }

  lemma CopyKeepsSocket(s: Session, users: seq<User>, e: Event)
    requires !e.Resolved?
    ensures var s1 := HandlerStep(s, users, Copy, e).0; s1.sock == s.sock && s1.resolving == s.resolving
  {
  }

  lemma WritesKeepSocket(s: Session, users: seq<User>, st: St, e: Event)
    requires e.Writable? && st != Copy
    ensures var s1 := HandlerStep(s, users, st, e).0; s1.sock == s.sock && s1.resolving == s.resolving
  {
  }

  lemma {:induction false} JumpOpensAtMostOnce(s: Session, next: St, conn: Conn)
    ensures var s1 := Jump(s, next, conn);
            && (s.sock != NoSocket ==> s1.sock == s.sock && s1.resolving == s.resolving)
            && (s1.resolving && !s.resolving ==> next == OriginConnect && s.current != Some(OriginConnect))
            && (s1.status == s.status)
    decreases 8 - Rank(next)
  {
    if s.current != Some(next) {
      var (s1, st) := Arrive(s.(current := Some(next)), next, conn);
      if st != next {
        JumpOpensAtMostOnce(s1, st, conn);
      }
    }
  }

  /** A registered origin stays; a resolution starts once, below ORIGIN_CONNECT in rank, and its answer ends it. */
  lemma StepEffects(s: Session, users: seq<User>, e: Event)
    requires Inv(s, users) && Enabled(s, e) && CopesWith(s, e)
    ensures var t := Step(s, users, e);
            && Inv(t, users)
            && (t.status == Alive ==>
                  && (s.sock == Registered ==> t.sock == Registered)
                  && (t.resolving && !s.resolving ==> Rank(First(s).current.value) < Rank(OriginConnect))
                  && (e.Resolved? ==> !t.resolving && t.current.Some? && Rank(t.current.value) >= Rank(OriginConnect))
                  && t.current.Some? && Rank(t.current.value) >= Rank(First(s).current.value))
  {
    StepKeepsInvIffCopesWith(s, users, e);
    var s0 := First(s);
    var st := s0.current.value;
    var (s1, ret) := HandlerStep(s0, users, st, e);
    if Step(s, users, e).status == Alive {
      StatesClimb(s, users, e);
      HandlersClimb(s0, users, st, e);
      JumpOpensAtMostOnce(s1, ret, ConnOf(e));
      if e.Resolved? {
        ResolutionEnds(s, users, e.attempts);
      } else {
        HandlerKeepsSocket(s0, users, st, e);
      }
    }
  }

  lemma HandlerKeepsSocket(s: Session, users: seq<User>, st: St, e: Event)
    requires !e.Resolved?
    ensures var s1 := HandlerStep(s, users, st, e).0; s1.sock == s.sock && s1.resolving == s.resolving
  {
    if st == Copy {
      CopyKeepsSocket(s, users, e);
    } else if e.Readable? {
      ReadsKeepSocket(s, users, st, e);
    } else {
      WritesKeepSocket(s, users, st, e);
    }
  }

  lemma ResolutionEnds(s: Session, users: seq<User>, attempts: seq<Attempt>)
    requires Inv(s, users) && s.status == Alive && s.resolving
    requires attempts == [] || attempts[0].outcome == InProgress
    ensures !Step(s, users, Resolved(attempts)).resolving
  {
  }

  // ---------------------------------------------------------------------
  // Replies

  /** When one send takes the ten bytes of the reply, the session leaves REQUEST_WRITE having sent it exactly once. */
  lemma OneSendOneReply(s: Session, users: seq<User>, e: Event)
    requires Inv(s, users) && s.status == Alive && s.current == Some(RequestWrite) && s.fills == 0
    requires e.Writable? && e.side == Client && e.send == R.Sent(10) && Enabled(s, e)
    ensures var t := Step(s, users, e);
            && (t.status == Closed || t.current == Some(Copy))
            && t.fills == 1 && t.replySent == Q.ReplyMessage(s.request.reply) && t.io.wb.content == []
  {
    var s1, ret := WholeReplyIsTaken(s);
    JumpKeepsReply(s1, ret, InProgress);
    assert Step(s, users, e) == Finish(s1, ret, InProgress);
  }

  lemma WholeReplyIsTaken(s: Session) returns (t: Session, ret: St)
    requires RepliesWhole(s) && s.fills == 0 && s.status == Alive && s.io.wb.Room() >= 10
    requires s.request.reply == Q.SUCCEEDED ==> s.sock == Registered
    ensures RequestWriteStep(s, Client, R.Sent(10)) == (t, ret)
    ensures t.status == Alive && t.sock == s.sock && t.current == s.current && (ret == Done || ret == Copy)
    ensures t.fills == 1 && t.replySent == Q.ReplyMessage(s.request.reply) && t.io.wb.content == []
  {
    FreshReply(s);
    assert Q.ReplyMessage(s.request.reply)[..10] == Q.ReplyMessage(s.request.reply);
    t, ret := RequestWriteStep(s, Client, R.Sent(10)).0, RequestWriteStep(s, Client, R.Sent(10)).1;
  }

  /** Neither end of the session nor COPY touches what was sent. */
  lemma JumpKeepsReply(s: Session, next: St, conn: Conn)
    requires next == Done || next == Copy
    ensures var t := Jump(s, next, conn);
            && t.fills == s.fills && t.replySent == s.replySent && t.io.wb == s.io.wb
            && t.status == s.status && t.sock == s.sock && t.current == Some(next)
  {
  }

  /** When it takes fewer, the next call puts a second copy behind what is left of the first. */
  lemma ShortSendRepeatsReply(s: Session, users: seq<User>, e: Event, next: Event)
    requires Inv(s, users) && s.status == Alive && s.current == Some(RequestWrite) && s.fills == 0
    requires e.Writable? && e.side == Client && e.send.Sent? && 0 < e.send.n < 10 && Enabled(s, e) && next.Writable?
    ensures var t := Step(s, users, e);
            && t.status == Alive && t.current == Some(RequestWrite)
            && t.io.wb.content == Q.ReplyMessage(s.request.reply)[e.send.n..]
            && Step(t, users, next).fills == 2
  {
    FreshReply(s);
    SecondFill(Step(s, users, e), users, next);
  }

  lemma FreshReply(s: Session)
    requires s.fills == 0 && RepliesWhole(s)
    ensures s.replySent == [] && s.io.wb.content == []
    ensures s.io.wb.Append(Q.ReplyMessage(s.request.reply)).content == Q.ReplyMessage(s.request.reply)
  {
  }

  lemma SecondFill(t: Session, users: seq<User>, next: Event)
    requires t.status == Alive && t.current == Some(RequestWrite) && t.io.wb.Room() >= 10 && next.Writable?
    ensures Step(t, users, next).fills == t.fills + 1
  {
    var (s1, ret) := HandlerStep(t, users, RequestWrite, next);
    assert s1.fills == t.fills + 1;
    JumpKeepsFills(s1, ret, InProgress);
  }

  lemma JumpKeepsFills(s: Session, next: St, conn: Conn)
    ensures Jump(s, next, conn).fills == s.fills
  {
  }

  /** COPY is entered only from a drained, whole reply of success over a connection seen to have no error. */
  lemma CopyIsEarned(s: Session, users: seq<User>, e: Event)
    requires Inv(s, users) && Enabled(s, e) && CopesWith(s, e)
    requires s.current != Some(Copy) && Step(s, users, e).status == Alive && Step(s, users, e).current == Some(Copy)
    ensures var t := Step(s, users, e);
            && s.current == Some(RequestWrite) && s.request.reply == Q.SUCCEEDED
            && t.verified && t.sock == Registered && t.io.wb.content == []
            && t.fills > 0 && t.replySent == Repeat(Q.ReplyMessage(Q.SUCCEEDED), t.fills)
            && t.io == R.Entry(t.io.rb, EmptyBuf(BUFFER_SIZE)) && t.early == t.io.rb.content && t.tracker == P.IDLE
  {
    StepKeepsInvIffCopesWith(s, users, e);
    OnlyRepliesLeadToCopy(s, users, e);
  }

  lemma OnlyRepliesLeadToCopy(s: Session, users: seq<User>, e: Event)
    requires Inv(s, users) && Enabled(s, e) && s.current != Some(Copy)
    requires Step(s, users, e).status == Alive && Step(s, users, e).current == Some(Copy)
    ensures s.current == Some(RequestWrite) && e.Writable? && e.side == Client
    ensures var (t, ret) := RequestWriteStep(s, Client, e.send);
            ret == Copy && Step(s, users, e) == Jump(t, Copy, InProgress)
  {
    var s0 := First(s);
    var (s1, ret) := HandlerStep(s0, users, s0.current.value, e);
    HandlersClimb(s0, users, s0.current.value, e);
    JumpToCopy(s1, ret, ConnOf(e));
  }

  /** No entry action leads on to COPY. */
  lemma JumpToCopy(s: Session, next: St, conn: Conn)
    ensures Jump(s, next, conn).current == Some(Copy) ==> next == Copy
  {
  }

  // ---------------------------------------------------------------------
  // Where the environment's answer is a bad one

  /** An only address that is refused at once: the reply is sent, then the teardown aborts the process. */
  lemma RefusedAddressAborts(s: Session, users: seq<User>, v6: bool)
    requires Inv(s, users) && s.status == Alive && s.resolving
    ensures var t := Step(s, users, Resolved([Attempt(v6, Unreachable)]));
            && t.status == Alive && t.current == Some(RequestWrite)
            && Step(t, users, Writable(Client, R.Sent(10), true, NoError, false)).status == Aborted
  {
    var a := Attempt(v6, Unreachable);
    var r := s.(resolving := false);
    assert [a][1..] == [];
    assert TryAddresses(r, [a]) == TryAddresses(FirstAttempt(r, a).0, []);
    RefusedReplyAborts(Step(s, users, Resolved([a])), users);
  }

  lemma RefusedReplyAborts(t: Session, users: seq<User>)
    requires t.status == Alive && t.current == Some(RequestWrite) && t.sock == Loose
    requires t.io.wb == EmptyBuf(BUFFER_SIZE) && t.request.reply != Q.SUCCEEDED
    ensures Step(t, users, Writable(Client, R.Sent(10), true, NoError, false)).status == Aborted
  {
    assert Refilled(t).io.wb.content == Q.ReplyMessage(t.request.reply);
    var (s1, ret) := RequestWriteStep(t, Client, R.Sent(10));
    assert s1.sock == Loose && ret == Done;
    JumpOpensAtMostOnce(s1, ret, InProgress);
  }

  /** An only address that connects at once: nothing is waited for, so the session is never dispatched again. */
  lemma ConnectedAtOnceIsStuck(s: Session, users: seq<User>, v6: bool, e: Event)
    requires Inv(s, users) && s.status == Alive && s.resolving
    ensures var t := Step(s, users, Resolved([Attempt(v6, Connected)]));
            t.status == Alive && t.current == Some(OriginConnect) && !Enabled(t, e)
  {
    var a := Attempt(v6, Connected);
    assert TryAddresses(s.(resolving := false), [a]) == FirstAttempt(s.(resolving := false), a);
  }

  /** Likewise when the request names the address itself. */
  lemma NumericConnectedAtOnceIsStuck(s: Session, users: seq<User>, recv: R.Recv, e: Event)
    requires Inv(s, users) && s.status == Alive && s.current == Some(RequestRead) && recv.Data?
    requires var q := Q.ParseBuf(s.request, s.io.rb.Append(recv.bytes)).0;
             q.state.Done? && q.atyp in {Q.IPV4 as int, Q.IPV6 as int}
    ensures var t := Step(s, users, Readable(Client, recv, true, Connected, false));
            t.status == Alive && t.current == Some(OriginConnect) && !Enabled(t, e)
  {
    var (q, rb) := Q.ParseBuf(s.request, s.io.rb.Append(recv.bytes));
    DoneThenConnected(s.SetRb(rb).(request := q), users, e);
  }

  lemma DoneThenConnected(s: Session, users: seq<User>, e: Event)
    requires s.status == Alive && s.current == Some(RequestRead) && NoOrigin(s)
    requires s.request.state == Q.Done && s.request.atyp in {Q.IPV4 as int, Q.IPV6 as int}
    ensures var (s1, ret) := RequestConsumed(s);
            var t := Finish(s1, ret, Connected);
            t.status == Alive && t.current == Some(OriginConnect) && !Enabled(t, e)
  {
  }

  /**
   * A first address refused at once, a second in progress: the client's
   * descriptor is left waiting to be written, so the pending connect is taken for
   * established and the origin's descriptor for one to send the reply to.
   */
  lemma SecondAddressMisfires(s: Session, users: seq<User>, v6: bool, w6: bool)
    requires Inv(s, users) && s.status == Alive && s.resolving
    ensures var t := Step(s, users, Resolved([Attempt(v6, Unreachable), Attempt(w6, InProgress)]));
            var e := Writable(Client, R.Sent(10), true, NoError, false);
            && Enabled(t, e) && t.current == Some(OriginConnect)
            && var u := Step(t, users, e);
               u.status == Alive && u.current == Some(RequestWrite) && u.request.reply == Q.SUCCEEDED
                 && HasWrite(u.io.oi)
  {
    var a, b := Attempt(v6, Unreachable), Attempt(w6, InProgress);
    var r := s.(resolving := false);
    assert [a, b][1..] == [b];
    assert TryAddresses(r, [a, b]) == TryAddresses(FirstAttempt(r, a).0, [b]) == FirstAttempt(FirstAttempt(r, a).0, b);
  }

  /**
   * What such a session comes to is decided by the next descriptor dispatched: its
   * invariant is restored exactly when that is the origin's, or when getsockopt
   * fails, which closes it.
   */
  lemma SecondAddressRecoversIff(s: Session, users: seq<User>, v6: bool, w6: bool, e: Event)
    requires Inv(s, users) && s.status == Alive && s.resolving
    requires Enabled(Step(s, users, Resolved([Attempt(v6, Unreachable), Attempt(w6, InProgress)])), e)
    ensures var t := Step(s, users, Resolved([Attempt(v6, Unreachable), Attempt(w6, InProgress)]));
            && !Inv(t, users) && e.Writable?
            && (Inv(Step(t, users, e), users) <==> e.side == Origin || e.soError == NoAnswer)
  {
    var t := TwoWait(s, users, v6, w6);
    TwoWaitersRecoverIff(t, users, e);
  }

  /** After two such addresses both descriptors wait to be written. */
  lemma TwoWait(s: Session, users: seq<User>, v6: bool, w6: bool) returns (t: Session)
    requires Inv(s, users) && s.status == Alive && s.resolving
    ensures t == Step(s, users, Resolved([Attempt(v6, Unreachable), Attempt(w6, InProgress)]))
    ensures t.status == Alive && t.current == Some(OriginConnect) && !t.resolving && t.sock == Registered
    ensures t.io.ci == OP_WRITE && t.io.oi == OP_WRITE && BuffersOk(t) && t.tracker == P.IDLE && Authorised(t, users)
    ensures t.io.wb.content == [] && t.replySent == [] && t.fills == 0
  {
    var a, b := Attempt(v6, Unreachable), Attempt(w6, InProgress);
    var r := s.(resolving := false);
    assert [a, b][1..] == [b];
    assert TryAddresses(r, [a, b]) == TryAddresses(FirstAttempt(r, a).0, [b]) == FirstAttempt(FirstAttempt(r, a).0, b);
    t := Step(s, users, Resolved([a, b]));
  }

  lemma TwoWaitersRecoverIff(t: Session, users: seq<User>, e: Event)
    requires t.status == Alive && t.current == Some(OriginConnect) && !t.resolving && t.sock == Registered
    requires t.io.ci == OP_WRITE && t.io.oi == OP_WRITE && BuffersOk(t) && t.tracker == P.IDLE && Authorised(t, users)
    requires t.io.wb.content == [] && t.replySent == [] && t.fills == 0 && Enabled(t, e)
    ensures !Inv(t, users) && e.Writable?
    ensures Inv(Step(t, users, e), users) <==> e.side == Origin || e.soError == NoAnswer
  {
    if e.side == Origin {
      OriginFirst(t, users, e.soError);
    } else {
      ClientFirst(t, users, e.soError);
    }
  }

  lemma OriginFirst(t: Session, users: seq<User>, soError: SoError)
    requires t.status == Alive && t.current == Some(OriginConnect) && !t.resolving && t.sock == Registered
    requires BuffersOk(t) && t.tracker == P.IDLE && Authorised(t, users)
    requires t.io.wb.content == [] && t.replySent == [] && t.fills == 0
    ensures var (s1, ret) := VerifyStep(t, Origin, soError); Inv(Finish(s1, ret, InProgress), users)
  {
    assert Repeat(Q.ReplyMessage(ErrorReply(soError)), 0) == [];
  }

  lemma ClientFirst(t: Session, users: seq<User>, soError: SoError)
    requires t.status == Alive && t.current == Some(OriginConnect) && t.sock == Registered && t.io.oi == OP_WRITE
    ensures var (s1, ret) := VerifyStep(t, Client, soError);
            Inv(Finish(s1, ret, InProgress), users) <==> soError == NoAnswer
  {
  }
}
