/**
 * One proxied connection as a state machine (src/stm.c, src/socksv5_stm.c and
 * the per-state handlers of src/greeting_stm.c, src/auth_stm.c,
 * src/request_stm.c, src/origin_connect_stm.c and src/copy_stm.c). A session is
 * a value here; the structures updated in place are in Handlers.
 */
module Sessions {
  import opened Base
  import opened Buffers
  import opened Interests
  import opened Parameters
  import opened Pop3Sniffers
  import opened Relays
  import G = GreetingParsers
  import A = AuthParsers
  import Q = RequestParsers

  /** MAX_BUFF_SIZE. */
  const BUFFER_SIZE := 5000

  const AUTH_SUCCESS: byte := 0
  const AUTH_FAIL: byte := 1

  datatype St =
    | GreetingRead | GreetingWrite | AuthRead | AuthWrite | RequestRead
    | RequestWrite | OriginConnect | Copy | Done | Error

  /** The origin descriptor: none, open but unknown to the selector, or registered. */
  datatype Sock = NoSocket | Loose | Registered

  /** `Aborted` is any end of the whole process: abort(), SIGPIPE, a write through null, a write past an array. */
  datatype Status = Alive | Closed | Aborted

  /**
   * `io` holds the two buffers, the two interests and the relay's flags. The
   * last five fields are histories: a resolver thread or its notification is
   * outstanding; SO_ERROR was seen 0; what the client had sent beyond its
   * request when COPY began; reply bytes sent; replies put in the buffer.
   */
  datatype Session = Session(
    status: Status, current: Option<St>, io: Relay, sock: Sock,
    greeting: G.Greeting, selected: int,
    auth: A.Auth, authReply: byte, user: Option<(seq<byte>, seq<byte>)>,
    request: Q.Request, tracker: Tracker,
    resolving: bool, verified: bool, early: seq<byte>, replySent: seq<byte>, fills: nat)
  {
    function SetRb(b: Buf): Session { this.(io := io.(rb := b)) }

    function SetWb(b: Buf): Session { this.(io := io.(wb := b)) }

    function SetInterest(side: Side, i: Interest): Session { this.(io := io.SetInterest(side, i)) }

    function SetReply(code: byte): Session { this.(request := request.(reply := code)) }
  }

  /** new_socksv5, registered for reading by the accept. */
  const NEW_SESSION := Session(
    Alive, None,
    Relay(EmptyBuf(BUFFER_SIZE), EmptyBuf(BUFFER_SIZE), ALL_CLOSED, OP_READ, OP_NOOP, NO_TRAFFIC), NoSocket,
    G.START, 0, A.START, 0, None, Q.START, IDLE, false, false, [], [], 0)

  // ---------------------------------------------------------------------
  // The table

  predicate OnRead(st: St) {
    st == GreetingRead || st == AuthRead || st == RequestRead || st == Copy
  }

  predicate OnWrite(st: St) {
    st == GreetingWrite || st == AuthWrite || st == RequestWrite || st == OriginConnect || st == Copy
  }

  /** The states whose write handler calls send. */
  predicate Sends(st: St) {
    OnWrite(st) && st != OriginConnect
  }

  predicate OnBlock(st: St) {
    st == OriginConnect
  }

  /** The order in which a session goes through the states; not the order of the enumeration. */
  function Rank(st: St): nat {
    match st
    case GreetingRead => 0
    case GreetingWrite => 1
    case AuthRead => 2
    case AuthWrite => 3
    case RequestRead => 4
    case OriginConnect => 5
    case RequestWrite => 6
    case Copy => 7
    case Done => 8
    case Error => 8
  }

  // ---------------------------------------------------------------------
  // What the environment answers

  datatype Conn = InProgress | Connected | Unreachable

  /** One resolved address and the outcome of connecting to it. */
  datatype Attempt = Attempt(v6: bool, outcome: Conn)

  /** SO_ERROR of the pending connect; `NoAnswer` when getsockopt itself fails. */
  datatype SoError = NoError | ConnRefused | NetUnreach | HostUnreach | OtherError | NoAnswer

  datatype Event =
    | Readable(side: Side, recv: Recv, shutOk: bool, conn: Conn, sniffing: bool)
    | Writable(side: Side, send: Send, shutOk: bool, soError: SoError, sniffing: bool)
    | Resolved(attempts: seq<Attempt>)

  // ---------------------------------------------------------------------
  // Greeting

  function SelectMethod(methods: seq<byte>): byte {
    if G.USERNAME_PASSWORD_AUTH in methods then G.USERNAME_PASSWORD_AUTH
    else if G.NO_AUTHENTICATION_REQUIRED in methods then G.NO_AUTHENTICATION_REQUIRED
    else G.NO_ACCEPTABLE_METHODS
  }

  function GreetingReadStep(s: Session, recv: Recv): (Session, St) {
    if !recv.Data? then (s, Error)
    else
      var (g, rb) := G.ParseBuf(s.greeting, s.io.rb.Append(recv.bytes));
      GreetingConsumed(s.SetRb(rb).(greeting := g))
  }

  /** After the received bytes were fed to the parser: an answer, also to a bad greeting. */
  function GreetingConsumed(s: Session): (Session, St) {
    if !G.Stops(s.greeting) then (s, GreetingRead)
    else
      var m := SelectMethod(s.greeting.methods);
      var s1 := s.(selected := m).SetInterest(Client, OP_WRITE);
      if s1.io.wb.Room() < 2 then (s1, Error) else (s1.SetWb(s1.io.wb.Append([G.VERSION, m])), GreetingWrite)
  }

  /** A send that took nothing, or failed. */
  predicate SendFailed(b: Buf, send: Send) {
    !send.Sent? || send.n == 0 || send.n > |b.content|
  }

  function GreetingWriteStep(s: Session, send: Send): (Session, St) {
    if SendFailed(s.io.wb, send) then (s, Error)
    else
      var s1 := s.SetWb(s.io.wb.Advance(send.n));
      if s1.io.wb.content != [] then (s1, GreetingWrite)
      else
        (s1.SetInterest(Client, OP_READ),
         if s1.selected == G.NO_AUTHENTICATION_REQUIRED then RequestRead
         else if s1.selected == G.USERNAME_PASSWORD_AUTH then AuthRead
         else Error)
  }

  // ---------------------------------------------------------------------
  // Authentication

  function AuthReadStep(s: Session, users: seq<User>, recv: Recv): (Session, St) {
    if !recv.Data? then (s, Error)
    else
      var (a, rb) := A.ParseBuf(s.auth, s.io.rb.Append(recv.bytes));
      AuthConsumed(s.SetRb(rb).(auth := a), users)
  }

  /** After the received bytes were fed to the parser. */
  function AuthConsumed(s: Session, users: seq<User>): (Session, St) {
    var a := s.auth;
    if !A.Stops(a) then (s, AuthRead)
    else
      var s1 := if a.state.Done? then
                  if Accepted(users, a.user, a.pass) then s.(authReply := AUTH_SUCCESS, user := Some((a.user, a.pass)))
                  else s.(authReply := AUTH_FAIL)
                else s;
      var s2 := s1.SetInterest(Client, OP_WRITE);
      if s2.io.wb.Room() < 2 then (s2.(status := Aborted), Error)
      else (s2.SetWb(s2.io.wb.Append([A.VERSION, s2.authReply])), AuthWrite)
  }

  function AuthWriteStep(s: Session, send: Send): (Session, St) {
    if SendFailed(s.io.wb, send) then (s, Error)
    else
      var s1 := s.SetWb(s.io.wb.Advance(send.n));
      if s1.io.wb.content != [] then (s1, AuthWrite)
      else (s1.SetInterest(Client, OP_READ), if s1.authReply == AUTH_SUCCESS then RequestRead else Done)
  }

  // ---------------------------------------------------------------------
  // Request and reply

  function RequestReadStep(s: Session, recv: Recv): (Session, St) {
    if !recv.Data? then (s, Error)
    else
      var (q, rb) := Q.ParseBuf(s.request, s.io.rb.Append(recv.bytes));
      RequestConsumed(s.SetRb(rb).(request := q))
  }

  /** After the received bytes were fed to the parser. */
  function RequestConsumed(s: Session): (Session, St) {
    match s.request.state
    case Faulted => (s.(status := Aborted), Error)
    case Done => (s.SetInterest(Client, OP_NOOP), OriginConnect)
    case Error => (s.SetInterest(Client, OP_WRITE), RequestWrite)
    case _ => (s, RequestRead)
  }

  /** Fills the buffer with the reply on every call, without looking at the room left. */
  function RequestWriteStep(s: Session, side: Side, send: Send): (Session, St) {
    if s.io.wb.Room() < 10 then (s.(status := Aborted), Error)
    else
      var s1 := Refilled(s);
      if SendFailed(s1.io.wb, send) then (s1, Error) else ReplyAdvanced(CountedOut(s1, send.n), side)
  }

  /** request_fill_msg. */
  function Refilled(s: Session): Session {
    s.SetWb(s.io.wb.Append(Q.ReplyMessage(s.request.reply))).(fills := s.fills + 1)
  }

  function CountedOut(s: Session, n: nat): Session
    requires n <= |s.io.wb.content|
  {
    s.SetWb(s.io.wb.Advance(n)).(replySent := s.replySent + s.io.wb.content[..n])
  }

  /** After the bytes taken were counted out. */
  function ReplyAdvanced(s: Session, side: Side): (Session, St) {
    if s.io.wb.content != [] then (s, RequestWrite)
    else if s.request.reply != Q.SUCCEEDED then (s, Done)
    else
      var s1 := s.SetInterest(side, OP_READ);
      if s1.sock != Registered then (s1, Error) else (s1.SetInterest(Origin, OP_READ), Copy)
  }

  // ---------------------------------------------------------------------
  // Connecting to the origin

  /** socket and connect for one address; a socket opened before is forgotten. */
  function ConnectThroughIp(s: Session, conn: Conn): (Session, St) {
    match conn
    case InProgress => (s.(sock := Registered).SetInterest(Origin, OP_WRITE), OriginConnect)
    case Connected => (s.(sock := Loose).SetInterest(Origin, OP_NOOP), OriginConnect)
    case Unreachable =>
      (s.(sock := Loose).SetInterest(Origin, OP_NOOP).SetInterest(Client, OP_WRITE).SetReply(Q.HOST_UNREACHABLE),
       RequestWrite)
  }

  /** Starts a resolver thread and waits for nothing else. */
  function ConnectThroughFqdn(s: Session): (Session, St) {
    (s.(resolving := true).SetInterest(Client, OP_NOOP), OriginConnect)
  }

  /** connect_origin_init. */
  function ConnectArrival(s: Session, conn: Conn): (r: (Session, St))
    ensures r.1 == OriginConnect || r.1 == RequestWrite
  {
    if s.sock != NoSocket then (s, OriginConnect)
    else if s.request.atyp == Q.IPV4 || s.request.atyp == Q.IPV6 then ConnectThroughIp(s, conn)
    else ConnectThroughFqdn(s)
  }

  /** One resolved address: its family becomes the request's. */
  function FirstAttempt(s: Session, a: Attempt): (Session, St) {
    ConnectThroughIp(s.(request := s.request.(atyp := if a.v6 then Q.IPV6 else Q.IPV4)), a.outcome)
  }

  /** The loop of connect_origin_block over the addresses not tried yet. */
  function TryAddresses(s: Session, attempts: seq<Attempt>): (Session, St)
    decreases |attempts|
  {
    if attempts == [] then (s.SetInterest(Client, OP_WRITE).SetReply(Q.HOST_UNREACHABLE), RequestWrite)
    else
      var (s1, st) := FirstAttempt(s, attempts[0]);
      if st == OriginConnect then (s1, st) else TryAddresses(s1, attempts[1..])
  }

  /** connect_origin_block: no address at all is a failed resolution. */
  function ConnectBlockStep(s: Session, attempts: seq<Attempt>): (Session, St) {
    TryAddresses(s.(resolving := false), attempts)
  }

  function ErrorReply(e: SoError): byte {
    match e
    case NoError => Q.SUCCEEDED
    case ConnRefused => Q.CONNECTION_REFUSED
    case NetUnreach => Q.NETWORK_UNREACHABLE
    case HostUnreach => Q.HOST_UNREACHABLE
    case _ => Q.GENERAL_FAILURE
  }

  /** verify_connection, on whichever descriptor became writable. */
  function VerifyStep(s: Session, side: Side, soError: SoError): (Session, St) {
    if soError == NoAnswer then (s, Error)
    else
      (s.(verified := s.verified || soError == NoError).SetInterest(side, OP_NOOP).SetInterest(Client, OP_WRITE)
       .SetReply(ErrorReply(soError)), RequestWrite)
  }

  // ---------------------------------------------------------------------
  // Relaying

  function StateOf(next: Next): St {
    match next case Stay => Copy case Finished => Done case Failed => Error
  }

  /** The bytes the tracker is shown: the origin's descriptor only, in either direction. */
  function Watched(s: Session, e: Event): Option<seq<byte>> {
    if s.current != Some(Copy) || e.Resolved? || e.side != Origin || !e.sniffing then None
    else if e.Readable? then if e.recv.Data? then Some(e.recv.bytes) else None
    else if SendFailed(s.io.wb, e.send) then None
    else Some(s.io.wb.content[..e.send.n])
  }

  function CopyStep(s: Session, e: Event): (Session, St)
    requires !e.Resolved?
  {
    var (io, next) := if e.Readable? then CopyRead(s.io, e.side, e.recv, e.shutOk)
                      else CopyWrite(s.io, e.side, e.send, e.shutOk);
    var t := match Watched(s, e) case Some(bs) => SniffBytes(s.tracker, bs) case None => s.tracker;
    (s.(io := io, tracker := t), StateOf(next))
  }

  /** The tracker writes past one of its credential arrays on the way. */
  predicate Overruns(s: Session, e: Event) {
    Watched(s, e).Some? && SniffBytes(s.tracker, Watched(s, e).value).p.state.Overrun?
  }

  // ---------------------------------------------------------------------
  // The engine

  /** handle_first: the initial state is entered at the first event. */
  function First(s: Session): Session {
    if s.current.None? then s.(current := Some(GreetingRead), greeting := G.START, selected := -1) else s
  }

  /** The entry action of a state, and the state it asks for. */
  function Arrive(s: Session, st: St, conn: Conn): (r: (Session, St))
    ensures r.1 == st || Rank(r.1) > Rank(st)
    ensures r.0.current == s.current
  {
    match st
    case GreetingRead => (s.(greeting := G.START, selected := -1), st)
    case AuthRead => (s.(auth := A.START, authReply := AUTH_FAIL), st)
    case RequestRead => (s.(request := Q.START.(reply := s.request.reply)), st)
    case OriginConnect => ConnectArrival(s, conn)
    case Copy => (s.(io := s.io.(flags := ALL_OPEN, wire := NO_TRAFFIC), early := s.io.rb.content), st)
    case _ => (s, st)
  }

  /** Entering a state may redirect to another; each redirection climbs in rank. */
  function Jump(s: Session, next: St, conn: Conn): Session
    decreases 8 - Rank(next)
  {
    if s.current == Some(next) then s
    else
      var (s1, st) := Arrive(s.(current := Some(next)), next, conn);
      if st == next then s1 else Jump(s1, st, conn)
  }

  /** socksv5_done: unregistering a descriptor the selector does not know aborts the process. */
  function Teardown(s: Session): Session {
    s.(status := if s.sock == Loose then Aborted else Closed)
  }

  /** CopyStep, unless the tracker ends the process. */
  function CopyHandler(s: Session, e: Event): (Session, St)
    requires !e.Resolved?
  {
    var (t, ret) := CopyStep(s, e);
    if Overruns(s, e) then (t.(status := Aborted), Error) else (t, ret)
  }

  /** SIGPIPE inside send; request_write has put the reply in its buffer before. */
  function BrokenOff(s: Session, st: St): Session {
    (if st == RequestWrite && s.io.wb.Room() >= 10 then Refilled(s) else s).(status := Aborted)
  }

  function HandlerStep(s: Session, users: seq<User>, st: St, e: Event): (Session, St) {
    if e.Readable? then
      match st
      case GreetingRead => GreetingReadStep(s, e.recv)
      case AuthRead => AuthReadStep(s, users, e.recv)
      case RequestRead => RequestReadStep(s, e.recv)
      case Copy => CopyHandler(s, e)
      case _ => (s.(status := Aborted), Error)
    else if e.Writable? && e.send.Broken? && Sends(st) then (BrokenOff(s, st), Error)
    else if e.Writable? then
      match st
      case GreetingWrite => GreetingWriteStep(s, e.send)
      case AuthWrite => AuthWriteStep(s, e.send)
      case RequestWrite => RequestWriteStep(s, e.side, e.send)
      case OriginConnect => VerifyStep(s, e.side, e.soError)
      case Copy => CopyHandler(s, e)
      case _ => (s.(status := Aborted), Error)
    else if st == OriginConnect then ConnectBlockStep(s, e.attempts)
    else (s.(status := Aborted), Error)
  }

  /** What follows a handler that returned `ret`: the jump, then the teardown if that was an end. */
  function Finish(s: Session, ret: St, conn: Conn): Session {
    if s.status == Aborted then s
    else if ret == Done || ret == Error then Teardown(Jump(s, ret, conn))
    else Jump(s, ret, conn)
  }

  function ConnOf(e: Event): Conn {
    if e.Readable? then e.conn else InProgress
  }

  /** One dispatched event, from the callback to the teardown. */
  function Step(s: Session, users: seq<User>, e: Event): Session {
    if s.status != Alive then s
    else
      var s0 := First(s);
      var (s1, ret) := HandlerStep(s0, users, s0.current.value, e);
      Finish(s1, ret, ConnOf(e))
  }

  /** The buffer a read of `side` fills, and the one a write to it drains. */
  function RecvBuf(s: Session, side: Side): Buf {
    if s.current == Some(Copy) then s.io.From(side) else s.io.rb
  }

  function SendBuf(s: Session, side: Side): Buf {
    if s.current == Some(Copy) then s.io.To(side)
    else if s.current == Some(RequestWrite) then s.io.wb.Append(Q.ReplyMessage(s.request.reply))
    else s.io.wb
  }

  /** What the selector can dispatch, with an answer the kernel can give. */
  predicate Enabled(s: Session, e: Event) {
    && s.status == Alive
    && match e
       case Readable(side, recv, _, _, _) =>
         && (side == Origin ==> s.sock == Registered) && HasRead(s.io.Interest(side))
            && LegalRecv(RecvBuf(s, side), recv)
       case Writable(side, send, _, _, _) =>
         && (side == Origin ==> s.sock == Registered) && HasWrite(s.io.Interest(side))
         && (s.current != Some(OriginConnect) ==> LegalSend(SendBuf(s, side), send))
       case Resolved(_) => s.resolving
  }
}
