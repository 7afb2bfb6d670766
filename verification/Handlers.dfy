/**
 * The handlers as the source runs them: structures that share the session's
 * two buffers, change them in place and change interests in the selector.
 * `Shows(s, sel)` says that a structure and the selector hold the parts of the
 * session `s` that are theirs; every method takes a structure that shows `s` to
 * one that shows the session its step function yields.
 */
module Handlers {
  import opened Base
  import opened Buffers
  import opened Interests
  import opened Parameters
  import opened Pop3Sniffers
  import opened Relays
  import opened Sessions
  import opened Selectors
  import T = SelectorTables
  import G = GreetingParsers
  import A = AuthParsers
  import Q = RequestParsers

  /** The kernel stores bytes behind those a buffer holds, and they are counted in. */
  method Fill(b: Buffer, bs: seq<byte>)
    requires b.Valid() && |bs| <= b.view.Room()
    modifies b, b.data
    ensures b.Valid() && b.view == old(b.view).Append(bs)
  {
    b.Store(bs);
    b.WriteAdv(|bs|);
  }

  /** recv into the free part of a buffer. */
  method Receive(b: Buffer, recv: Recv) returns (n: int)
    requires b.Valid() && LegalRecv(b.view, recv)
    modifies b, b.data
    ensures b.Valid() && (n > 0 <==> recv.Data?) && (n == 0 <==> recv.Eof?)
    ensures b.view == if recv.Data? then old(b.view).Append(recv.bytes) else old(b.view)
  {
    match recv
    case Data(bs) =>
      Fill(b, bs);
      n := |bs|;
    case Eof => n := 0;
    case _ => n := -1;
  }

  /** What send returned for the unread part of a buffer. */
  function Taken(send: Send): int {
    if send.Sent? then send.n else -1
  }

  // ---------------------------------------------------------------------
  // src/greeting_stm.c

  class GreetingStm {
    const parser: G.GreetingParser
    const rb: Buffer
    const wb: Buffer
    var methodSelected: int

    constructor (rb: Buffer, wb: Buffer)
      requires rb.Valid() && wb.Valid() && rb != wb && rb.data != wb.data
      ensures Valid() && this.rb == rb && this.wb == wb && fresh(parser)
    {
      this.rb, this.wb := rb, wb;
      parser := new G.GreetingParser();
      methodSelected := -1;
    }

    ghost predicate Valid()
      reads rb, rb.data, wb, wb.data, parser, parser.methods
    {
      && rb != wb && rb.data != wb.data && parser.methods != rb.data && parser.methods != wb.data
      && rb.Valid() && wb.Valid() && parser.Valid()
    }

    ghost predicate Shows(s: Session, sel: Selector, fd: int)
      reads this`methodSelected, rb`view, wb`view, parser`view, sel`view
    {
      && s.io.rb == rb.view && s.io.wb == wb.view && s.greeting == parser.view && s.selected == methodSelected
      && fd in sel.view && sel.view[fd].interest == s.io.ci
    }

    /** greeting_init. */
    method Init(ghost s: Session, ghost sel: Selector, ghost fd: int)
      requires Valid() && Shows(s, sel, fd)
      modifies this`methodSelected, parser
      ensures Valid() && Shows(Arrive(s, GreetingRead, InProgress).0, sel, fd)
    {
      methodSelected := -1;
      parser.Init();
    }

    /** The scan stops at the password method; the last of the others that is acceptable is kept. */
    method SelectMethod() returns (r: byte)
      requires Valid() && G.Stops(parser.view)
      ensures r == Sessions.SelectMethod(parser.view.methods)
    {
      r := G.NO_ACCEPTABLE_METHODS;
      if parser.methods != null {
        ghost var ms := parser.view.methods;
        for i := 0 to parser.methodsRemaining
          invariant G.USERNAME_PASSWORD_AUTH !in ms[..i]
          invariant r == if G.NO_AUTHENTICATION_REQUIRED in ms[..i] then G.NO_AUTHENTICATION_REQUIRED
                         else G.NO_ACCEPTABLE_METHODS
        {
          assert ms[..i + 1] == ms[..i] + [parser.methods[i]];
          if parser.methods[i] == G.USERNAME_PASSWORD_AUTH {
            assert ms[i] in ms;
            return parser.methods[i];
          } else if parser.methods[i] == G.NO_AUTHENTICATION_REQUIRED {
            r := parser.methods[i];
          }
        }
        assert ms[..|ms|] == ms;
      }
    }

    method Read(sel: Selector, fd: int, recv: Recv, ghost s: Session) returns (ret: St)
      requires Valid() && sel.Ample() && Shows(s, sel, fd) && LegalRecv(rb.view, recv)
      modifies this`methodSelected, rb, rb.data, wb, wb.data, parser, parser.methods, sel
      ensures Valid() && sel.Ample() && sel.view.Keys == old(sel.view).Keys
      ensures forall f :: f in sel.view && f != fd ==> sel.view[f] == old(sel.view)[f]
      ensures var (t, r) := GreetingReadStep(s, recv); ret == r && Shows(t, sel, fd)
    {
      var n := Receive(rb, recv);
      if n <= 0 {
        return Error;
      }
      var st := parser.ConsumeBuffer(rb);
      ghost var (g, b) := G.ParseBuf(s.greeting, s.io.rb.Append(recv.bytes));
      ret := Consumed(sel, fd, st, s.SetRb(b).(greeting := g));
    }

    /** The rest of greeting_read, once the bytes were fed to the parser. */
    method Consumed(sel: Selector, fd: int, st: G.State, ghost s: Session) returns (ret: St)
      requires Valid() && sel.Ample() && Shows(s, sel, fd) && st == parser.view.state
      modifies this`methodSelected, wb, wb.data, sel
      ensures Valid() && sel.Ample() && sel.view.Keys == old(sel.view).Keys
      ensures forall f :: f in sel.view && f != fd ==> sel.view[f] == old(sel.view)[f]
      ensures var (t, r) := GreetingConsumed(s); ret == r && Shows(t, sel, fd)
    {
      ret := GreetingRead;
      if st.Done? || st.BadSyntax? || st.UnsupportedVersion? {
        var m := SelectMethod();
        methodSelected := m;
        ret := Answer(sel, fd, m, s.(selected := m));
      }
    }

    /** The selected method goes into the buffer, if there is room. */
    method Answer(sel: Selector, fd: int, m: byte, ghost s: Session) returns (ret: St)
      requires Valid() && sel.Ample() && Shows(s, sel, fd)
      modifies wb, wb.data, sel
      ensures Valid() && sel.Ample() && sel.view.Keys == old(sel.view).Keys
      ensures forall f :: f in sel.view && f != fd ==> sel.view[f] == old(sel.view)[f]
      ensures ret == if s.io.wb.Room() < 2 then Error else GreetingWrite
      ensures var t := s.SetInterest(Client, OP_WRITE);
              Shows(if t.io.wb.Room() < 2 then t else t.SetWb(t.io.wb.Append([G.VERSION, m])), sel, fd)
    {
      var status := sel.SetInterest(fd, OP_WRITE);
      var filled := G.FillMsg(wb, m);
      ret := if filled == -1 then Error else GreetingWrite;
    }

    method Write(sel: Selector, fd: int, send: Send, ghost s: Session) returns (ret: St)
      requires Valid() && sel.Ample() && Shows(s, sel, fd) && LegalSend(wb.view, send)
      modifies wb, wb.data, sel
      ensures Valid() && sel.Ample() && sel.view.Keys == old(sel.view).Keys
      ensures forall f :: f in sel.view && f != fd ==> sel.view[f] == old(sel.view)[f]
      ensures var (t, r) := GreetingWriteStep(s, send); ret == r && Shows(t, sel, fd)
    {
      if Taken(send) <= 0 {
        return Error;
      }
      wb.ReadAdv(Taken(send));
      ret := GreetingWrite;
      if !wb.CanRead() {
        var status := sel.SetInterest(fd, OP_READ);
        if methodSelected == G.NO_AUTHENTICATION_REQUIRED {
          ret := RequestRead;
        } else if methodSelected == G.USERNAME_PASSWORD_AUTH {
          ret := AuthRead;
        } else {
          ret := Error;
        }
      }
    }
  }

  // ---------------------------------------------------------------------
  // src/auth_stm.c

  lemma AuthParsed(s: Session, users: seq<User>, bs: seq<byte>) returns (t: Session)
    ensures var (a, b) := A.ParseBuf(s.auth, s.io.rb.Append(bs)); t == s.SetRb(b).(auth := a)
    ensures t == var s1 := s.SetRb(s.io.rb.Append(bs));
                 var (a, b) := A.ParseBuf(s1.auth, s1.io.rb); s1.SetRb(b).(auth := a)
    ensures AuthReadStep(s, users, Data(bs)) == AuthConsumed(t, users) && t.status == s.status
  {
    var (a, b) := A.ParseBuf(s.auth, s.io.rb.Append(bs));
    t := s.SetRb(b).(auth := a);
  }

  /** A parsed pair was looked up. */
  ghost function Judged(s: Session, users: seq<User>): Session {
    var a := s.auth;
    if !a.state.Done? then s
    else if Accepted(users, a.user, a.pass) then s.(authReply := AUTH_SUCCESS, user := Some((a.user, a.pass)))
    else s.(authReply := AUTH_FAIL)
  }

  lemma JudgedIsConsumed(s: Session, users: seq<User>, c: Session)
    requires A.Stops(s.auth) && s.status == Alive && c == Judged(s, users)
    ensures var t := c.SetInterest(Client, OP_WRITE);
            AuthConsumed(s, users)
            == if s.io.wb.Room() < 2 then (t.(status := Aborted), Error)
               else (t.SetWb(s.io.wb.Append([A.VERSION, c.authReply])), AuthWrite)
    ensures c.status == Alive && c.io == s.io
  {
  }

  class AuthStm {
    const parser: A.AuthParser
    const rb: Buffer
    const wb: Buffer
    var reply: byte
    var connectedUser: Option<(seq<byte>, seq<byte>)>

    constructor (rb: Buffer, wb: Buffer)
      requires rb.Valid() && wb.Valid() && rb != wb && rb.data != wb.data
      ensures Valid() && this.rb == rb && this.wb == wb && fresh(parser)
    {
      this.rb, this.wb := rb, wb;
      parser := new A.AuthParser();
      reply, connectedUser := 0, None;
    }

    ghost predicate Valid()
      reads rb, rb.data, wb, wb.data, parser, parser.user, parser.password
    {
      && rb != wb && rb.data != wb.data
      && parser.user != rb.data && parser.user != wb.data && parser.password != rb.data && parser.password != wb.data
      && rb.Valid() && wb.Valid() && parser.Valid()
    }

    ghost predicate Shows(s: Session, sel: Selector, fd: int)
      reads this`reply, this`connectedUser, rb`view, wb`view, parser`view, sel`view
    {
      && s.io.rb == rb.view && s.io.wb == wb.view && s.auth == parser.view
      && s.authReply == reply && s.user == connectedUser
      && fd in sel.view && sel.view[fd].interest == s.io.ci
    }

    /** auth_init. */
    method Init(ghost s: Session, ghost sel: Selector, ghost fd: int)
      requires Valid() && Shows(s, sel, fd)
      modifies this`reply, parser
      ensures Valid() && Shows(Arrive(s, AuthRead, InProgress).0, sel, fd)
    {
      parser.Init();
      reply := AUTH_FAIL;
    }

    method Read(sel: Selector, fd: int, params: Params, recv: Recv, ghost s: Session)
        returns (ret: St, aborted: bool)
      requires Valid() && sel.Ample() && params.Valid() && Shows(s, sel, fd) && LegalRecv(rb.view, recv)
      requires s.status == Alive
      modifies this`reply, this`connectedUser, rb, rb.data, wb, wb.data, parser, parser.user, parser.password, sel
      ensures Valid() && sel.Ample() && sel.view.Keys == old(sel.view).Keys
      ensures forall f :: f in sel.view && f != fd ==> sel.view[f] == old(sel.view)[f]
      ensures var (t, r) := AuthReadStep(s, old(params.Table()), recv);
              ret == r && Shows(t, sel, fd) && t.status == if aborted then Aborted else Alive
    {
      ghost var users := params.Table();
      var n := Receive(rb, recv);
      if n <= 0 {
        return Error, false;
      }
      var st := ParseReceived(s.SetRb(rb.view), sel, fd);
      assert params.Table() == users;
      ghost var s1 := AuthParsed(s, users, recv.bytes);
      ret, aborted := Consumed(sel, fd, params, st, s1);
    }

    method ParseReceived(ghost s: Session, ghost sel: Selector, ghost fd: int) returns (st: A.State)
      requires Valid() && Shows(s, sel, fd)
      modifies rb, rb.data, parser, parser.user, parser.password
      ensures Valid() && st == parser.view.state && wb.view == old(wb.view)
      ensures var (a, b) := A.ParseBuf(s.auth, s.io.rb); Shows(s.SetRb(b).(auth := a), sel, fd)
    {
      st := parser.ConsumeBuffer(rb);
    }

    /** The rest of auth_read, once the bytes were fed to the parser. */
    method Consumed(sel: Selector, fd: int, params: Params, st: A.State, ghost s: Session)
        returns (ret: St, aborted: bool)
      requires Valid() && sel.Ample() && params.Valid() && Shows(s, sel, fd) && st == parser.view.state
      requires s.status == Alive
      modifies this`reply, this`connectedUser, wb, wb.data, sel
      ensures Valid() && sel.Ample() && sel.view.Keys == old(sel.view).Keys
      ensures forall f :: f in sel.view && f != fd ==> sel.view[f] == old(sel.view)[f]
      ensures var (t, r) := AuthConsumed(s, old(params.Table()));
              ret == r && Shows(t, sel, fd) && t.status == if aborted then Aborted else Alive
    {
      ret, aborted := AuthRead, false;
      if st.Done? || st.BadSyntax? || st.UnsupportedVersion? || st.BadLength? {
        ghost var c := Judge(params, st, s, sel, fd);
        JudgedIsConsumed(s, old(params.Table()), c);
        var ok := Answer(sel, fd, c);
        ret, aborted := if ok then AuthWrite else Error, !ok;
      }
    }

    /** A pair that was parsed is looked up. */
    method Judge(params: Params, st: A.State, ghost s: Session, ghost sel: Selector, ghost fd: int)
        returns (ghost c: Session)
      requires Valid() && params.Valid() && Shows(s, sel, fd) && st == parser.view.state
      modifies this`reply, this`connectedUser
      ensures Shows(c, sel, fd)
      ensures c == Judged(s, params.Table())
    {
      c := s;
      if st.Done? {
        Authenticate(params);
        c := s.(authReply := reply, user := connectedUser);
      }
    }

    /** The outcome goes into the buffer, without looking at the room left. */
    method Answer(sel: Selector, fd: int, ghost s: Session) returns (ok: bool)
      requires Valid() && sel.Ample() && Shows(s, sel, fd)
      modifies wb, wb.data, sel
      ensures Valid() && sel.Ample() && sel.view.Keys == old(sel.view).Keys
      ensures forall f :: f in sel.view && f != fd ==> sel.view[f] == old(sel.view)[f]
      ensures ok <==> s.io.wb.Room() >= 2
      ensures var t := s.SetInterest(Client, OP_WRITE);
              Shows(if ok then t.SetWb(s.io.wb.Append([A.VERSION, s.authReply])) else t, sel, fd)
    {
      var status := sel.SetInterest(fd, OP_WRITE);
      ok := A.FillMsg(wb, reply);
    }

    /** Looks the pair up as the two C strings it was stored as. */
    method LookUp(params: Params) returns (ok: bool)
      requires Valid() && params.Valid() && parser.state.Done?
      ensures ok <==> Accepted(params.Table(), parser.view.user, parser.view.pass)
    {
      ghost var a := parser.view;
      assert parser.user[..] == a.user + [0] && parser.password[..] == a.pass + [0];
      TerminatorIsNotSeen(a.user);
      TerminatorIsNotSeen(a.pass);
      ok := params.AuthenticateUser(parser.user[..], parser.password[..]);
    }

    method Authenticate(params: Params)
      requires Valid() && params.Valid() && parser.state.Done?
      modifies this`reply, this`connectedUser
      ensures var a := parser.view;
              if Accepted(params.Table(), a.user, a.pass) then
                reply == AUTH_SUCCESS && connectedUser == Some((a.user, a.pass))
              else reply == AUTH_FAIL && connectedUser == old(connectedUser)
    {
      var ok := LookUp(params);
      if ok {
        reply := AUTH_SUCCESS;
        connectedUser := Some((parser.user[..parser.user.Length - 1], parser.password[..parser.password.Length - 1]));
      } else {
        reply := AUTH_FAIL;
      }
    }

    method Write(sel: Selector, fd: int, send: Send, ghost s: Session) returns (ret: St)
      requires Valid() && sel.Ample() && Shows(s, sel, fd) && LegalSend(wb.view, send)
      modifies wb, wb.data, sel
      ensures Valid() && sel.Ample() && sel.view.Keys == old(sel.view).Keys
      ensures forall f :: f in sel.view && f != fd ==> sel.view[f] == old(sel.view)[f]
      ensures var (t, r) := AuthWriteStep(s, send); ret == r && Shows(t, sel, fd)
    {
      if Taken(send) <= 0 {
        return Error;
      }
      wb.ReadAdv(Taken(send));
      ret := AuthWrite;
      if !wb.CanRead() {
        var status := sel.SetInterest(fd, OP_READ);
        ret := if reply == AUTH_SUCCESS then RequestRead else Done;
      }
    }
  }

  // ---------------------------------------------------------------------
  // src/request_stm.c and src/origin_connect_stm.c

  lemma NextAddress(s: Session, attempts: seq<Attempt>, i: nat)
    requires i < |attempts|
    ensures var (s1, st) := FirstAttempt(s, attempts[i]);
            TryAddresses(s, attempts[i..])
            == if st == OriginConnect then (s1, st) else TryAddresses(s1, attempts[i + 1..])
  {
  }

  /** request_write aborts for lack of room alone. */
  lemma ReplyStepStatus(s: Session, side: Side, send: Send)
    ensures RequestWriteStep(s, side, send).0.status == if s.io.wb.Room() < 10 then Aborted else s.status
  {
  }

  class RequestStm {
    const parser: Q.RequestParser
    const rb: Buffer
    const wb: Buffer
    const clientFd: int
    var originFd: int

    constructor (rb: Buffer, wb: Buffer, clientFd: int)
      requires rb.Valid() && wb.Valid() && rb != wb && rb.data != wb.data && clientFd >= 0
      ensures Valid() && this.rb == rb && this.wb == wb && this.clientFd == clientFd && originFd == -1 && fresh(parser)
    {
      this.rb, this.wb, this.clientFd, originFd := rb, wb, clientFd, -1;
      parser := new Q.RequestParser();
    }

    ghost predicate Valid()
      reads this`originFd, rb, rb.data, wb, wb.data, parser, parser.addr
    {
      && rb != wb && rb.data != wb.data && parser.addr != rb.data && parser.addr != wb.data
      && rb.Valid() && wb.Valid() && parser.Valid() && originFd >= -1 && originFd != clientFd
    }

    /** What the origin descriptor is, in the selector's eyes. */
    ghost function SockIn(sel: Selector): Sock
      reads this`originFd, sel`view
    {
      if originFd == -1 then NoSocket else if originFd in sel.view then Registered else Loose
    }

    ghost predicate Shows(s: Session, sel: Selector)
      reads this`originFd, rb`view, wb`view, parser`view, sel`view
    {
      && s.io.rb == rb.view && s.io.wb == wb.view && s.request == parser.view
      && clientFd in sel.view && sel.view[clientFd].interest == s.io.ci
      && s.sock == SockIn(sel)
      && s.io.oi == if s.sock == Registered then sel.view[originFd].interest else OP_NOOP
    }

    /** A descriptor the kernel has just opened. */
    ghost predicate Opened(fd: int, known: T.Table) {
      T.ValidFd(fd) && fd !in known && fd != clientFd
    }

    ghost predicate OthersKept(before: T.Table, sel: Selector)
      reads this`originFd, sel`view
    {
      && (forall f :: f in before ==> f in sel.view)
      && (forall f :: f in before && f != clientFd && f != originFd ==> sel.view[f] == before[f])
    }

    ghost predicate OnlyClientChanged(before: T.Table, sel: Selector)
      reads sel`view
    {
      && (forall f :: f in sel.view <==> f in before)
      && (forall f :: f in before && f != clientFd ==> sel.view[f] == before[f])
    }

    /** selector_set_interest for the descriptor of `side`. */
    method SetInterestOf(sel: Selector, side: Side, i: Interest, ghost s: Session)
      requires Valid() && sel.Ample() && Shows(s, sel) && (side == Origin ==> s.sock == Registered)
      modifies sel`fds, sel`view, sel`masterR, sel`masterW
      ensures Valid() && sel.Ample() && Shows(s.SetInterest(side, i), sel)
      ensures sel.view.Keys == old(sel.view).Keys && OthersKept(old(sel.view), sel)
      ensures side == Client ==> OnlyClientChanged(old(sel.view), sel)
    {
      var status := sel.SetInterest(if side == Client then clientFd else originFd, i);
    }

    method SetReply(code: byte, ghost s: Session, ghost sel: Selector)
      requires Valid() && Shows(s, sel)
      modifies parser`reply, parser`view
      ensures Valid() && Shows(s.SetReply(code), sel)
    {
      parser.SetReply(code);
    }

    /** request_read_init; the reply is left as it was. */
    method ReadInit(ghost s: Session, ghost sel: Selector)
      requires Valid() && Shows(s, sel)
      modifies parser
      ensures Valid() && Shows(Arrive(s, RequestRead, InProgress).0, sel)
    {
      parser.Init();
    }

    method Read(sel: Selector, recv: Recv, ghost s: Session) returns (ret: St, aborted: bool)
      requires Valid() && sel.Ample() && Shows(s, sel) && LegalRecv(rb.view, recv) && s.status == Alive
      modifies rb, rb.data, parser, parser.addr, sel
      ensures Valid() && sel.Ample() && OthersKept(old(sel.view), sel)
      ensures var (t, r) := RequestReadStep(s, recv);
              ret == r && Shows(t, sel) && t.status == if aborted then Aborted else Alive
    {
      var n := Receive(rb, recv);
      if n <= 0 {
        return Error, false;
      }
      var st := parser.ConsumeBuffer(rb);
      ghost var (q, b) := Q.ParseBuf(s.request, s.io.rb.Append(recv.bytes));
      ret, aborted := Consumed(sel, st, s.SetRb(b).(request := q));
    }

    /** The rest of request_read, once the bytes were fed to the parser. */
    method Consumed(sel: Selector, st: Q.State, ghost s: Session) returns (ret: St, aborted: bool)
      requires Valid() && sel.Ample() && Shows(s, sel) && st == parser.view.state && s.status == Alive
      modifies sel
      ensures Valid() && sel.Ample() && OthersKept(old(sel.view), sel)
      ensures var (t, r) := RequestConsumed(s);
              ret == r && Shows(t, sel) && t.status == if aborted then Aborted else Alive
    {
      ret, aborted := RequestRead, false;
      if st.Faulted? {
        // the parser wrote through null
        ret, aborted := Error, true;
      } else if st.Done? {
        SetInterestOf(sel, Client, OP_NOOP, s);
        ret := OriginConnect;
      } else if st.Error? {
        SetInterestOf(sel, Client, OP_WRITE, s);
        ret := RequestWrite;
      }
    }

    /** request_write on the descriptor of `side`. */
    method Write(sel: Selector, side: Side, send: Send, ghost s: Session) returns (ret: St, aborted: bool)
      requires Valid() && sel.Ample() && Shows(s, sel) && s.status == Alive
      requires side == Origin ==> s.sock == Registered
      requires LegalSend(wb.view.Append(Q.ReplyMessage(parser.reply)), send)
      modifies wb, wb.data, sel
      ensures Valid() && sel.Ample() && OthersKept(old(sel.view), sel)
      ensures var (t, r) := RequestWriteStep(s, side, send);
              ret == r && Shows(t, sel) && t.status == if aborted then Aborted else Alive
    {
      ReplyStepStatus(s, side, send);
      var ok := PutReply(s, sel);
      ret, aborted := Error, !ok;
      if ok {
        ret := SendWaiting(sel, side, send, Refilled(s));
      }
    }

    /** request_write once the reply is in the buffer. */
    method SendWaiting(sel: Selector, side: Side, send: Send, ghost s: Session) returns (ret: St)
      requires Valid() && sel.Ample() && Shows(s, sel) && (side == Origin ==> s.sock == Registered)
      requires LegalSend(wb.view, send)
      modifies wb, wb.data, sel
      ensures Valid() && sel.Ample() && OthersKept(old(sel.view), sel)
      ensures var (t, r) := if SendFailed(s.io.wb, send) then (s, Error)
                            else ReplyAdvanced(CountedOut(s, send.n), side);
              ret == r && Shows(t, sel)
    {
      if Taken(send) <= 0 {
        return Error;
      }
      ret := SendReply(sel, side, send.n, s);
    }

    /** The reply goes into the buffer, without looking at the room left. */
    method PutReply(ghost s: Session, ghost sel: Selector) returns (ok: bool)
      requires Valid() && Shows(s, sel)
      modifies wb, wb.data
      ensures Valid() && (ok <==> s.io.wb.Room() >= 10) && Shows(if ok then Refilled(s) else s, sel)
    {
      ok := Q.FillMsg(wb, parser.reply);
    }

    /** request_write once send has taken `n` bytes. */
    method SendReply(sel: Selector, side: Side, n: nat, ghost s: Session) returns (ret: St)
      requires Valid() && sel.Ample() && Shows(s, sel) && (side == Origin ==> s.sock == Registered)
      requires n <= |wb.view.content|
      modifies wb, wb.data, sel
      ensures Valid() && sel.Ample() && OthersKept(old(sel.view), sel)
      ensures var (t, r) := ReplyAdvanced(CountedOut(s, n), side); ret == r && Shows(t, sel)
    {
      wb.ReadAdv(n);
      ret := ReplySent(sel, side, CountedOut(s, n));
    }

    /** The rest of request_write, once the buffer was advanced. */
    method ReplySent(sel: Selector, side: Side, ghost s: Session) returns (ret: St)
      requires Valid() && sel.Ample() && Shows(s, sel) && (side == Origin ==> s.sock == Registered)
      modifies sel`fds, sel`view, sel`masterR, sel`masterW
      ensures Valid() && sel.Ample() && OthersKept(old(sel.view), sel)
      ensures var (t, r) := ReplyAdvanced(s, side); ret == r && Shows(t, sel)
    {
      ret := RequestWrite;
      if !wb.CanRead() {
        ret := Done;
        if parser.reply == Q.SUCCEEDED {
          ret := EnterCopy(sel, side, s);
        }
      }
    }

    /** Both ends are to be read; an origin the selector does not know is an error. */
    method EnterCopy(sel: Selector, side: Side, ghost s: Session) returns (ret: St)
      requires Valid() && sel.Ample() && Shows(s, sel) && (side == Origin ==> s.sock == Registered)
      modifies sel`fds, sel`view, sel`masterR, sel`masterW
      ensures Valid() && sel.Ample() && OthersKept(old(sel.view), sel)
      ensures ret == if s.sock == Registered then Copy else Error
      ensures var t := s.SetInterest(side, OP_READ);
              Shows(if s.sock == Registered then t.SetInterest(Origin, OP_READ) else t, sel)
    {
      SetInterestOf(sel, side, OP_READ, s);
      ret := ReadOrigin(sel, s.SetInterest(side, OP_READ));
    }

    /** selector_set_interest for the origin's descriptor, which the selector may not know. */
    method ReadOrigin(sel: Selector, ghost s: Session) returns (ret: St)
      requires Valid() && sel.Ample() && Shows(s, sel)
      modifies sel`fds, sel`view, sel`masterR, sel`masterW
      ensures Valid() && sel.Ample() && OthersKept(old(sel.view), sel)
      ensures ret == if s.sock == Registered then Copy else Error
      ensures Shows(if s.sock == Registered then s.SetInterest(Origin, OP_READ) else s, sel)
    {
      var status := sel.SetInterest(originFd, OP_READ);
      ret := if status == T.Success then Copy else Error;
    }

    // -------------------------------------------------------------------
    // Connecting

    /** socket, then connect; `newFd` is the descriptor the kernel opens. */
    method ConnectThroughIp(sel: Selector, conn: Conn, newFd: int, ghost s: Session) returns (ret: St)
      requires Valid() && sel.Ample() && Shows(s, sel) && s.sock != Registered && Opened(newFd, sel.view)
      modifies this`originFd, parser, sel
      ensures Valid() && sel.Ample() && OthersKept(old(sel.view), sel)
      ensures originFd == newFd && (conn != InProgress ==> OnlyClientChanged(old(sel.view), sel))
      ensures var (t, r) := Sessions.ConnectThroughIp(s, conn); ret == r && Shows(t, sel)
    {
      originFd := newFd;
      match conn
      case InProgress =>
        AwaitConnect(sel, s);
        ret := OriginConnect;
      case Connected =>
        ret := OriginConnect;
      case Unreachable =>
        Refused(sel, s.(sock := Loose).SetInterest(Origin, OP_NOOP));
        ret := RequestWrite;
    }

    /** The connect is under way: its end is waited for. */
    method AwaitConnect(sel: Selector, ghost s: Session)
      requires Valid() && sel.Ample() && T.ValidFd(originFd) && originFd !in sel.view
      requires clientFd in sel.view && sel.view[clientFd].interest == s.io.ci
      requires s.io.rb == rb.view && s.io.wb == wb.view && s.request == parser.view
      modifies sel
      ensures Valid() && sel.Ample() && OthersKept(old(sel.view), sel)
      ensures Shows(s.(sock := Registered).SetInterest(Origin, OP_WRITE), sel)
    {
      var status := sel.Register(originFd, true, OP_WRITE, 0);
    }

    /** It failed at once. */
    method Refused(sel: Selector, ghost s: Session)
      requires Valid() && sel.Ample() && Shows(s, sel)
      modifies parser`reply, parser`view, sel`fds, sel`view, sel`masterR, sel`masterW
      ensures Valid() && sel.Ample() && OthersKept(old(sel.view), sel) && OnlyClientChanged(old(sel.view), sel)
      ensures Shows(s.SetInterest(Client, OP_WRITE).SetReply(Q.HOST_UNREACHABLE), sel)
    {
      SetReply(Q.HOST_UNREACHABLE, s, sel);
      SetInterestOf(sel, Client, OP_WRITE, s.SetReply(Q.HOST_UNREACHABLE));
    }

    /** connect_origin_init. */
    method ConnectInit(sel: Selector, conn: Conn, newFd: int, ghost s: Session) returns (ret: St, resolver: bool)
      requires Valid() && sel.Ample() && Shows(s, sel) && Opened(newFd, sel.view)
      modifies this`originFd, parser, sel
      ensures Valid() && sel.Ample() && OthersKept(old(sel.view), sel)
      ensures var (t, r) := ConnectArrival(s, conn);
              ret == r && Shows(t, sel) && t.resolving == (s.resolving || resolver)
    {
      ret, resolver := OriginConnect, false;
      if originFd < 0 {
        if parser.atyp == Q.IPV4 || parser.atyp == Q.IPV6 {
          ret := ConnectThroughIp(sel, conn, newFd, s);
        } else {
          // pthread_create
          resolver := true;
          SetInterestOf(sel, Client, OP_NOOP, s);
        }
      }
    }

    /** One turn of the loop below: the address type follows the address. */
    method TryAddress(sel: Selector, attempts: seq<Attempt>, i: nat, newFd: int, ghost s: Session)
        returns (ok: bool, ghost t: Session)
      requires Valid() && sel.Ample() && Shows(s, sel) && s.sock != Registered && Opened(newFd, sel.view)
      requires i < |attempts|
      modifies this`originFd, parser, sel
      ensures Valid() && sel.Ample() && Shows(t, sel)
      ensures if ok then OthersKept(old(sel.view), sel) else OnlyClientChanged(old(sel.view), sel) && t.sock == Loose
      ensures TryAddresses(s, attempts[i..]) == if ok then (t, OriginConnect) else TryAddresses(t, attempts[i + 1..])
    {
      NextAddress(s, attempts, i);
      parser.SetAtyp(if attempts[i].v6 then Q.IPV6 else Q.IPV4);
      var ret := ConnectThroughIp(sel, attempts[i].outcome, newFd, s.(request := parser.view));
      ok, t := ret == OriginConnect, FirstAttempt(s, attempts[i]).0;
    }

    /** connect_origin_block: the addresses in turn, until one is not refused at once. */
    method ConnectBlock(sel: Selector, attempts: seq<Attempt>, newFds: seq<int>, ghost s: Session) returns (ret: St)
      requires Valid() && sel.Ample() && Shows(s, sel) && s.sock == NoSocket
      requires |newFds| == |attempts| && AllOpened(newFds, sel.view)
      modifies this`originFd, parser, sel
      ensures Valid() && sel.Ample() && OthersKept(old(sel.view), sel)
      ensures var (t, r) := ConnectBlockStep(s, attempts); ret == r && Shows(t, sel)
    {
      var ok, t := TryAll(sel, attempts, newFds, s.(resolving := false));
      if ok {
        return OriginConnect;
      }
      ret := GiveUp(sel, t);
    }

    /** Descriptors the kernel opens one after the other, none of them known before. */
    ghost predicate AllOpened(newFds: seq<int>, known: T.Table) {
      forall i :: 0 <= i < |newFds| ==> Opened(newFds[i], known)
    }

    method TryAll(sel: Selector, attempts: seq<Attempt>, newFds: seq<int>, ghost s: Session)
        returns (ok: bool, ghost t: Session)
      requires Valid() && sel.Ample() && Shows(s, sel) && s.sock != Registered
      requires |newFds| == |attempts| && AllOpened(newFds, sel.view)
      modifies this`originFd, parser, sel
      ensures Valid() && sel.Ample() && Shows(t, sel)
      ensures if ok then OthersKept(old(sel.view), sel) else OnlyClientChanged(old(sel.view), sel)
      ensures TryAddresses(s, attempts) == if ok then (t, OriginConnect) else TryAddresses(t, [])
    {
      ok, t := false, s;
      var i := 0;
      while i < |attempts|
        invariant 0 <= i <= |attempts| && Valid() && sel.Ample() && Shows(t, sel) && t.sock != Registered
        invariant OnlyClientChanged(old(sel.view), sel)
        invariant TryAddresses(t, attempts[i..]) == TryAddresses(s, attempts)
      {
        assert Opened(newFds[i], old(sel.view));
        ok, t := TryAddress(sel, attempts, i, newFds[i], t);
        if ok {
          return;
        }
        i := i + 1;
      }
      assert attempts[i..] == [];
    }

    /** No address is left: the client is to be told. */
    method GiveUp(sel: Selector, ghost s: Session) returns (ret: St)
      requires Valid() && sel.Ample() && Shows(s, sel)
      modifies parser`reply, parser`view, sel`fds, sel`view, sel`masterR, sel`masterW
      ensures Valid() && sel.Ample() && OnlyClientChanged(old(sel.view), sel)
      ensures var (t, r) := TryAddresses(s, []); ret == r && Shows(t, sel)
    {
      SetInterestOf(sel, Client, OP_WRITE, s);
      SetReply(Q.HOST_UNREACHABLE, s.SetInterest(Client, OP_WRITE), sel);
      ret := RequestWrite;
    }

    /** verify_connection, called for the descriptor of `side`. */
    method VerifyConnection(sel: Selector, side: Side, soError: SoError, ghost s: Session) returns (ret: St)
      requires Valid() && sel.Ample() && Shows(s, sel) && (side == Origin ==> s.sock == Registered)
      modifies parser, sel
      ensures Valid() && sel.Ample() && OthersKept(old(sel.view), sel)
      ensures var (t, r) := VerifyStep(s, side, soError); ret == r && Shows(t, sel)
    {
      if soError == NoAnswer {
        return Error;
      }
      var code := CodeOf(soError);
      SetReply(code, s, sel);
      SetInterestOf(sel, side, OP_NOOP, s.SetReply(code));
      SetInterestOf(sel, Client, OP_WRITE, s.SetReply(code).SetInterest(side, OP_NOOP));
      ret := RequestWrite;
    }

    method CodeOf(soError: SoError) returns (code: byte)
      requires soError != NoAnswer
      ensures code == ErrorReply(soError)
    {
      code := Q.SUCCEEDED;
      if soError != NoError {
        if soError == ConnRefused {
          code := Q.CONNECTION_REFUSED;
        } else if soError == NetUnreach {
          code := Q.NETWORK_UNREACHABLE;
        } else if soError == HostUnreach {
          code := Q.HOST_UNREACHABLE;
        } else {
          code := Q.GENERAL_FAILURE;
        }
      }
    }
  }

  // ---------------------------------------------------------------------
  // src/copy_stm.c

  /** What copy_read does to the table after receiving bytes. */
  function AfterReceive(t: T.Table, fd: int, peer: int): T.Table {
    T.ApplyOp(T.ApplyOp(t, T.DropInterest(fd, OP_READ)), T.AddInterest(Narrow(peer), OP_WRITE))
  }

  /** So the peer is woken to drain them exactly when its descriptor fits eight bits. */
  lemma PeerWokenIffDescriptorIsShort(t: T.Table, fd: int, peer: int)
    requires fd in t && peer in t && fd != peer && peer >= 0 && !HasWrite(t[peer].interest)
    ensures peer in AfterReceive(t, fd, peer)
    ensures HasWrite(AfterReceive(t, fd, peer)[peer].interest) <==> peer <= 255
  {
  }

  /** What copy_read does to the table. */
  function AfterRead(t: T.Table, fd: int, peer: int, recv: Recv): T.Table {
    match recv
    case Data(_) => AfterReceive(t, fd, peer)
    case RecvError => t
    case _ => T.ApplyOp(t, T.DropInterest(fd, OP_READ))
  }

  /** What copy_write does to the table when send took something: it left nothing, the source is read again. */
  function AfterSend(t: T.Table, fd: int, peer: int, emptied: bool, again: bool): T.Table {
    var t1 := if emptied then T.ApplyOp(t, T.DropInterest(fd, OP_WRITE)) else t;
    if again then T.ApplyOp(t1, T.AddInterest(Narrow(peer), OP_READ)) else t1
  }

  /** The two descriptors wait for what the relay says. */
  ghost predicate Waits(t: T.Table, r: Relay, clientFd: int, originFd: int) {
    && clientFd in t && t[clientFd].interest == r.ci
    && originFd in t && t[originFd].interest == r.oi
  }

  ghost predicate OthersKept(before: T.Table, t: T.Table, clientFd: int, originFd: int) {
    t.Keys == before.Keys && forall f :: f in before && f != clientFd && f != originFd ==> t[f] == before[f]
  }

  /** When the other end's descriptor fits eight bits, the table is that of the relay's step. */
  lemma ReadIsRelayed(t: T.Table, r: Relay, side: Side, recv: Recv, shutOk: bool, clientFd: int, originFd: int)
    requires Waits(t, r, clientFd, originFd) && clientFd != originFd
    requires var peer := if side == Client then originFd else clientFd; Narrow(peer) == peer
    ensures var fd := if side == Client then clientFd else originFd;
            var peer := if side == Client then originFd else clientFd;
            var t1 := AfterRead(t, fd, peer, recv);
            Waits(t1, CopyRead(r, side, recv, shutOk).0, clientFd, originFd) && OthersKept(t, t1, clientFd, originFd)
  {
  }

  /** The `n` oldest bytes, where buffer_read_ptr points. */
  method Front(b: Buffer, n: nat) returns (bs: seq<byte>)
    requires b.Valid() && n <= |b.view.content|
    ensures bs == b.view.content[..n]
  {
    assert b.view.content == b.data[b.read..b.write];
    bs := b.data[b.read..b.read + n];
    assert |bs| == n && forall i :: 0 <= i < n ==> bs[i] == b.data[b.read + i] == b.view.content[i];
  }

  /** The relay after the first `n` bytes for `side` went out. */
  ghost function GoneOut(r: Relay, side: Side, n: nat): Relay
    requires n <= |r.To(side).content|
  {
    r.SetFrom(Other(side), r.To(side).Advance(n)).NoteSent(side, r.To(side).content[..n])
  }

  lemma GoneOutThenSent(r: Relay, side: Side, send: Send, shutOk: bool)
    requires LegalSend(r.To(side), send) && send.Sent? && send.n > 0
    ensures var t := GoneOut(r, side, send.n);
            && CopyWrite(r, side, send, shutOk) == BytesSent(t, side, shutOk)
            && t.Reading(Other(side)) == r.Reading(Other(side)) && t.ci == r.ci && t.oi == r.oi
            && (t.To(side).content == [] <==> send.n == |r.To(side).content|)
  {
  }

  /** What copy_write does to the table. */
  function AfterWrite(t: T.Table, fd: int, peer: int, r: Relay, side: Side, send: Send): T.Table {
    if SendFailed(r.To(side), send) then t
    else AfterSend(t, fd, peer, send.n == |r.To(side).content|, r.Reading(Other(side)))
  }

  lemma WriteIsRelayed(t: T.Table, r: Relay, side: Side, send: Send, shutOk: bool, clientFd: int, originFd: int)
    requires Waits(t, r, clientFd, originFd) && clientFd != originFd && LegalSend(r.To(side), send)
    requires var peer := if side == Client then originFd else clientFd; Narrow(peer) == peer
    ensures var fd := if side == Client then clientFd else originFd;
            var peer := if side == Client then originFd else clientFd;
            var t1 := AfterWrite(t, fd, peer, r, side, send);
            Waits(t1, CopyWrite(r, side, send, shutOk).0, clientFd, originFd) && OthersKept(t, t1, clientFd, originFd)
  {
    if send.Sent? && send.n > 0 {
      GoneOutThenSent(r, side, send, shutOk);
    }
  }

  lemma EndIsSeen(r: Relay, side: Side, recv: Recv, shutOk: bool)
    requires recv == Eof || recv == Reset
    ensures var r1 := r.SetInterest(side, Reduction(r.Interest(side), OP_READ)).NoteEnd(side);
            && CopyRead(r, side, recv, shutOk) == EndSeen(r1, side, shutOk) && r1.From(side) == r.From(side)
            && r1.rb == r.rb && r1.wb == r.wb && r1.flags == r.flags
  {
  }

  /** The relay after bytes of `side` came in. */
  ghost function ComeIn(r: Relay, side: Side, bs: seq<byte>): Relay {
    r.SetFrom(side, r.From(side).Append(bs)).NoteReceived(side, bs)
  }

  /** What that leaves of buffers and flags, interests apart. */
  lemma DataFlags(r: Relay, side: Side, bs: seq<byte>)
    ensures var (t, n) := CopyRead(r, side, Data(bs), true); var r1 := ComeIn(r, side, bs);
            t.rb == r1.rb && t.wb == r1.wb && t.flags == r1.flags && n == Check(r1).1
  {
  }

  /** What a send leaves of buffers and flags, interests apart. */
  lemma SentFlags(r: Relay, side: Side, shutOk: bool)
    ensures var (t, n) := BytesSent(r, side, shutOk);
            var c := r.StopWriting(side).NoteShutdown(side);
            && t.rb == r.rb && t.wb == r.wb
            && if r.Reading(Other(side)) || r.To(side).content != [] then t.flags == r.flags && n == Check(r).1
               else t.flags == c.flags && n == if shutOk then Check(c).1 else Failed
  {
  }

  class CopyStm {
    const rb: Buffer
    const wb: Buffer
    const sniffer: Pop3Sniffer
    const clientFd: int
    const originFd: int
    var readingClient: bool
    var writingClient: bool
    var readingOrigin: bool
    var writingOrigin: bool

    constructor (rb: Buffer, wb: Buffer, clientFd: int, originFd: int)
      requires rb.Valid() && wb.Valid() && rb != wb && rb.data != wb.data
      requires clientFd != originFd
      ensures Valid() && fresh(sniffer)
      ensures this.rb == rb && this.wb == wb && this.clientFd == clientFd && this.originFd == originFd
    {
      this.rb, this.wb, this.clientFd, this.originFd := rb, wb, clientFd, originFd;
      sniffer := new Pop3Sniffer();
      readingClient, writingClient, readingOrigin, writingOrigin := false, false, false, false;
    }

    ghost predicate Valid()
      reads rb, rb.data, wb, wb.data, sniffer, sniffer.buffer, sniffer.buffer.data, sniffer.user, sniffer.pass
    {
      && rb.Valid() && wb.Valid() && sniffer.Valid()
      && rb != wb && sniffer.buffer != rb && sniffer.buffer != wb
      && rb.data != wb.data && sniffer.buffer.data != rb.data && sniffer.buffer.data != wb.data
      && sniffer.user != rb.data && sniffer.user != wb.data && sniffer.pass != rb.data && sniffer.pass != wb.data
      && clientFd != originFd
    }

    ghost function Flagged(): Flags
      reads this`readingClient, this`writingClient, this`readingOrigin, this`writingOrigin
    {
      Flags(readingClient, writingClient, readingOrigin, writingOrigin)
    }

    /** Buffers and flags are the relay's; its histories are its own. */
    ghost predicate Carries(r: Relay)
      reads this`readingClient, this`writingClient, this`readingOrigin, this`writingOrigin, rb`view, wb`view
    {
      r.rb == rb.view && r.wb == wb.view && r.flags == Flagged()
    }

    ghost predicate Shows(r: Relay, sel: Selector)
      reads this`readingClient, this`writingClient, this`readingOrigin, this`writingOrigin, rb`view, wb`view, sel`view
    {
      Carries(r) && Waits(sel.view, r, clientFd, originFd)
    }

    function PeerOf(fd: int): int {
      if fd == clientFd then originFd else clientFd
    }

    ghost function SideOf(fd: int): Side {
      if fd == clientFd then Client else Origin
    }

    /** The other end's descriptor comes through the uint8_t unharmed. */
    predicate Fits(fd: int) {
      Narrow(PeerOf(fd)) == PeerOf(fd)
    }

    /** copy_init. */
    method Init(ghost r: Relay)
      requires Valid() && Carries(r)
      modifies this
      ensures Valid() && Carries(r.(flags := ALL_OPEN, wire := NO_TRAFFIC))
    {
      readingClient, writingClient, readingOrigin, writingOrigin := true, true, true, true;
    }

    /** check_close_connection. */
    method CheckCloseConnection(ghost r: Relay) returns (next: Next)
      requires Carries(r)
      ensures next == Check(r).1
    {
      next := if !readingClient && !readingOrigin && !writingOrigin && !writingClient then Finished else Stay;
    }

    /**
     * copy_read on descriptor `fd`: the tracker sees the origin's bytes before they
     * are counted in. When the other end's descriptor fits eight bits all is as the
     * relay's step says; otherwise the interest goes where the low bits point.
     */
    method Read(sel: Selector, fd: int, recv: Recv, shutOk: bool, sniffing: bool, ghost r: Relay)
        returns (next: Next, shut: Option<int>)
      requires Valid() && sel.Ample() && Shows(r, sel) && (fd == clientFd || fd == originFd)
      requires LegalRecv(r.From(SideOf(fd)), recv)
      modifies this, rb, rb.data, wb, wb.data, sel
      modifies sniffer, sniffer.buffer, sniffer.buffer.data, sniffer.user, sniffer.pass
      ensures Valid() && sel.Ample() && sel.view == AfterRead(old(sel.view), fd, PeerOf(fd), recv)
      ensures var (t, n) := CopyRead(r, SideOf(fd), recv, shutOk);
              && Carries(t) && next == (if recv.Data? && Narrow(PeerOf(fd)) !in old(sel.view) then Failed else n)
              && (Fits(fd) ==> Shows(t, sel) && next == n && OthersKept(old(sel.view), sel.view, clientFd, originFd))
      ensures shut == if (recv.Eof? || recv.Reset?) && r.From(SideOf(fd)).content == [] then Some(Narrow(PeerOf(fd)))
                      else None
      ensures sniffer.view == if recv.Data? && fd == originFd && sniffing then SniffBytes(old(sniffer.view), recv.bytes)
                              else old(sniffer.view)
    {
      ghost var before := sel.view;
      shut := None;
      match recv {
        case Data(bs) => next := DataRead(sel, fd, bs, sniffing, r);
        case RecvError => next := Failed;
        case _ => next, shut := EndRead(sel, fd, recv, shutOk, r);
      }
      if Fits(fd) {
        ReadIsRelayed(before, r, SideOf(fd), recv, shutOk, clientFd, originFd);
      }
    }

    method DataRead(sel: Selector, fd: int, bs: seq<byte>, sniffing: bool, ghost r: Relay) returns (next: Next)
      requires Valid() && sel.Ample() && Carries(r) && fd in sel.view && (fd == clientFd || fd == originFd)
      requires |bs| <= r.From(SideOf(fd)).Room()
      modifies rb, rb.data, wb, wb.data, sel`fds, sel`view, sel`masterR, sel`masterW
      modifies sniffer, sniffer.buffer, sniffer.buffer.data, sniffer.user, sniffer.pass
      ensures Valid() && sel.Ample() && sel.view == AfterReceive(old(sel.view), fd, PeerOf(fd))
      ensures var (t, n) := CopyRead(r, SideOf(fd), Data(bs), true);
              Carries(t) && next == if Narrow(PeerOf(fd)) in old(sel.view) then n else Failed
      ensures sniffer.view == if fd == originFd && sniffing then SniffBytes(old(sniffer.view), bs)
                              else old(sniffer.view)
    {
      ReceiveData(fd, bs, sniffing, r);
      next := Received(sel, fd, ComeIn(r, SideOf(fd), bs));
      DataFlags(r, SideOf(fd), bs);
    }

    /** An end of file, or the peer's reset. */
    method EndRead(sel: Selector, fd: int, ghost recv: Recv, shutOk: bool, ghost r: Relay)
        returns (next: Next, shut: Option<int>)
      requires Valid() && sel.Ample() && Carries(r) && fd in sel.view && (fd == clientFd || fd == originFd)
      requires recv == Eof || recv == Reset
      modifies this, sel`fds, sel`view, sel`masterR, sel`masterW
      ensures Valid() && sel.Ample() && sel.view == T.ApplyOp(old(sel.view), T.DropInterest(fd, OP_READ))
      ensures var (t, n) := CopyRead(r, SideOf(fd), recv, shutOk); Carries(t) && next == n
      ensures shut == if r.From(SideOf(fd)).content == [] then Some(Narrow(PeerOf(fd))) else None
    {
      ghost var side := SideOf(fd);
      EndIsSeen(r, side, recv, shutOk);
      var status := sel.SetInterestReduction(fd, OP_READ);
      next, shut := EndOfFile(fd, shutOk, r.SetInterest(side, Reduction(r.Interest(side), OP_READ)).NoteEnd(side));
    }

    /** recv into the buffer of the end's bytes, shown to the tracker on the way. */
    method ReceiveData(fd: int, bs: seq<byte>, sniffing: bool, ghost r: Relay)
      requires Valid() && Carries(r) && (fd == clientFd || fd == originFd)
      requires |bs| <= r.From(SideOf(fd)).Room()
      modifies rb, rb.data, wb, wb.data
      modifies sniffer, sniffer.buffer, sniffer.buffer.data, sniffer.user, sniffer.pass
      ensures Valid() && Carries(ComeIn(r, SideOf(fd), bs))
      ensures sniffer.view == if fd == originFd && sniffing then SniffBytes(old(sniffer.view), bs)
                              else old(sniffer.view)
    {
      Fill(if fd == clientFd then wb else rb, bs);
      Watch(fd, bs, sniffing);
    }

    /** The tracker is shown what passes over the origin's descriptor. */
    method Watch(fd: int, bs: seq<byte>, sniffing: bool)
      requires Valid()
      modifies sniffer, sniffer.buffer, sniffer.buffer.data, sniffer.user, sniffer.pass
      ensures Valid()
      ensures sniffer.view == if fd == originFd && sniffing then SniffBytes(old(sniffer.view), bs)
                              else old(sniffer.view)
    {
      if fd == originFd && sniffing {
        sniffer.Sniff(bs);
      }
    }

    /** The interests after bytes came in. */
    method Received(sel: Selector, fd: int, ghost r: Relay) returns (next: Next)
      requires Valid() && sel.Ample() && Carries(r) && fd in sel.view
      modifies sel`fds, sel`view, sel`masterR, sel`masterW
      ensures Valid() && sel.Ample() && Carries(r) && sel.view == AfterReceive(old(sel.view), fd, PeerOf(fd))
      ensures next == if Narrow(PeerOf(fd)) in old(sel.view) then Check(r).1 else Failed
    {
      var fdTarget := Narrow(PeerOf(fd));
      var status := sel.SetInterestReduction(fd, OP_READ);
      status := sel.SetInterestAdditive(fdTarget, OP_WRITE);
      if status != T.Success {
        return Failed;
      }
      next := CheckCloseConnection(r);
    }

    /** The flags, and the shutdown when nothing is left to deliver: `shut` is the descriptor it is issued on. */
    method EndOfFile(fd: int, shutOk: bool, ghost r: Relay) returns (next: Next, shut: Option<int>)
      requires Valid() && Carries(r) && (fd == clientFd || fd == originFd)
      modifies this
      ensures Valid()
      ensures var (t, n) := EndSeen(r, SideOf(fd), shutOk); next == n && Carries(t)
      ensures shut == if r.From(SideOf(fd)).content == [] then Some(Narrow(PeerOf(fd))) else None
    {
      shut := None;
      ghost var side := SideOf(fd);
      ghost var t := r.StopReading().StopWriting(side);
      StopReading(fd, r);
      var buff := if fd == clientFd then wb else rb;
      if !buff.CanRead() {
        shut := Some(Narrow(PeerOf(fd)));
        if !shutOk {
          return Failed, shut;
        }
        if fd == originFd {
          writingClient := false;
        } else {
          writingOrigin := false;
        }
        t := t.NoteShutdown(Other(side)).StopWriting(Other(side));
      }
      next := CheckCloseConnection(t);
    }

    /** No end is read any more, and the one that ended is not written to. */
    method StopReading(fd: int, ghost r: Relay)
      requires Valid() && Carries(r) && (fd == clientFd || fd == originFd)
      modifies this
      ensures Valid() && Carries(r.StopReading().StopWriting(SideOf(fd)))
    {
      if fd == originFd {
        readingOrigin, writingOrigin, readingClient := false, false, false;
      } else {
        readingClient, writingClient, readingOrigin := false, false, false;
      }
    }

    /** copy_write on descriptor `fd`: the tracker sees the bytes the origin took. Descriptors as in Read. */
    method Write(sel: Selector, fd: int, send: Send, shutOk: bool, sniffing: bool, ghost r: Relay)
        returns (next: Next, shut: Option<int>)
      requires Valid() && sel.Ample() && Shows(r, sel) && (fd == clientFd || fd == originFd)
      requires LegalSend(r.To(SideOf(fd)), send)
      modifies this, rb, rb.data, wb, wb.data, sel
      modifies sniffer, sniffer.buffer, sniffer.buffer.data, sniffer.user, sniffer.pass
      ensures Valid() && sel.Ample() && sel.view == AfterWrite(old(sel.view), fd, PeerOf(fd), r, SideOf(fd), send)
      ensures var (t, n) := CopyWrite(r, SideOf(fd), send, shutOk);
              && Carries(t) && next == (if Misses(r, fd, send, old(sel.view)) then Failed else n)
              && (Fits(fd) ==> Shows(t, sel) && next == n && OthersKept(old(sel.view), sel.view, clientFd, originFd))
      ensures shut == if !SendFailed(r.To(SideOf(fd)), send) && Closes(r, SideOf(fd), send.n) then Some(fd) else None
      ensures sniffer.view == if fd == originFd && sniffing && !SendFailed(r.wb, send)
                              then SniffBytes(old(sniffer.view), r.wb.content[..send.n]) else old(sniffer.view)
    {
      if Taken(send) <= 0 {
        return Failed, None;
      }
      ghost var before := sel.view;
      next, shut := Took(sel, fd, send, shutOk, sniffing, r);
      if Fits(fd) {
        WriteIsRelayed(before, r, SideOf(fd), send, shutOk, clientFd, originFd);
      }
    }

    /** send took something: the rest of copy_write. */
    method Took(sel: Selector, fd: int, send: Send, shutOk: bool, sniffing: bool, ghost r: Relay)
        returns (next: Next, shut: Option<int>)
      requires Valid() && sel.Ample() && Carries(r) && fd in sel.view && (fd == clientFd || fd == originFd)
      requires LegalSend(r.To(SideOf(fd)), send) && send.Sent? && send.n > 0
      modifies this, rb, rb.data, wb, wb.data, sel
      modifies sniffer, sniffer.buffer, sniffer.buffer.data, sniffer.user, sniffer.pass
      ensures Valid() && sel.Ample() && sel.view == AfterWrite(old(sel.view), fd, PeerOf(fd), r, SideOf(fd), send)
      ensures var (t, n) := CopyWrite(r, SideOf(fd), send, shutOk);
              Carries(t) && next == if Misses(r, fd, send, old(sel.view)) then Failed else n
      ensures shut == if Closes(r, SideOf(fd), send.n) then Some(fd) else None
      ensures sniffer.view == if fd == originFd && sniffing then SniffBytes(old(sniffer.view), r.wb.content[..send.n])
                              else old(sniffer.view)
    {
      GoneOutThenSent(r, SideOf(fd), send, shutOk);
      SendData(fd, send.n, sniffing, r);
      next, shut := BytesGone(sel, fd, shutOk, GoneOut(r, SideOf(fd), send.n));
    }

    /** The last byte goes out to `side`, and its source is closed. */
    ghost predicate Closes(r: Relay, side: Side, n: nat) {
      n == |r.To(side).content| && !r.Reading(Other(side))
    }

    /** The source is to be read again, and the low bits of its descriptor name none that is registered. */
    ghost predicate Misses(r: Relay, fd: int, send: Send, t: T.Table) {
      !SendFailed(r.To(SideOf(fd)), send) && r.Reading(Other(SideOf(fd))) && Narrow(PeerOf(fd)) !in t
    }

    /** Counts out what send took, shown to the tracker on the way. */
    method SendData(fd: int, n: nat, sniffing: bool, ghost r: Relay)
      requires Valid() && Carries(r) && (fd == clientFd || fd == originFd) && n <= |r.To(SideOf(fd)).content|
      modifies rb, rb.data, wb, wb.data
      modifies sniffer, sniffer.buffer, sniffer.buffer.data, sniffer.user, sniffer.pass
      ensures Valid() && Carries(GoneOut(r, SideOf(fd), n))
      ensures sniffer.view == if fd == originFd && sniffing then SniffBytes(old(sniffer.view), r.wb.content[..n])
                              else old(sniffer.view)
    {
      var buff := if fd == clientFd then rb else wb;
      var bs := Front(buff, n);
      Watch(fd, bs, sniffing);
      CountOut(fd, n, r);
    }

    method CountOut(fd: int, n: nat, ghost r: Relay)
      requires Valid() && Carries(r) && (fd == clientFd || fd == originFd) && n <= |r.To(SideOf(fd)).content|
      modifies rb, rb.data, wb, wb.data
      ensures Valid() && sniffer.view == old(sniffer.view) && Carries(GoneOut(r, SideOf(fd), n))
    {
      if fd == clientFd {
        rb.ReadAdv(n);
      } else {
        wb.ReadAdv(n);
      }
    }

    /** The interests and flags after bytes went out. */
    method BytesGone(sel: Selector, fd: int, shutOk: bool, ghost r: Relay) returns (next: Next, shut: Option<int>)
      requires Valid() && sel.Ample() && Carries(r) && fd in sel.view && (fd == clientFd || fd == originFd)
      modifies this, sel
      ensures Valid() && sel.Ample() && Carries(BytesSent(r, SideOf(fd), shutOk).0)
      ensures var side := SideOf(fd); var again := r.Reading(Other(side));
              && sel.view == AfterSend(old(sel.view), fd, PeerOf(fd), r.To(side).content == [], again)
              && next == (if again && Narrow(PeerOf(fd)) !in old(sel.view) then Failed
                          else BytesSent(r, side, shutOk).1)
              && shut == if r.To(side).content == [] && !again then Some(fd) else None
    {
      var buff := if fd == clientFd then rb else wb;
      shut := None;
      if !buff.CanRead() {
        next, shut := Emptied(sel, fd, shutOk, r);
      } else {
        next := ReadAgain(sel, fd, r);
        SentFlags(r, SideOf(fd), shutOk);
      }
    }

    /** All that waited for this end is gone. */
    method Emptied(sel: Selector, fd: int, shutOk: bool, ghost r: Relay) returns (next: Next, shut: Option<int>)
      requires Valid() && sel.Ample() && Carries(r) && fd in sel.view && (fd == clientFd || fd == originFd)
      requires r.To(SideOf(fd)).content == []
      modifies this, sel
      ensures Valid() && sel.Ample() && Carries(BytesSent(r, SideOf(fd), shutOk).0)
      ensures var side := SideOf(fd); var again := r.Reading(Other(side));
              && sel.view == AfterSend(old(sel.view), fd, PeerOf(fd), true, again)
              && next == (if again && Narrow(PeerOf(fd)) !in old(sel.view) then Failed
                          else BytesSent(r, side, shutOk).1)
              && shut == if again then None else Some(fd)
    {
      shut := None;
      var status := sel.SetInterestReduction(fd, OP_WRITE);
      SentFlags(r, SideOf(fd), shutOk);
      if (fd == clientFd && !readingOrigin) || (fd == originFd && !readingClient) {
        shut := Some(fd);
        next := CloseEnd(fd, shutOk, r);
      } else {
        next := ReadAgain(sel, fd, r);
      }
    }

    /** Nothing more can come for this end. */
    method CloseEnd(fd: int, shutOk: bool, ghost r: Relay) returns (next: Next)
      requires Valid() && Carries(r) && (fd == clientFd || fd == originFd)
      modifies this
      ensures Valid()
      ensures var t := r.StopWriting(SideOf(fd)).NoteShutdown(SideOf(fd));
              Carries(t) && next == if shutOk then Check(t).1 else Failed
    {
      if fd == clientFd {
        writingClient := false;
      } else {
        writingOrigin := false;
      }
      if !shutOk {
        return Failed;
      }
      next := CheckCloseConnection(r.StopWriting(SideOf(fd)).NoteShutdown(SideOf(fd)));
    }

    /** The source is read again while it is open. */
    method ReadAgain(sel: Selector, fd: int, ghost r: Relay) returns (next: Next)
      requires Valid() && sel.Ample() && Carries(r) && (fd == clientFd || fd == originFd)
      modifies sel`fds, sel`view, sel`masterR, sel`masterW
      ensures Valid() && sel.Ample()
      ensures var again := r.Reading(Other(SideOf(fd)));
              && sel.view == AfterSend(old(sel.view), fd, PeerOf(fd), false, again)
              && next == if again && Narrow(PeerOf(fd)) !in old(sel.view) then Failed else Check(r).1
    {
      var fdTarget := Narrow(PeerOf(fd));
      if (fd == clientFd && readingOrigin) || (fd == originFd && readingClient) {
        var status := sel.SetInterestAdditive(fdTarget, OP_READ);
        if status != T.Success {
          return Failed;
        }
      }
      next := CheckCloseConnection(r);
    }
  }
}
