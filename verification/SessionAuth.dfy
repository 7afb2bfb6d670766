/**
 * Authentication on its own: whatever the network, the resolver and the origin
 * answer, no event takes a session to its request without a method that needs
 * no authentication or a pair that the table of users accepts.
 */
module SessionAuth {
  import opened Base
  import opened Parameters
  import opened Sessions
  import opened SessionSafety
  import G = GreetingParsers
  import A = AuthParsers
  import Q = RequestParsers
  import R = Relays

  /** The password method was chosen, and rightly. */
  predicate PasswordChosen(s: Session) {
    s.selected == G.USERNAME_PASSWORD_AUTH == SelectMethod(s.greeting.methods)
  }

  /** What a session in state `st` has shown of itself. */
  predicate AuthAt(s: Session, users: seq<User>, st: St) {
    match st
    case GreetingRead => true
    case GreetingWrite => s.selected == SelectMethod(s.greeting.methods)
    case AuthRead => PasswordChosen(s) && s.authReply == AUTH_FAIL
    case AuthWrite => PasswordChosen(s) && (s.authReply == AUTH_SUCCESS ==> Accepted(users, s.auth.user, s.auth.pass))
    case Done => true
    case Error => true
    case _ => Authorised(s, users)
  }

  predicate AuthInv(s: Session, users: seq<User>) {
    s.status == Alive && s.current.Some? ==> AuthAt(s, users, s.current.value)
  }

  /** What is needed to enter `st`; the entry action does the rest. */
  predicate Entering(s: Session, users: seq<User>, st: St) {
    if st == AuthRead then PasswordChosen(s) else AuthAt(s, users, st)
  }

  predicate SameAuth(s: Session, t: Session) {
    t.greeting == s.greeting && t.selected == s.selected && t.auth == s.auth && t.authReply == s.authReply
  }

  lemma {:induction false} JumpKeepsAuth(s: Session, users: seq<User>, next: St, conn: Conn)
    requires if s.current == Some(next) then AuthAt(s, users, next) else Entering(s, users, next)
    ensures var t := Jump(s, next, conn); t.current.Some? && AuthAt(t, users, t.current.value)
    decreases 8 - Rank(next)
  {
    if s.current != Some(next) {
      var (s1, st) := Arrive(s.(current := Some(next)), next, conn);
      if st != next {
        JumpKeepsAuth(s1, users, st, conn);
      }
    }
  }

  lemma {:induction false} AddressesKeepAuth(s: Session, attempts: seq<Attempt>)
    ensures var (t, ret) := TryAddresses(s, attempts); SameAuth(s, t) && (ret == OriginConnect || ret == RequestWrite)
    decreases |attempts|
  {
    if attempts != [] {
      AddressesKeepAuth(FirstAttempt(s, attempts[0]).0, attempts[1..]);
    }
  }

  /** A handler's outcome: fit to stay, or to enter where it leads. */
  predicate Fit(s: Session, users: seq<User>, st: St, ret: St) {
    if ret == st then AuthAt(s, users, st) else Entering(s, users, ret)
  }

  lemma GreetingConsumedIsFit(s: Session, users: seq<User>)
    ensures var (t, ret) := GreetingConsumed(s); Fit(t, users, GreetingRead, ret)
  {
  }

  lemma AuthConsumedIsFit(s: Session, users: seq<User>)
    requires AuthAt(s, users, AuthRead)
    ensures var (t, ret) := AuthConsumed(s, users); Fit(t, users, AuthRead, ret)
  {
  }

  lemma ReadIsFit(s: Session, users: seq<User>, st: St, e: Event)
    requires e.Readable? && st != Copy && AuthAt(s, users, st)
    ensures var (t, ret) := HandlerStep(s, users, st, e); t.status == Aborted || Fit(t, users, st, ret)
  {
    if e.recv.Data? {
      var b := s.io.rb.Append(e.recv.bytes);
      match st
      case GreetingRead =>
        var (g, rb) := G.ParseBuf(s.greeting, b);
        GreetingConsumedIsFit(s.SetRb(rb).(greeting := g), users);
      case AuthRead =>
        var (a, rb) := A.ParseBuf(s.auth, b);
        assert AuthAt(s.SetRb(rb).(auth := a), users, AuthRead);
        AuthConsumedIsFit(s.SetRb(rb).(auth := a), users);
      case RequestRead =>
        var (q, rb) := Q.ParseBuf(s.request, b);
        RequestConsumedIsFit(s.SetRb(rb).(request := q), users);
      case _ =>
    }
  }

  lemma RequestConsumedIsFit(s: Session, users: seq<User>)
    requires Authorised(s, users)
    ensures var (t, ret) := RequestConsumed(s); Fit(t, users, RequestRead, ret)
  {
  }

  lemma AnswerSentIsFit(s: Session, users: seq<User>, send: R.Send)
    ensures AuthAt(s, users, GreetingWrite) ==>
              var (t, ret) := GreetingWriteStep(s, send); Fit(t, users, GreetingWrite, ret)
    ensures AuthAt(s, users, AuthWrite) ==> var (t, ret) := AuthWriteStep(s, send); Fit(t, users, AuthWrite, ret)
  {
  }

  lemma ReplySentIsFit(s: Session, users: seq<User>, side: Side, send: R.Send)
    requires Authorised(s, users)
    ensures var (t, ret) := RequestWriteStep(s, side, send); t.status == Aborted || Fit(t, users, RequestWrite, ret)
  {
    if s.io.wb.Room() >= 10 {
      var s1 := Refilled(s);
      assert SameAuth(s, s1);
      if !SendFailed(s1.io.wb, send) {
        var s2 := CountedOut(s1, send.n);
        assert SameAuth(s, s2);
        ReplyAdvancedKeepsAuth(s2, side);
      }
    }
  }

  lemma ReplyAdvancedKeepsAuth(s: Session, side: Side)
    ensures var (t, ret) := ReplyAdvanced(s, side);
            SameAuth(s, t) && (ret == RequestWrite || ret == Copy || ret == Done || ret == Error)
  {
  }

  lemma WriteIsFit(s: Session, users: seq<User>, st: St, e: Event)
    requires e.Writable? && st != Copy && AuthAt(s, users, st)
    ensures var (t, ret) := HandlerStep(s, users, st, e); t.status == Aborted || Fit(t, users, st, ret)
  {
    match st
    case GreetingWrite => AnswerSentIsFit(s, users, e.send);
    case AuthWrite => AnswerSentIsFit(s, users, e.send);
    case RequestWrite => ReplySentIsFit(s, users, e.side, e.send);
    case _ =>
  }

  lemma CopyIsFit(s: Session, users: seq<User>, e: Event)
    requires !e.Resolved? && Authorised(s, users)
    ensures var (t, ret) := HandlerStep(s, users, Copy, e); t.status == Aborted || Fit(t, users, Copy, ret)
  {
    assert SameAuth(s, CopyStep(s, e).0);
  }

  lemma HandlerIsFit(s: Session, users: seq<User>, st: St, e: Event)
    requires AuthAt(s, users, st)
    ensures var (t, ret) := HandlerStep(s, users, st, e); t.status == Aborted || Fit(t, users, st, ret)
  {
    if e.Resolved? {
      if st == OriginConnect {
        AddressesKeepAuth(s.(resolving := false), e.attempts);
      }
    } else if st == Copy {
      CopyIsFit(s, users, e);
    } else if e.Readable? {
      ReadIsFit(s, users, st, e);
    } else {
      WriteIsFit(s, users, st, e);
    }
  }

  lemma FinishKeepsAuth(s: Session, users: seq<User>, st: St, ret: St, conn: Conn)
    requires s.current == Some(st) && (s.status == Aborted || Fit(s, users, st, ret))
    ensures AuthInv(Finish(s, ret, conn), users)
  {
    if s.status != Aborted {
      if ret == st {
        assert Jump(s, ret, conn) == s;
      } else {
        JumpKeepsAuth(s, users, ret, conn);
      }
    }
  }

  /** Every event keeps it, whether or not the selector would dispatch it, and whatever the environment answers. */
  lemma StepKeepsAuth(s: Session, users: seq<User>, e: Event)
    requires AuthInv(s, users)
    ensures AuthInv(Step(s, users, e), users)
  {
    if s.status == Alive {
      var s0 := First(s);
      var st := s0.current.value;
      var (s1, ret) := HandlerStep(s0, users, st, e);
      HandlerIsFit(s0, users, st, e);
      HandlersClimb(s0, users, st, e);
      FinishKeepsAuth(s1, users, st, ret, ConnOf(e));
    }
  }

  /** Adding users revokes nothing. */
  lemma AuthUnderMoreUsers(s: Session, users: seq<User>, name: CString, pass: CString)
    requires AuthInv(s, users)
    ensures AuthInv(s, UsersAfter(users, name, pass))
  {
    AddUserOnlyExtends(users, name, pass, s.auth.user, s.auth.pass);
  }
}
