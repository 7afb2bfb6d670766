/**
 * The generic engine (src/stm.c) over the table of the proxy's states
 * (src/socksv5_stm.c), and the callbacks that drive it (src/socksv5_server.c).
 * The session the handlers work on is held as a value here.
 */
module StateMachines {
  import opened Base
  import opened Parameters
  import opened Sessions
  import opened SessionSafety

  /** The enumerator of a state: its place in the table. */
  function Ordinal(st: St): nat {
    match st
    case GreetingRead => 0
    case GreetingWrite => 1
    case AuthRead => 2
    case AuthWrite => 3
    case RequestRead => 4
    case RequestWrite => 5
    case OriginConnect => 6
    case Copy => 7
    case Done => 8
    case Error => 9
  }

  function StateAt(i: nat): (st: St)
    requires i <= 9
    ensures Ordinal(st) == i
  {
    [GreetingRead, GreetingWrite, AuthRead, AuthWrite, RequestRead, RequestWrite, OriginConnect, Copy, Done, Error][i]
  }

  /** A row: the state's number and which handlers it defines. */
  datatype StateDef = StateDef(state: nat, onArrival: bool, onRead: bool, onWrite: bool, onBlock: bool)

  const TABLE: seq<StateDef> := [
    StateDef(0, true, true, false, false),
    StateDef(1, false, false, true, false),
    StateDef(2, true, true, false, false),
    StateDef(3, false, false, true, false),
    StateDef(4, true, true, false, false),
    StateDef(5, false, false, true, false),
    StateDef(6, true, false, true, true),
    StateDef(7, true, true, true, false),
    StateDef(8, false, false, false, false),
    StateDef(9, false, false, false, false)
  ]

  /** The rows are in order and say which handlers the step functions have. */
  lemma TableDescribesHandlers(st: St)
    ensures var row := TABLE[Ordinal(st)];
            && row.state == Ordinal(st) && row.onRead == OnRead(st) && row.onWrite == OnWrite(st)
               && row.onBlock == OnBlock(st)
            && forall s: Session, conn :: !row.onArrival ==> Arrive(s, st, conn) == (s, st)
  {
  }

  class StateMachine {
    const initial: nat
    const states: seq<StateDef>
    const maxState: nat

    /** Index of the current definition, -1 for NULL. */
    var current: int
    var data: Session

    ghost predicate Valid()
      reads this
    {
      && states == TABLE && maxState == 9 && initial == 0 && -1 <= current <= 9
      && data.current == if current < 0 then None else Some(StateAt(current))
    }

    /** The machine as new_socksv5 sets it up. */
    constructor ()
      ensures Valid() && data == NEW_SESSION
    {
      initial, states, maxState := Ordinal(GreetingRead), TABLE, Ordinal(Error);
      current, data := -1, NEW_SESSION;
      new;
      var ok := Init(initial, states, maxState);
      assert ok by {
        forall i | 0 <= i < 10 ensures TABLE[i].state == i { TableDescribesHandlers(StateAt(i)); }
      }
    }

    /** stm_init: false where the source aborts. */
    static method Init(initial: nat, states: seq<StateDef>, maxState: nat) returns (ok: bool)
      requires maxState < |states|
      ensures ok <==> (forall i :: 0 <= i <= maxState ==> states[i].state == i) && initial < maxState
    {
      for i := 0 to maxState + 1
        invariant forall k :: 0 <= k < i ==> states[k].state == k
      {
        if states[i].state != i {
          return false;
        }
      }
      ok := initial < maxState;
    }

    /** handle_first. */
    method HandleFirst() returns (st: St)
      requires Valid()
      modifies this
      ensures Valid() && current >= 0 && data == First(old(data)) && data.current == Some(st)
    {
      if current < 0 {
        current := initial;
        data := data.(current := Some(StateAt(current)));
        if states[current].onArrival {
          var (d, ret) := Arrive(data, StateAt(current), InProgress);
          data := d;
        }
      }
      st := StateAt(current);
    }

    /** jump: an entry action that asks for another state is followed at once. */
    method JumpTo(next: St, conn: Conn)
      requires Valid() && current >= 0
      modifies this
      ensures Valid() && current >= 0 && data == Jump(old(data), next, conn)
      decreases 8 - Rank(next)
    {
      if current != Ordinal(next) {
        var ret := Enter(next, conn);
        if ret != next {
          JumpTo(ret, conn);
        }
      }
    }

    /** The entry action, where the state has one. */
    method Enter(next: St, conn: Conn) returns (ret: St)
      requires Valid() && current >= 0
      modifies this
      ensures Valid() && current == Ordinal(next)
      ensures (data, ret) == Arrive(old(data).(current := Some(next)), next, conn)
    {
      current := Ordinal(next);
      data := data.(current := Some(next));
      TableDescribesHandlers(next);
      ret := next;
      if states[current].onArrival {
        var (d, st) := Arrive(data, next, conn);
        data, ret := d, st;
      }
    }

    /** stm_handler_read, stm_handler_write and stm_handler_block: the state the handler asked for. */
    method Handle(users: seq<User>, e: Event) returns (ret: St)
      requires Valid() && data.status == Alive
      modifies this
      ensures Valid()
      ensures var s0 := First(old(data));
              var (s1, r) := HandlerStep(s0, users, s0.current.value, e);
              ret == r && data == if s1.status == Aborted then s1 else Jump(s1, r, ConnOf(e))
    {
      var st := HandleFirst();
      TableDescribesHandlers(st);
      var row := states[current];
      ghost var s0 := data;
      HandlersClimb(data, users, st, e);
      if (e.Readable? && !row.onRead) || (e.Writable? && !row.onWrite) || (e.Resolved? && !row.onBlock) {
        data := data.(status := Aborted);
        return Error;
      }
      var (d, r) := HandlerStep(data, users, st, e);
      data, ret := d, r;
      if data.status != Aborted {
        JumpTo(ret, ConnOf(e));
      }
    }

    /** socksv5_read, socksv5_write and socksv5_block. */
    lemma HandledThenFinished(s: Session, users: seq<User>, e: Event)
      requires s.status == Alive
      ensures var s0 := First(s);
              var (s1, r) := HandlerStep(s0, users, s0.current.value, e);
              var d := if s1.status == Aborted then s1 else Jump(s1, r, ConnOf(e));
              Step(s, users, e) == if d.status != Aborted && (r == Done || r == Error) then Teardown(d) else d
    {
      var s0 := First(s);
      var (s1, r) := HandlerStep(s0, users, s0.current.value, e);
      JumpOpensAtMostOnce(s1, r, ConnOf(e));
    }

    method Dispatch(users: seq<User>, e: Event)
      requires Valid() && data.status == Alive
      modifies this
      ensures Valid() && data == Step(old(data), users, e)
    {
      HandledThenFinished(data, users, e);
      var ret := Handle(users, e);
      if data.status != Aborted && (ret == Done || ret == Error) {
        data := Teardown(data);
      }
    }
  }
}
