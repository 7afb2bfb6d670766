/**
 * A session's life in COPY is a run of the relay, so every theorem of Relays
 * holds of it; and what the tracker stores is fixed by the origin's traffic.
 */
module SessionCopy {
  import opened Base
  import opened Buffers
  import opened Interests
  import opened Parameters
  import opened Sessions
  import opened SessionSafety
  import P = Pop3Sniffers
  import R = Relays
  import Streams

  /** Events dispatched one after the other, the session staying alive in COPY. */
  ghost predicate Copies(s: Session, users: seq<User>, es: seq<Event>)
    decreases |es|
  {
    && s.status == Alive && s.current == Some(Copy)
    && (es != [] ==> !es[0].Resolved? && Enabled(s, es[0]) && Copies(Step(s, users, es[0]), users, es[1..]))
  }

  function After(s: Session, users: seq<User>, es: seq<Event>): Session
    decreases |es|
  {
    if es == [] then s else After(Step(s, users, es[0]), users, es[1..])
  }

  function RelayEvents(es: seq<Event>): (r: seq<R.Event>)
    requires forall e :: e in es ==> !e.Resolved?
    ensures |r| == |es|
  {
    if es == [] then [] else [RelayEvent(es[0])] + RelayEvents(es[1..])
  }

  /** What the tracker is shown, in order. */
  function Shown(s: Session, users: seq<User>, es: seq<Event>): seq<seq<byte>>
    decreases |es|
  {
    if es == [] then []
    else
      var later := Shown(Step(s, users, es[0]), users, es[1..]);
      match Watched(s, es[0]) case Some(bs) => [bs] + later case None => later
  }

  /** One event in COPY is one step of the relay; its end is the session's. */
  lemma CopyStepIsRelayStep(s: Session, users: seq<User>, e: Event)
    requires s.status == Alive && s.current == Some(Copy) && !e.Resolved?
    ensures var (io, next) := R.Step(s.io, RelayEvent(e));
            var t := Step(s, users, e);
            && t.io == io
            && (t.status == Alive && t.current == Some(Copy) <==> next == R.Stay && !Overruns(s, e))
            && (next == R.Stay && !Overruns(s, e) ==> t == s.(io := io, tracker := t.tracker))
            && t.tracker == (match Watched(s, e) case Some(bs) => P.SniffBytes(s.tracker, bs) case None => s.tracker)
    ensures s.sock == Registered && Enabled(s, e) ==> R.Enabled(s.io, RelayEvent(e))
  {
    var (s1, ret) := CopyStep(s, e);
    var (io, next) := R.Step(s.io, RelayEvent(e));
    assert s1.io == io && ret == StateOf(next);
    if !Overruns(s, e) {
      CopyFinishes(s1, next, ConnOf(e));
    }
  }

  lemma CopyFinishes(s: Session, next: R.Next, conn: Conn)
    requires s.status == Alive && s.current == Some(Copy)
    ensures var t := Finish(s, StateOf(next), conn);
            && t.io == s.io && t.tracker == s.tracker
            && (t.status == Alive && t.current == Some(Copy) <==> next == R.Stay)
            && (next == R.Stay ==> t == s)
  {
  }

  /** The buffers, flags, interests and histories of a session in COPY are those of the relay's run. */
  lemma {:induction false} CopyRunIsRelayRun(s: Session, users: seq<User>, es: seq<Event>)
    requires Copies(s, users, es) && s.sock == Registered
    requires forall e :: e in es ==> !e.Resolved?
    ensures R.Runs(s.io, RelayEvents(es)) && After(s, users, es).io == R.After(s.io, RelayEvents(es))
    decreases |es|
  {
    if es != [] {
      var t := Step(s, users, es[0]);
      CopyStepIsRelayStep(s, users, es[0]);
      CopyRunIsRelayRun(t, users, es[1..]);
      assert RelayEvents(es)[1..] == RelayEvents(es[1..]);
    }
  }

  lemma {:induction false} TrackerFollows(s: Session, users: seq<User>, es: seq<Event>)
    requires Copies(s, users, es)
    ensures After(s, users, es).tracker == P.SniffAll(s.tracker, Shown(s, users, es))
    decreases |es|
  {
    if es != [] {
      CopyStepIsRelayStep(s, users, es[0]);
      TrackerFollows(Step(s, users, es[0]), users, es[1..]);
      var later := Shown(Step(s, users, es[0]), users, es[1..]);
      if Watched(s, es[0]).Some? {
        assert ([Watched(s, es[0]).value] + later)[1..] == later;
      }
    }
  }

  /**
   * From its entry into COPY with nothing left over from the request, a session's
   * interests match its buffers, every open direction is waited for, and it is
   * never left without an event to wait for.
   */
  lemma SessionNeverStalls(s: Session, users: seq<User>, es: seq<Event>)
    requires s.io == R.Entry(EmptyBuf(BUFFER_SIZE), EmptyBuf(BUFFER_SIZE)) && s.sock == Registered
    requires Copies(s, users, es) && forall e :: e in es ==> !e.Resolved?
    ensures var r := After(s, users, es).io;
            && R.Coupled(r, Client) && R.Coupled(r, Origin)
            && (r.Reading(Client) ==> R.Live(r, Client) && R.Live(r, Origin))
            && !R.Stalled(r)
  {
    CopyRunIsRelayRun(s, users, es);
    R.CouplingOverRuns(s.io.rb, s.io.wb, RelayEvents(es));
  }

  /** If what passed over the origin's descriptor was a POP3 dialog, its credentials are what was stored. */
  lemma SessionTracksCredentials(s: Session, users: seq<User>, es: seq<Event>, d: P.Dialog)
    requires Copies(s, users, es) && s.tracker == P.IDLE
    requires d.Valid() && Streams.Concat(Shown(s, users, es)) == d.Text()
    requires forall i :: 0 <= i < |Shown(s, users, es)| ==> |Shown(s, users, es)[i]| <= P.POP3_BUFF
    ensures var t := After(s, users, es).tracker;
            t.p.state == P.Successful && t.p.user == d.name && t.p.pass == d.secret
  {
    TrackerFollows(s, users, es);
    P.TracksDialogInChunks(d, Shown(s, users, es));
  }
}
