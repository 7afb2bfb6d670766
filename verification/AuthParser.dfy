/**
 * The username/password sub-negotiation (src/auth_parser.c; section 2 of
 * RFC 1929): VER, ULEN, UNAME, PLEN, PASSWD.
 */
module AuthParsers {
  import opened Base
  import opened Buffers
  import opened Streams

  const VERSION: byte := 1

  datatype State =
    | ReadingVersion | ReadingUserLen | ReadingUser | ReadingPassLen | ReadingPass
    | BadLength | Done | UnsupportedVersion | BadSyntax

  /** `user` and `pass` hold the bytes stored so far, `remaining` the length announced last. */
  datatype Auth = Auth(state: State, remaining: byte, user: seq<byte>, pass: seq<byte>)

  const START := Auth(ReadingVersion, 0, [], [])

  predicate Stops(a: Auth) {
    a.state.Done? || a.state.UnsupportedVersion? || a.state.BadSyntax? || a.state.BadLength?
  }

  function Feed(a: Auth, c: byte): Auth {
    match a.state
    case ReadingVersion => a.(state := if c == VERSION then ReadingUserLen else UnsupportedVersion)
    case ReadingUserLen => if c == 0 then a.(state := BadLength) else a.(state := ReadingUser, remaining := c)
    case ReadingUser =>
      a.(user := a.user + [c], state := if |a.user| + 1 == a.remaining then ReadingPassLen else ReadingUser)
    case ReadingPassLen => if c == 0 then a.(state := BadLength) else a.(state := ReadingPass, remaining := c)
    case ReadingPass =>
      a.(pass := a.pass + [c], state := if |a.pass| + 1 == a.remaining then Done else ReadingPass)
    case _ => a
  }

  function Parse(a: Auth, s: seq<byte>): (Auth, seq<byte>) {
    Consume(Feed, Stops, a, s)
  }

  function ParseBuf(a: Auth, b: Buf): (Auth, Buf) {
    ConsumeBuf(Feed, Stops, a, b)
  }

  lemma ParseStep(a: Auth, s: seq<byte>)
    requires s != []
    ensures var a1 := Feed(a, s[0]); Parse(a, s) == if Stops(a1) then (a1, s[1..]) else Parse(a1, s[1..])
  {
  }

  // ---------------------------------------------------------------------
  // The wire language

  predicate Encodable(user: seq<byte>, pass: seq<byte>) {
    0 < |user| < 256 && 0 < |pass| < 256
  }

  function Encode(user: seq<byte>, pass: seq<byte>): seq<byte>
    requires Encodable(user, pass)
  {
    [VERSION, |user|] + user + [|pass|] + pass
  }

  lemma {:induction false} StoreUser(a: Auth, s: seq<byte>)
    requires a.state == ReadingUser && |a.user| < a.remaining && |a.user| + |s| <= a.remaining
    ensures var st := if |a.user| + |s| == a.remaining then ReadingPassLen else ReadingUser;
            Parse(a, s) == (a.(user := a.user + s, state := st), [])
    decreases |s|
  {
    if s == [] {
      assert a.user + s == a.user;
    } else {
      ParseStep(a, s);
      assert (a.user + [s[0]]) + s[1..] == a.user + s;
      if |a.user| + 1 == a.remaining {
        assert s == [s[0]] && s[1..] == [];
      } else {
        StoreUser(a.(user := a.user + [s[0]]), s[1..]);
      }
    }
  }

  lemma ReadUser(a: Auth, s: seq<byte>)
    requires a.state == ReadingUser && |a.user| < a.remaining
    ensures var k := a.remaining - |a.user|;
            Parse(a, s) == if |s| < k then (a.(user := a.user + s), [])
                           else Parse(a.(state := ReadingPassLen, user := a.user + s[..k]), s[k..])
  {
    var k := a.remaining - |a.user|;
    if |s| < k {
      StoreUser(a, s);
    } else {
      StoreUser(a, s[..k]);
      assert s == s[..k] + s[k..];
      ConsumeSplit(Feed, Stops, a, s[..k], s[k..]);
      assert [] + s[k..] == s[k..];
    }
  }

  lemma {:induction false} StorePass(a: Auth, s: seq<byte>)
    requires a.state == ReadingPass && |a.pass| < a.remaining && |a.pass| + |s| <= a.remaining
    ensures var st := if |a.pass| + |s| == a.remaining then Done else ReadingPass;
            Parse(a, s) == (a.(pass := a.pass + s, state := st), [])
    decreases |s|
  {
    if s == [] {
      assert a.pass + s == a.pass;
    } else {
      ParseStep(a, s);
      assert (a.pass + [s[0]]) + s[1..] == a.pass + s;
      if |a.pass| + 1 == a.remaining {
        assert s == [s[0]] && s[1..] == [];
      } else {
        StorePass(a.(pass := a.pass + [s[0]]), s[1..]);
      }
    }
  }

  lemma ReadPass(a: Auth, s: seq<byte>)
    requires a.state == ReadingPass && |a.pass| < a.remaining
    ensures var k := a.remaining - |a.pass|;
            Parse(a, s) == if |s| < k then (a.(pass := a.pass + s), [])
                           else (a.(state := Done, pass := a.pass + s[..k]), s[k..])
  {
    var k := a.remaining - |a.pass|;
    if |s| < k {
      StorePass(a, s);
    } else {
      StorePass(a, s[..k]);
      assert s == s[..k] + s[k..];
      ConsumeSplit(Feed, Stops, a, s[..k], s[k..]);
      assert [] + s[k..] == s[k..];
    }
  }

  /** What one pass over any stream yields, with no reference to the automaton. */
  function Meaning(s: seq<byte>): (Auth, seq<byte>) {
    if s == [] then (START, [])
    else if s[0] != VERSION then (Auth(UnsupportedVersion, 0, [], []), s[1..])
    else if |s| == 1 then (Auth(ReadingUserLen, 0, [], []), [])
    else if s[1] == 0 then (Auth(BadLength, 0, [], []), s[2..])
    else UserMeaning(s[1], s[2..])
  }

  /** From the first byte of the user name on. */
  function UserMeaning(n: byte, t: seq<byte>): (Auth, seq<byte>) {
    if |t| < n then (Auth(ReadingUser, n, t, []), []) else PassMeaning(n, t[..n], t[n..])
  }

  /** The password half, after `n` bytes of user name. */
  function PassMeaning(n: byte, user: seq<byte>, t: seq<byte>): (Auth, seq<byte>) {
    if t == [] then (Auth(ReadingPassLen, n, user, []), [])
    else if t[0] == 0 then (Auth(BadLength, n, user, []), t[1..])
    else
      var m: nat := t[0];
      if |t| < 1 + m then (Auth(ReadingPass, m, user, t[1..]), [])
      else (Auth(Done, m, user, t[1..1 + m]), t[1 + m..])
  }

  lemma ParsePassIsMeaning(n: byte, user: seq<byte>, t: seq<byte>)
    ensures Parse(Auth(ReadingPassLen, n, user, []), t) == PassMeaning(n, user, t)
  {
    var a := Auth(ReadingPassLen, n, user, []);
    if t != [] {
      ParseStep(a, t);
      if t[0] != 0 {
        ReadPass(Feed(a, t[0]), t[1..]);
        assert [] + t[1..] == t[1..];
        var m: nat := t[0];
        if |t| >= 1 + m {
          assert [] + t[1..][..m] == t[1..1 + m] && t[1..][m..] == t[1 + m..];
        }
      }
    }
  }

  lemma ParseUserIsMeaning(n: byte, t: seq<byte>)
    requires n > 0
    ensures Parse(Auth(ReadingUser, n, [], []), t) == UserMeaning(n, t)
  {
    ReadUser(Auth(ReadingUser, n, [], []), t);
    if |t| < n {
      assert [] + t == t;
    } else {
      assert [] + t[..n] == t[..n];
      ParsePassIsMeaning(n, t[..n], t[n..]);
    }
  }

  lemma ParseIsMeaning(s: seq<byte>)
    ensures Parse(START, s) == Meaning(s)
  {
    if s != [] {
      ParseStep(START, s);
      if s[0] == VERSION && |s| >= 2 {
        assert s[1..][1..] == s[2..];
        ParseStep(START.(state := ReadingUserLen), s[1..]);
        if s[1] != 0 {
          ParseUserIsMeaning(s[1], s[2..]);
        }
      }
    }
  }

  lemma EncodeParts(user: seq<byte>, pass: seq<byte>, rest: seq<byte>)
    requires Encodable(user, pass)
    ensures var s := Encode(user, pass) + rest;
            && |s| >= 2 + |user| && s[0] == VERSION && s[1] == |user|
            && s[2..] == user + ([|pass|] + (pass + rest))
  {
  }

  lemma DonePartsEncode(s: seq<byte>, user: seq<byte>, pass: seq<byte>, rest: seq<byte>)
    requires Meaning(s) == (Auth(Done, |pass| % 256, user, pass), rest)
    ensures Encodable(user, pass) && s == Encode(user, pass) + rest
  {
  }

  /** The accepted language: done after exactly |e| bytes iff those bytes encode the stored pair. */
  lemma AcceptsExactlyTheWireLanguage(s: seq<byte>, user: seq<byte>, pass: seq<byte>, rest: seq<byte>)
    ensures Parse(START, s) == (Auth(Done, |pass| % 256, user, pass), rest) <==>
            Encodable(user, pass) && s == Encode(user, pass) + rest
  {
    ParseIsMeaning(s);
    if Encodable(user, pass) && s == Encode(user, pass) + rest {
      EncodeParts(user, pass, rest);
      var t := [|pass|] + (pass + rest);
      assert s[2..][..|user|] == user && s[2..][|user|..] == t;
      assert t[1..1 + |pass|] == pass && t[1 + |pass|..] == rest;
    }
    if Parse(START, s) == (Auth(Done, |pass| % 256, user, pass), rest) {
      DonePartsEncode(s, user, pass, rest);
    }
  }

  /** TCP may cut the stream anywhere: accepted, with this much left unread, iff the whole stream encodes the pair. */
  lemma AcceptedInAnyCutting(cap: nat, chunks: seq<seq<byte>>, user: seq<byte>, pass: seq<byte>, rest: seq<byte>)
    requires forall i :: 0 <= i < |chunks| ==> |chunks[i]| <= cap
    ensures var (a, b, left) := FeedChunks(Feed, Stops, START, EmptyBuf(cap), chunks);
            a == Auth(Done, |pass| % 256, user, pass) && b.content + Concat(left) == rest <==>
            Encodable(user, pass) && Concat(chunks) == Encode(user, pass) + rest
  {
    AcceptsExactlyTheWireLanguage(Concat(chunks), user, pass, rest);
    if chunks != [] {
      ChunkIndependence(Feed, Stops, START, EmptyBuf(cap), chunks);
      assert [] + Concat(chunks) == Concat(chunks);
    }
  }

  // ---------------------------------------------------------------------
  // The structure updated byte by byte

  class AuthParser {
    var state: State
    var charsRemaining: byte
    var user: array?<byte>
    var password: array?<byte>
    var index: byte

    /** The abstract value, kept in step by every method. */
    ghost var view: Auth

    /** The credential arrays have one byte more than the announced length, for the terminator. */
    ghost predicate Valid()
      reads this, user, password
    {
      && (user != null ==> user.Length > 1)
      && (password != null ==> user != null && password.Length > 1 && password != user)
      && (state.ReadingVersion? || state.ReadingUserLen? ==> user == null && index == 0)
      && (state.ReadingUser? ==> user != null && user.Length == charsRemaining + 1 && index < charsRemaining)
      && (state.ReadingVersion? || state.ReadingUserLen? || state.ReadingUser? || state.ReadingPassLen?
         ==> password == null)
      && (state.ReadingPassLen? ==> user != null)
      && (user != null && state != ReadingUser ==> user[user.Length - 1] == 0)
      && (password != null && state != ReadingPass ==> password[password.Length - 1] == 0)
      && (state.Done? ==> password != null)
      && (state.ReadingPass? ==> password != null && password.Length == charsRemaining + 1 && index < charsRemaining)
      && view == Auth(state, charsRemaining,
                      if user == null then []
                      else if state == ReadingUser then user[..index] else user[..user.Length - 1],
                      if password == null then []
                      else if state == ReadingPass then password[..index] else password[..password.Length - 1])
    }

    constructor ()
      ensures Valid() && user == null && password == null && view == START
    {
      state, charsRemaining, index, user, password, view := ReadingVersion, 0, 0, null, null, START;
    }

    method Init()
      modifies this
      ensures Valid() && user == null && password == null && view == START
    {
      state, charsRemaining, index, user, password, view := ReadingVersion, 0, 0, null, null, START;
    }

    /** Stores one byte of the credential being read; terminates it when it is complete. */
    method Store(field: array<byte>, c: byte) returns (full: bool)
      requires field.Length == charsRemaining + 1 && index < charsRemaining
      modifies this`index, field
      ensures full <==> index == charsRemaining
      ensures full ==> field[index] == 0
      ensures old(index) < index <= charsRemaining && field[..index] == old(field[..index]) + [c]
    {
      field[index] := c;
      index := (index + 1) % 256;
      full := index == charsRemaining;
      if full {
        field[index] := 0;
      }
    }

    method FeedByte(c: byte) returns (st: State)
      requires Valid()
      modifies this, user, password
      ensures Valid() && (user == old(user) || fresh(user)) && (password == old(password) || fresh(password))
      ensures view == Feed(old(view), c) && st == view.state
    {
      match state {
        case ReadingVersion =>
          state := if c == VERSION then ReadingUserLen else UnsupportedVersion;
        case ReadingUserLen =>
          if c <= 0 {
            state := BadLength;
          } else {
            charsRemaining := c;
            user := new byte[c + 1];
            state := ReadingUser;
          }
        case ReadingUser =>
          var full := Store(user, c);
          if full {
            state := ReadingPassLen;
          }
        case ReadingPassLen =>
          if c <= 0 {
            state := BadLength;
          } else {
            charsRemaining := c;
            index := 0;
            password := new byte[c + 1];
            state := ReadingPass;
          }
        case ReadingPass =>
          var full := Store(password, c);
          if full {
            state := Done;
          }
        case _ =>
      }
      view := Feed(view, c);
      st := state;
    }

    /** One turn of the loop below. */
    method ConsumeByte(buff: Buffer) returns (st: State)
      requires Valid() && buff.Valid() && user != buff.data && password != buff.data && buff.view.content != []
      modifies this, user, password, buff, buff.data
      ensures Valid() && (user == old(user) || fresh(user)) && (password == old(password) || fresh(password))
      ensures buff.Valid() && buff.view == old(buff.view).Advance(1)
      ensures view == Feed(old(view), old(buff.view.content[0])) && st == view.state
    {
      var c := buff.Read();
      st := FeedByte(c);
    }

    /** Feeds the readable bytes of `buff` until the parser stops or none is left. */
    method ConsumeBuffer(buff: Buffer) returns (st: State)
      requires Valid() && buff.Valid() && user != buff.data && password != buff.data
      modifies this, user, password, buff, buff.data
      ensures Valid() && (user == old(user) || fresh(user)) && (password == old(password) || fresh(password))
      ensures buff.Valid()
      ensures (view, buff.view) == ParseBuf(old(view), old(buff.view)) && st == view.state
    {
      st := state;
      while buff.CanRead()
        invariant Valid() && (user == old(user) || fresh(user)) && (password == old(password) || fresh(password))
        invariant user != buff.data && password != buff.data && buff.Valid()
        invariant st == view.state
        invariant ParseBuf(view, buff.view) == ParseBuf(old(view), old(buff.view))
        decreases |buff.view.content|
      {
        ConsumeBufStep(Feed, Stops, view, buff.view);
        st := ConsumeByte(buff);
        if st.Done? || st.UnsupportedVersion? || st.BadSyntax? || st.BadLength? {
          return;
        }
      }
      ConsumeBufEmpty(Feed, Stops, view, buff.view);
    }
  }

  /** Appends VER, STATUS. `ok` is false where the source writes past the buffer and then fails its assertion. */
  method FillMsg(buff: Buffer, status: byte) returns (ok: bool)
    requires buff.Valid()
    modifies buff, buff.data
    ensures buff.Valid() && (ok <==> old(buff.view).Room() >= 2)
    ensures buff.view == if ok then old(buff.view).Append([VERSION, status]) else old(buff.view)
  {
    ok := buff.data.Length - buff.write >= 2;
    if ok {
      buff.Store([VERSION, status]);
      buff.WriteAdv(2);
    }
  }
}
