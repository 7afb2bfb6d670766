/**
 * The POP3 credential tracker (src/pop3_sniffer.c, and src/copy_stm.c where the
 * relay hands it the origin's traffic). It watches both directions of a dialog
 * in the order of section 7 of RFC 1939: +OK, USER, PASS, +OK.
 */
module Pop3Sniffers {
  import opened Base
  import opened Buffers
  import opened Streams

  const CREDENTIALS_SIZE := 100
  const POP3_BUFF := 4096

  const CR: byte := 13
  const LF: byte := 10

  /** The literals of the source in lower case. */
  const OK_WORD: seq<byte> := [43, 111, 107]
  const USER_WORD: seq<byte> := [117, 115, 101, 114, 32]
  const PASS_WORD: seq<byte> := [112, 97, 115, 115, 32]
  const ERR_WORD: seq<byte> := [45, 101, 114, 114]

  /** `Overrun` is an access outside a credential array or past the end of a literal. */
  datatype State = Init | UserCommand | ReadUser | PassCommand | ReadPass | CheckCreds | Successful | Finish | Overrun

  datatype Pop3 = Pop3(state: State, read: byte, remaining: byte, checkRead: byte, user: seq<byte>, pass: seq<byte>)

  const START := Pop3(Init, 0, 3, 0, [], [])

  predicate Stops(p: Pop3) {
    p.state.Successful? || p.state.Finish? || p.state.Overrun?
  }

  function ToLower(c: byte): byte {
    if 65 <= c <= 90 then c + 32 else c
  }

  function Lower(s: seq<byte>): (r: seq<byte>)
    ensures |r| == |s| && forall i :: 0 <= i < |s| ==> r[i] == ToLower(s[i])
  {
    if s == [] then [] else [ToLower(s[0])] + Lower(s[1..])
  }

  /** The character of a literal, or its terminator. */
  function CharAt(word: seq<byte>, i: byte): byte {
    if i < |word| then word[i] else 0
  }

  /** uint8_t arithmetic. */
  function Inc(x: byte): byte {
    (x + 1) % 256
  }

  function Dec(x: byte): byte {
    (x + 255) % 256
  }

  /**
   * Looking for "USER " or "PASS ": a mismatch restarts the match only when one
   * was under way. The second component says that the word is complete.
   */
  function Seek(p: Pop3, word: seq<byte>, c: byte): (Pop3, bool) {
    if p.read > |word| then (p.(state := Overrun), false)
    else if ToLower(c) == CharAt(word, p.read) then
      if Dec(p.remaining) == 0 then (p.(read := 0, remaining := 0), true)
      else (p.(read := Inc(p.read), remaining := Dec(p.remaining)), false)
    else if p.read != 0 then (p.(read := 0, remaining := 5), false)
    else (p, false)
  }

  function Feed(p: Pop3, c: byte): Pop3 {
    match p.state
    case Init =>
      if ToLower(c) != CharAt(OK_WORD, p.read) then p.(state := Finish)
      else if Dec(p.remaining) == 0 then p.(state := UserCommand, read := 0, remaining := 5)
      else p.(read := Inc(p.read), remaining := Dec(p.remaining))
    case UserCommand =>
      var (q, found) := Seek(p, USER_WORD, c);
      if found then q.(state := ReadUser, user := []) else q
    case ReadUser =>
      if c != LF && c != CR then
        if p.read < CREDENTIALS_SIZE then p.(user := p.user + [c], read := Inc(p.read)) else p
      else if p.read >= CREDENTIALS_SIZE then p.(state := Overrun)
      else p.(state := PassCommand, read := 0, remaining := 5, checkRead := 0)
    case PassCommand =>
      var (q, found) := Seek(p, PASS_WORD, c);
      if found then q.(state := ReadPass, pass := []) else q
    case ReadPass =>
      if c != LF && c != CR then
        if p.read < CREDENTIALS_SIZE then p.(pass := p.pass + [c], read := Inc(p.read)) else p
      else if p.read >= CREDENTIALS_SIZE then p.(state := Overrun)
      else p.(state := CheckCreds, read := 0, checkRead := 0)
    case CheckCreds =>
      if ToLower(c) == CharAt(OK_WORD, p.read) then
        p.(read := Inc(p.read), state := if Inc(p.read) == |OK_WORD| then Successful else CheckCreds)
      else if ToLower(c) == CharAt(ERR_WORD, p.checkRead) then
        p.(checkRead := Inc(p.checkRead), state := if Inc(p.checkRead) == |ERR_WORD| then UserCommand else CheckCreds)
      else p
    case _ => p
  }

  function Parse(p: Pop3, s: seq<byte>): (Pop3, seq<byte>) {
    Consume(Feed, Stops, p, s)
  }

  lemma ParseStep(p: Pop3, s: seq<byte>)
    requires s != []
    ensures var p1 := Feed(p, s[0]); Parse(p, s) == if Stops(p1) then (p1, s[1..]) else Parse(p1, s[1..])
  {
  }

  /** `Reaches(p, s, q)`: feeding all of `s` leads from `p` to `q` with no stop on the way. */
  ghost predicate Reaches(p: Pop3, s: seq<byte>, q: Pop3) {
    Parse(p, s) == (q, []) && !Stops(p) && !Stops(q)
  }

  lemma ReachesThen(p: Pop3, a: seq<byte>, q: Pop3, b: seq<byte>)
    requires Reaches(p, a, q)
    ensures Parse(p, a + b) == Parse(q, b)
  {
    ConsumeSplit(Feed, Stops, p, a, b);
  }

  lemma ReachesThrough(p: Pop3, a: seq<byte>, q: Pop3, b: seq<byte>, r: Pop3)
    requires Reaches(p, a, q) && Reaches(q, b, r)
    ensures Reaches(p, a + b, r)
  {
    ReachesThen(p, a, q, b);
  }

  lemma StepReaches(p: Pop3, s: seq<byte>, q: Pop3, r: Pop3)
    requires s != [] && !Stops(p) && q == Feed(p, s[0]) && Reaches(q, s[1..], r)
    ensures Reaches(p, s, r)
  {
    ParseStep(p, s);
  }

  // ---------------------------------------------------------------------
  // One part of a dialog at a time

  predicate Spells(text: seq<byte>, word: seq<byte>) {
    Lower(text) == word
  }

  /** `text` spells what is left of `word` after its first `k` characters. */
  predicate SpellsRest(text: seq<byte>, word: seq<byte>, k: nat) {
    k <= |word| && Lower(text) == word[k..]
  }

  lemma SpellsNext(text: seq<byte>, word: seq<byte>, k: nat)
    requires SpellsRest(text, word, k) && k < |word|
    ensures |text| == |word| - k && ToLower(text[0]) == word[k] && SpellsRest(text[1..], word, k + 1)
    ensures k + 1 == |word| ==> text[1..] == []
  {
  }

  predicate OccursAt(text: seq<byte>, word: seq<byte>, i: nat) {
    i + |word| <= |text| && Spells(text[i..i + |word|], word)
  }

  /** `word` occurs nowhere in `text`, in any case. */
  predicate FreeOf(text: seq<byte>, word: seq<byte>) {
    forall i: nat :: i < |text| ==> !OccursAt(text, word, i)
  }

  /** Filler is nothing, or lines. */
  predicate Filler(text: seq<byte>, word: seq<byte>) {
    FreeOf(text, word) && (text != [] ==> text[|text| - 1] == LF)
  }

  predicate Credential(text: seq<byte>) {
    |text| < CREDENTIALS_SIZE && LF !in text && CR !in text
  }

  predicate LineEnd(c: byte) {
    c == LF || c == CR
  }

  function CommandWord(state: State): seq<byte> {
    if state == UserCommand then USER_WORD else PASS_WORD
  }

  predicate Seeking(p: Pop3) {
    (p.state == UserCommand || p.state == PassCommand) && p.read < 5 && p.remaining == 5 - p.read
  }

  /** The last `k` bytes of `text` spell the first `k` of `word`. */
  predicate EndsWithStart(text: seq<byte>, word: seq<byte>, k: nat) {
    k <= |text| && k <= |word| && Spells(text[|text| - k..], word[..k])
  }

  lemma ExtendMatch(text: seq<byte>, word: seq<byte>, k: nat, c: byte)
    requires EndsWithStart(text, word, k) && k < |word| && ToLower(c) == word[k]
    ensures EndsWithStart(text + [c], word, k + 1)
  {
  }

  lemma FullMatchOccurs(text: seq<byte>, word: seq<byte>, s: seq<byte>)
    requires word != [] && EndsWithStart(text, word, |word|)
    ensures !FreeOf(text + s, word)
  {
    var i := |text| - |word|;
    assert (text + s)[i..i + |word|] == text[i..] && word[..|word|] == word;
    assert OccursAt(text + s, word, i);
  }

  function At(p: Pop3, k: nat): Pop3
    requires k <= 5
  {
    p.(read := k, remaining := 5 - k)
  }

  /** The state right after the last byte of the command word. */
  function Found(p: Pop3): Pop3 {
    if p.state == UserCommand then p.(state := ReadUser, read := 0, remaining := 0, user := [])
    else p.(state := ReadPass, read := 0, remaining := 0, pass := [])
  }

  lemma CommandByte(p: Pop3, c: byte)
    requires Seeking(p)
    ensures Feed(p, c) == if ToLower(c) != CommandWord(p.state)[p.read] then At(p, 0)
                          else if p.read == 4 then Found(p) else At(p, p.read + 1)
  {
  }

  lemma SeekStep(p: Pop3, seen: seq<byte>, c: byte, later: seq<byte>)
    requires Seeking(p) && EndsWithStart(seen, CommandWord(p.state), p.read)
    requires FreeOf((seen + [c]) + later, CommandWord(p.state))
    ensures var p1 := Feed(p, c);
            && p1.read < 5 && p1 == At(p, p1.read) && EndsWithStart(seen + [c], CommandWord(p.state), p1.read)
            && (c == LF ==> p1.read == 0)
  {
    var word := CommandWord(p.state);
    CommandByte(p, c);
    if ToLower(c) == word[p.read] {
      ExtendMatch(seen, word, p.read, c);
      if p.read == 4 {
        FullMatchOccurs(seen + [c], word, later);
        assert false;
      }
    }
  }

  /** While the command word is not complete, `read` bytes seen last are the start of the word. */
  lemma {:induction false} SeekThroughFiller(p: Pop3, seen: seq<byte>, s: seq<byte>) returns (k: nat)
    requires Seeking(p) && EndsWithStart(seen, CommandWord(p.state), p.read)
    requires FreeOf(seen + s, CommandWord(p.state))
    ensures k < 5 && Reaches(p, s, At(p, k))
    ensures s != [] && s[|s| - 1] == LF ==> k == 0
    decreases |s|
  {
    if s == [] {
      return p.read;
    }
    ParseStep(p, s);
    assert (seen + [s[0]]) + s[1..] == seen + s;
    SeekStep(p, seen, s[0], s[1..]);
    k := SeekThroughFiller(Feed(p, s[0]), seen + [s[0]], s[1..]);
  }

  lemma {:induction false} ReadCommand(p: Pop3, cmd: seq<byte>)
    requires Seeking(p) && SpellsRest(cmd, CommandWord(p.state), p.read)
    ensures Parse(p, cmd) == (Found(p), [])
    decreases |cmd|
  {
    SpellsNext(cmd, CommandWord(p.state), p.read);
    ParseStep(p, cmd);
    CommandByte(p, cmd[0]);
    if p.read < 4 {
      ReadCommand(At(p, p.read + 1), cmd[1..]);
    }
  }

  lemma KeptWhole(done: seq<byte>, line: seq<byte>)
    requires line != [] && |done| <= CREDENTIALS_SIZE
    ensures (done + [line[0]]) + line[1..] == done + line
    ensures |done| == CREDENTIALS_SIZE ==> (done + line[1..])[..CREDENTIALS_SIZE] == (done + line)[..CREDENTIALS_SIZE]
  {
  }

  lemma UserEnds(p: Pop3, eol: byte)
    requires p.state == ReadUser && LineEnd(eol)
    ensures Parse(p, [eol]).1 == []
    ensures Parse(p, [eol]).0 ==
            if p.read < CREDENTIALS_SIZE then p.(state := PassCommand, read := 0, remaining := 5, checkRead := 0)
            else p.(state := Overrun)
  {
    ParseStep(p, [eol]);
  }

  /** The character is stored, if there is room. */
  function WithUser(p: Pop3, c: byte): Pop3 {
    if p.read < CREDENTIALS_SIZE then p.(user := p.user + [c], read := p.read + 1) else p
  }

  lemma UserGrows(p: Pop3, line: seq<byte>, eol: byte)
    requires p.state == ReadUser && line != [] && !LineEnd(line[0])
    ensures Parse(p, line + [eol]) == Parse(WithUser(p, line[0]), line[1..] + [eol])
  {
    assert (line + [eol])[1..] == line[1..] + [eol];
    ParseStep(p, line + [eol]);
  }

  /** A credential line of any length: stored whole when it fits, otherwise the terminator lands outside the array. */
  lemma {:induction false} ReadUserLine(p: Pop3, line: seq<byte>, eol: byte)
    requires p.state == ReadUser && p.read == |p.user| <= CREDENTIALS_SIZE
    requires LF !in line && CR !in line && LineEnd(eol)
    ensures Parse(p, line + [eol]) ==
            if |p.user + line| < CREDENTIALS_SIZE then
              (p.(state := PassCommand, read := 0, remaining := 5, checkRead := 0, user := p.user + line), [])
            else (p.(state := Overrun, read := CREDENTIALS_SIZE, user := (p.user + line)[..CREDENTIALS_SIZE]), [])
    decreases |line|
  {
    if line == [] {
      assert p.user + line == p.user && line + [eol] == [eol];
      UserEnds(p, eol);
    } else {
      UserGrows(p, line, eol);
      ReadUserLine(WithUser(p, line[0]), line[1..], eol);
      KeptWhole(p.user, line);
    }
  }

  lemma PassEnds(p: Pop3, eol: byte)
    requires p.state == ReadPass && LineEnd(eol)
    ensures Parse(p, [eol]).1 == []
    ensures Parse(p, [eol]).0 ==
            if p.read < CREDENTIALS_SIZE then p.(state := CheckCreds, read := 0, checkRead := 0)
            else p.(state := Overrun)
  {
    ParseStep(p, [eol]);
  }

  /** The character is stored, if there is room. */
  function WithPass(p: Pop3, c: byte): Pop3 {
    if p.read < CREDENTIALS_SIZE then p.(pass := p.pass + [c], read := p.read + 1) else p
  }

  lemma PassGrows(p: Pop3, line: seq<byte>, eol: byte)
    requires p.state == ReadPass && line != [] && !LineEnd(line[0])
    ensures Parse(p, line + [eol]) == Parse(WithPass(p, line[0]), line[1..] + [eol])
  {
    assert (line + [eol])[1..] == line[1..] + [eol];
    ParseStep(p, line + [eol]);
  }

  lemma {:induction false} ReadPassLine(p: Pop3, line: seq<byte>, eol: byte)
    requires p.state == ReadPass && p.read == |p.pass| <= CREDENTIALS_SIZE
    requires LF !in line && CR !in line && LineEnd(eol)
    ensures Parse(p, line + [eol]) ==
            if |p.pass + line| < CREDENTIALS_SIZE then
              (p.(state := CheckCreds, read := 0, checkRead := 0, pass := p.pass + line), [])
            else (p.(state := Overrun, read := CREDENTIALS_SIZE, pass := (p.pass + line)[..CREDENTIALS_SIZE]), [])
    decreases |line|
  {
    if line == [] {
      assert p.pass + line == p.pass && line + [eol] == [eol];
      PassEnds(p, eol);
    } else {
      PassGrows(p, line, eol);
      ReadPassLine(WithPass(p, line[0]), line[1..], eol);
      KeptWhole(p.pass, line);
    }
  }

  lemma OkByte(p: Pop3, c: byte)
    requires p.state == Init && p.read < 3 && p.remaining == 3 - p.read && ToLower(c) == OK_WORD[p.read]
    ensures Feed(p, c) == if p.read == 2 then p.(state := UserCommand, read := 0, remaining := 5)
                          else p.(read := p.read + 1, remaining := 2 - p.read)
  {
  }

  lemma {:induction false} ReadOk(p: Pop3, ok: seq<byte>)
    requires p.state == Init && p.read < 3 && p.remaining == 3 - p.read && SpellsRest(ok, OK_WORD, p.read)
    ensures Parse(p, ok) == (p.(state := UserCommand, read := 0, remaining := 5), [])
    decreases |ok|
  {
    SpellsNext(ok, OK_WORD, p.read);
    ParseStep(p, ok);
    OkByte(p, ok[0]);
    if p.read < 2 {
      ReadOk(p.(read := p.read + 1, remaining := 2 - p.read), ok[1..]);
    }
  }

  /** How far `s` carries a match of "-ERR" as a (scattered) subsequence, from the first `k` characters on. */
  function ErrProgress(k: nat, s: seq<byte>): nat
    requires k <= 4
    decreases |s|
  {
    if s == [] then k
    else if k < 4 && ToLower(s[0]) == ERR_WORD[k] then ErrProgress(k + 1, s[1..])
    else ErrProgress(k, s[1..])
  }

  lemma {:induction false} ErrProgressGrows(k: nat, s: seq<byte>)
    requires k <= 4
    ensures k <= ErrProgress(k, s)
    decreases |s|
  {
    if s != [] {
      ErrProgressGrows(if k < 4 && ToLower(s[0]) == ERR_WORD[k] then k + 1 else k, s[1..]);
    }
  }

  predicate Checking(p: Pop3) {
    p.state == CheckCreds && p.read < 3 && p.checkRead < 4
  }

  lemma AnswerByte(p: Pop3, c: byte)
    requires Checking(p)
    ensures var q := Feed(p, c);
            && q.user == p.user && q.pass == p.pass
            && (ToLower(c) == OK_WORD[p.read] ==> q == p.(read := p.read + 1, state := q.state) &&
                                                  q.state == if p.read == 2 then Successful else CheckCreds)
            && (ToLower(c) != OK_WORD[p.read] && ToLower(c) != ERR_WORD[p.checkRead] ==> q == p)
            && (ToLower(c) != OK_WORD[p.read] && ToLower(c) == ERR_WORD[p.checkRead] ==>
                  q == p.(checkRead := p.checkRead + 1, state := if p.checkRead == 3 then UserCommand else CheckCreds))
  {
  }

  lemma {:induction false} AnswerOk(p: Pop3, ok: seq<byte>, k: nat)
    requires Checking(p) && k <= p.read && SpellsRest(ok, OK_WORD, k)
    ensures var q := Parse(p, ok).0; q.state == Successful && q.user == p.user && q.pass == p.pass
    decreases |ok|
  {
    SpellsNext(ok, OK_WORD, k);
    ParseStep(p, ok);
    AnswerByte(p, ok[0]);
    if Feed(p, ok[0]).state != Successful {
      AnswerOk(Feed(p, ok[0]), ok[1..], k + 1);
    }
  }

  lemma AnswerFillerByte(p: Pop3, filler: seq<byte>)
    requires Checking(p) && filler != [] && ErrProgress(p.checkRead, filler) < 4
    ensures var q := Feed(p, filler[0]);
            && q.user == p.user && q.pass == p.pass
            && (q.state == Successful || (Checking(q) && ErrProgress(q.checkRead, filler[1..]) < 4))
  {
    var c := filler[0];
    AnswerByte(p, c);
    ErrProgressGrows(if ToLower(c) == ERR_WORD[p.checkRead] then p.checkRead + 1 else p.checkRead, filler[1..]);
  }

  lemma FeedFirst(p: Pop3, a: seq<byte>, b: seq<byte>)
    requires a != []
    ensures var q := Feed(p, a[0]); Parse(p, a + b) == if Stops(q) then (q, a[1..] + b) else Parse(q, a[1..] + b)
  {
    assert (a + b)[0] == a[0] && (a + b)[1..] == a[1..] + b;
    ParseStep(p, a + b);
  }

  /** The answer to PASS is good as soon as "+OK" comes before a complete "-ERR". */
  lemma {:induction false} CheckAnswer(p: Pop3, filler: seq<byte>, ok: seq<byte>)
    requires Checking(p) && ErrProgress(p.checkRead, filler) < 4
    requires Spells(ok, OK_WORD)
    ensures var q := Parse(p, filler + ok).0; q.state == Successful && q.user == p.user && q.pass == p.pass
    decreases |filler|
  {
    if filler == [] {
      assert filler + ok == ok;
      AnswerOk(p, ok, 0);
    } else {
      var q := Feed(p, filler[0]);
      FeedFirst(p, filler, ok);
      AnswerFillerByte(p, filler);
      if q.state != Successful {
        CheckAnswer(q, filler[1..], ok);
      }
    }
  }

  // ---------------------------------------------------------------------
  // A whole dialog

  datatype Dialog = Dialog(
    ok: seq<byte>, filler1: seq<byte>, userCmd: seq<byte>, name: seq<byte>, eol1: byte,
    filler2: seq<byte>, passCmd: seq<byte>, secret: seq<byte>, eol2: byte, filler3: seq<byte>, okAgain: seq<byte>)
  {
    /** No "-ERR"; filler free of the next command word; credentials that fit their arrays. */
    predicate Valid() {
      && Spells(ok, OK_WORD) && Spells(okAgain, OK_WORD) && Spells(userCmd, USER_WORD) && Spells(passCmd, PASS_WORD)
      && Filler(filler1, USER_WORD) && Filler(filler2, PASS_WORD) && ErrProgress(0, filler3) < 4
      && Credential(name) && Credential(secret) && LineEnd(eol1) && LineEnd(eol2)
    }

    /** From the end of the greeting on. */
    function Attempt(): seq<byte> {
      filler1 + (userCmd + (name + [eol1] + (filler2 + (passCmd + (secret + [eol2] + (filler3 + okAgain))))))
    }

    function Text(): seq<byte> {
      ok + Attempt()
    }
  }

  lemma FillerIsPassed(p: Pop3, filler: seq<byte>)
    requires Seeking(p) && p.read == 0 && Filler(filler, CommandWord(p.state))
    ensures Reaches(p, filler, p)
  {
    assert [] + filler == filler && CommandWord(p.state)[..0] == [] == Lower([]);
    var k := SeekThroughFiller(p, [], filler);
    assert At(p, k) == p;
  }

  lemma CommandIsRead(p: Pop3, cmd: seq<byte>)
    requires Seeking(p) && p.read == 0
    requires Spells(cmd, CommandWord(p.state))
    ensures Reaches(p, cmd, Found(p))
  {
    ReadCommand(p, cmd);
  }

  /** Filler, then the command word. */
  lemma PassCommandWord(p: Pop3, filler: seq<byte>, cmd: seq<byte>, rest: seq<byte>)
    requires Seeking(p) && p.read == 0 && Filler(filler, CommandWord(p.state))
    requires Spells(cmd, CommandWord(p.state))
    ensures Parse(p, filler + (cmd + rest)) == Parse(Found(p), rest)
  {
    FillerIsPassed(p, filler);
    ReachesThen(p, filler, p, cmd + rest);
    CommandIsRead(p, cmd);
    ReachesThen(p, cmd, Found(p), rest);
  }

  lemma TracksAttempt(p: Pop3, d: Dialog)
    requires d.Valid() && p.state == UserCommand && p.read == 0 && p.remaining == 5
    ensures var q := Parse(p, d.Attempt()).0; q.state == Successful && q.user == d.name && q.pass == d.secret
  {
    var t6 := d.filler3 + d.okAgain;
    var t5 := d.secret + [d.eol2] + t6;
    var t4 := d.filler2 + (d.passCmd + t5);
    var t3 := d.name + [d.eol1] + t4;
    PassCommandWord(p, d.filler1, d.userCmd, t3);
    var p2 := Found(p);
    ReadUserLine(p2, d.name, d.eol1);
    assert p2.user + d.name == d.name;
    var p3 := p2.(state := PassCommand, read := 0, remaining := 5, checkRead := 0, user := d.name);
    ReachesThen(p2, d.name + [d.eol1], p3, t4);
    PassCommandWord(p3, d.filler2, d.passCmd, t5);
    var p4 := Found(p3);
    ReadPassLine(p4, d.secret, d.eol2);
    assert p4.pass + d.secret == d.secret;
    var p5 := p4.(state := CheckCreds, read := 0, checkRead := 0, pass := d.secret);
    ReachesThen(p4, d.secret + [d.eol2], p5, t6);
    CheckAnswer(p5, d.filler3, d.okAgain);
  }

  lemma TracksDialog(d: Dialog)
    requires d.Valid()
    ensures var q := Parse(START, d.Text()).0; q.state == Successful && q.user == d.name && q.pass == d.secret
  {
    var p1 := Pop3(UserCommand, 0, 5, 0, [], []);
    ReadOk(START, d.ok);
    ReachesThen(START, d.ok, p1, d.Attempt());
    TracksAttempt(p1, d);
  }

  // ---------------------------------------------------------------------
  // The tracker as the relay drives it

  /** `parsing` is false until the first bytes of the connection are seen. */
  datatype Tracker = Tracker(p: Pop3, buf: Buf, parsing: bool)

  /** As calloc leaves it. */
  const IDLE := Tracker(Pop3(Init, 0, 0, 0, [], []), EmptyBuf(POP3_BUFF), false)

  function Min(a: int, b: int): int {
    if a <= b then a else b
  }

  /** pop3_sniffer_init, which leaves the second match count as it was. */
  function Begun(t: Tracker): Tracker {
    Tracker(START.(checkRead := t.p.checkRead), EmptyBuf(POP3_BUFF), true)
  }

  /** What does not fit the tracker's buffer is not seen. */
  function SniffBytes(t: Tracker, bytes: seq<byte>): Tracker {
    var t1 := if t.parsing then t else Begun(t);
    if Stops(t1.p) || t1.buf.Room() < 0 then t1
    else
      var (p, buf) := ConsumeBuf(Feed, Stops, t1.p, t1.buf.Append(bytes[..Min(|bytes|, t1.buf.Room())]));
      t1.(p := p, buf := buf)
  }

  function SniffAll(t: Tracker, chunks: seq<seq<byte>>): Tracker
    decreases |chunks|
  {
    if chunks == [] then t else SniffAll(SniffBytes(t, chunks[0]), chunks[1..])
  }

  lemma {:induction false} StoppedStays(t: Tracker, chunks: seq<seq<byte>>)
    requires t.parsing && Stops(t.p)
    ensures SniffAll(t, chunks) == t
    decreases |chunks|
  {
    if chunks != [] {
      StoppedStays(t, chunks[1..]);
    }
  }

  lemma {:induction false} SniffAllIsFeedChunks(t: Tracker, chunks: seq<seq<byte>>)
    requires t.parsing && !Stops(t.p) && t.buf == EmptyBuf(POP3_BUFF)
    requires forall i :: 0 <= i < |chunks| ==> |chunks[i]| <= POP3_BUFF
    ensures SniffAll(t, chunks).p == FeedChunks(Feed, Stops, t.p, t.buf, chunks).0
    decreases |chunks|
  {
    if chunks != [] {
      var c := chunks[0];
      assert c[..|c|] == c;
      var t1 := SniffBytes(t, c);
      if Stops(t1.p) {
        StoppedStays(t1, chunks[1..]);
      } else {
        SniffAllIsFeedChunks(t1, chunks[1..]);
      }
    }
  }

  /** However a well-formed dialog is cut into chunks the tracker can hold, it ends with exactly the two strings. */
  lemma TracksDialogInChunks(d: Dialog, chunks: seq<seq<byte>>)
    requires d.Valid() && Concat(chunks) == d.Text()
    requires forall i :: 0 <= i < |chunks| ==> |chunks[i]| <= POP3_BUFF
    ensures var t := SniffAll(IDLE, chunks); t.p.state == Successful && t.p.user == d.name && t.p.pass == d.secret
  {
    var t0 := Tracker(START, EmptyBuf(POP3_BUFF), true);
    assert SniffAll(IDLE, chunks) == SniffAll(t0, chunks);
    SniffAllIsFeedChunks(t0, chunks);
    ChunkIndependence(Feed, Stops, START, t0.buf, chunks);
    assert [] + d.Text() == d.Text();
    TracksDialog(d);
  }

  // ---------------------------------------------------------------------
  // Chunks that the tracker cannot hold

  /** What is kept of a chunk. */
  function FirstPart(bytes: seq<byte>): seq<byte> {
    bytes[..Min(|bytes|, POP3_BUFF)]
  }

  function FirstParts(chunks: seq<seq<byte>>): (r: seq<seq<byte>>)
    ensures |r| == |chunks| && forall i :: 0 <= i < |r| ==> r[i] == FirstPart(chunks[i])
  {
    if chunks == [] then [] else [FirstPart(chunks[0])] + FirstParts(chunks[1..])
  }

  /** Between chunks a tracker that goes on has an empty buffer. */
  predicate Ready(t: Tracker) {
    !t.parsing || Stops(t.p) || t.buf == EmptyBuf(POP3_BUFF)
  }

  lemma SniffKeepsFirstPart(t: Tracker, bytes: seq<byte>)
    requires Ready(t)
    ensures SniffBytes(t, bytes) == SniffBytes(t, FirstPart(bytes)) && Ready(SniffBytes(t, bytes))
  {
    var t1 := if t.parsing then t else Begun(t);
    if !Stops(t1.p) {
      assert FirstPart(bytes)[..|FirstPart(bytes)|] == FirstPart(bytes);
      ConsumeBufOk(Feed, Stops, t1.p, t1.buf.Append(FirstPart(bytes)));
    }
  }

  lemma {:induction false} SniffAllKeepsFirstParts(t: Tracker, chunks: seq<seq<byte>>)
    requires Ready(t)
    ensures SniffAll(t, chunks) == SniffAll(t, FirstParts(chunks))
    decreases |chunks|
  {
    if chunks != [] {
      SniffKeepsFirstPart(t, chunks[0]);
      assert FirstParts(chunks)[1..] == FirstParts(chunks[1..]);
      SniffAllKeepsFirstParts(SniffBytes(t, chunks[0]), chunks[1..]);
    }
  }

  /** Of any chunks, the tracker reads the first 4096 bytes of each, one after the other, and nothing else. */
  lemma SeesFirstParts(chunks: seq<seq<byte>>)
    requires chunks != []
    ensures SniffAll(IDLE, chunks).p == Parse(START, Concat(FirstParts(chunks))).0
  {
    var t0, kept := Tracker(START, EmptyBuf(POP3_BUFF), true), FirstParts(chunks);
    SniffAllKeepsFirstParts(IDLE, chunks);
    assert SniffAll(IDLE, kept) == SniffAll(t0, kept);
    SniffAllIsFeedChunks(t0, kept);
    ChunkIndependence(Feed, Stops, START, t0.buf, kept);
    assert [] + Concat(kept) == Concat(kept);
  }

  lemma PartIsFree(text: seq<byte>, word: seq<byte>, n: nat)
    requires FreeOf(text, word) && n <= |text|
    ensures FreeOf(text[..n], word)
  {
    forall i: nat | i < n
      ensures !OccursAt(text[..n], word, i)
    {
      assert i + |word| <= n ==> text[..n][i..i + |word|] == text[i..i + |word|];
      assert !OccursAt(text, word, i);
    }
  }

  /** A dialog received in one piece whose first command comes after 4096 bytes: neither credential is seen. */
  lemma LateCommandIsMissed(d: Dialog)
    requires d.Valid() && |d.ok + d.filler1| >= POP3_BUFF
    ensures var q := SniffAll(IDLE, [d.Text()]).p; q.state == UserCommand && q.user == [] && q.pass == []
  {
    var p1 := Pop3(UserCommand, 0, 5, 0, [], []);
    var n := POP3_BUFF - |d.ok|;
    var part := d.filler1[..n];
    assert FirstPart(d.Text()) == d.ok + part;
    assert Concat([FirstPart(d.Text())]) == FirstPart(d.Text()) && FirstParts([d.Text()]) == [FirstPart(d.Text())];
    SeesFirstParts([d.Text()]);
    ReadOk(START, d.ok);
    ReachesThen(START, d.ok, p1, part);
    PartIsFree(d.filler1, USER_WORD, n);
    assert [] + part == part && USER_WORD[..0] == [] == Lower([]);
    var k := SeekThroughFiller(p1, [], part);
  }

  lemma ConcatOfTwo(a: seq<byte>, b: seq<byte>)
    ensures Concat([a, b]) == a + b
  {
    var rest: seq<seq<byte>> := [b];
    assert [a, b][1..] == rest && rest[1..] == [];
    assert Concat(rest) == b + Concat([]);
  }

  lemma EmptyLinesAreFiller(lines: seq<byte>, word: seq<byte>)
    requires (forall i :: 0 <= i < |lines| ==> lines[i] == LF) && word != [] && word[0] != LF
    ensures Filler(lines, word)
  {
    forall i: nat | i < |lines|
      ensures !OccursAt(lines, word, i)
    {
      assert i + |word| <= |lines| ==> Lower(lines[i..i + |word|])[0] == ToLower(lines[i]);
    }
  }

  lemma WordsSpellThemselves()
    ensures Spells(OK_WORD, OK_WORD) && Spells(USER_WORD, USER_WORD) && Spells(PASS_WORD, PASS_WORD)
  {
    assert Lower(OK_WORD) == OK_WORD && Lower(USER_WORD) == USER_WORD && Lower(PASS_WORD) == PASS_WORD;
  }

  lemma AfterEmptyLines(lines: seq<byte>) returns (d: Dialog)
    requires forall i :: 0 <= i < |lines| ==> lines[i] == LF
    ensures d.Valid() && d.filler1 == lines && |d.Text()| == |lines| + 18
  {
    d := Dialog(OK_WORD, lines, USER_WORD, [], LF, [], PASS_WORD, [], LF, [], OK_WORD);
    EmptyLinesAreFiller(lines, USER_WORD);
    EmptyLinesAreFiller([], PASS_WORD);
    WordsSpellThemselves();
  }

  /** Such a dialog fits the relay's buffer of 5000 bytes; received in two pieces it would be tracked. */
  lemma CuttingMatters() returns (d: Dialog)
    ensures d.Valid() && POP3_BUFF < |d.Text()| <= 5000
    ensures SniffAll(IDLE, [d.Text()]).p.state == UserCommand
    ensures SniffAll(IDLE, [d.Text()[..POP3_BUFF], d.Text()[POP3_BUFF..]]).p.state == Successful
  {
    d := AfterEmptyLines(seq(POP3_BUFF, _ => LF));
    LateCommandIsMissed(d);
    var a, b := d.Text()[..POP3_BUFF], d.Text()[POP3_BUFF..];
    ConcatOfTwo(a, b);
    TracksDialogInChunks(d, [a, b]);
  }

  // ---------------------------------------------------------------------
  // After a refusal

  predicate Unrestored(p: Pop3) {
    p.state == UserCommand && p.read < 5 && p.remaining == if p.read == 0 then 0 else 256 - p.read
  }

  lemma UnrestoredByte(p: Pop3, c: byte)
    requires Unrestored(p)
    ensures Feed(p, c) == if ToLower(c) == USER_WORD[p.read] then p.(read := p.read + 1, remaining := 255 - p.read)
                          else if p.read != 0 then At(p, 0) else p
  {
  }

  lemma {:induction false} ReadUnrestored(p: Pop3, cmd: seq<byte>)
    requires Unrestored(p) && SpellsRest(cmd, USER_WORD, p.read)
    ensures Parse(p, cmd) == (p.(read := 5, remaining := 251), [])
    decreases |cmd|
  {
    SpellsNext(cmd, USER_WORD, p.read);
    ParseStep(p, cmd);
    UnrestoredByte(p, cmd[0]);
    if p.read < 4 {
      ReadUnrestored(p.(read := p.read + 1, remaining := 255 - p.read), cmd[1..]);
    }
  }

  lemma {:induction false} ReadErr(p: Pop3, err: seq<byte>)
    requires Checking(p) && p.read == 0 && SpellsRest(err, ERR_WORD, p.checkRead)
    ensures Parse(p, err) == (p.(state := UserCommand, checkRead := 4), [])
    decreases |err|
  {
    SpellsNext(err, ERR_WORD, p.checkRead);
    ParseStep(p, err);
    AnswerByte(p, err[0]);
    if p.checkRead < 3 {
      ReadErr(Feed(p, err[0]), err[1..]);
    }
  }

  lemma {:induction false} SkipGap(p: Pop3, gap: seq<byte>)
    requires p.state == UserCommand && p.read == 0 && forall c :: c in gap ==> ToLower(c) != USER_WORD[0]
    ensures Parse(p, gap) == (p, [])
    decreases |gap|
  {
    if gap != [] {
      ParseStep(p, gap);
      assert ToLower(gap[0]) != USER_WORD[0];
      SkipGap(p, gap[1..]);
    }
  }

  /** Text with the first character of "USER " somewhere. */
  predicate Restarts(gap: seq<byte>) {
    exists c :: c in gap && ToLower(c) == USER_WORD[0]
  }

  /** A match under way that the filler breaks: the counts are as at the start of the search again. */
  lemma {:induction false} BrokenMatchRestores(p: Pop3, seen: seq<byte>, s: seq<byte>)
    requires Unrestored(p) && EndsWithStart(seen, USER_WORD, p.read) && FreeOf(seen + s, USER_WORD)
    requires s != [] && s[|s| - 1] == LF && (p.read > 0 || Restarts(s))
    ensures Reaches(p, s, At(p, 0))
    decreases |s|
  {
    var c, later := s[0], s[1..];
    UnrestoredByte(p, c);
    assert (seen + [c]) + later == seen + s;
    if ToLower(c) == USER_WORD[p.read] {
      ExtendMatch(seen, USER_WORD, p.read, c);
      if p.read == 4 {
        FullMatchOccurs(seen + [c], USER_WORD, later);
        assert false;
      }
      var q := p.(read := p.read + 1, remaining := 255 - p.read);
      BrokenMatchRestores(q, seen + [c], later);
      StepReaches(p, s, q, At(p, 0));
    } else if p.read > 0 {
      NoMatchYet(seen + [c]);
      var k := SeekThroughFiller(At(p, 0), seen + [c], later);
      assert At(At(p, 0), k) == At(p, 0);
      StepReaches(p, s, At(p, 0), At(p, 0));
    } else {
      NoMatchYet(seen + [c]);
      assert s == [c] + later;
      BrokenMatchRestores(p, seen + [c], later);
      StepReaches(p, s, p, At(p, 0));
    }
  }

  lemma NoMatchYet(text: seq<byte>)
    ensures EndsWithStart(text, USER_WORD, 0)
  {
  }

  /** Where "-ERR" and the filler after it lead: the count is restored iff a match began in the filler. */
  lemma AfterErr(p: Pop3, err: seq<byte>, gap: seq<byte>)
    requires p.state == CheckCreds && p.read == p.checkRead == p.remaining == 0
    requires Spells(err, ERR_WORD) && Filler(gap, USER_WORD)
    ensures Reaches(p, err + gap, p.(state := UserCommand, checkRead := 4, remaining := if Restarts(gap) then 5 else 0))
  {
    var p1 := p.(state := UserCommand, checkRead := 4);
    ReadErr(p, err);
    GapAfterErr(p1, gap);
    ReachesThrough(p, err, p1, gap, p1.(remaining := if Restarts(gap) then 5 else 0));
  }

  lemma GapAfterErr(p: Pop3, gap: seq<byte>)
    requires Unrestored(p) && p.read == 0 && Filler(gap, USER_WORD)
    ensures Reaches(p, gap, p.(remaining := if Restarts(gap) then 5 else 0))
  {
    if Restarts(gap) {
      NoMatchYet([]);
      assert [] + gap == gap;
      BrokenMatchRestores(p, [], gap);
    } else {
      SkipGap(p, gap);
    }
  }

  /** Without such a match, "-ERR" leaves the count of missing characters at zero and the next "USER " goes by. */
  lemma CommandAfterErrIsMissed(p: Pop3, err: seq<byte>, gap: seq<byte>, cmd: seq<byte>)
    requires p.state == CheckCreds && p.read == p.checkRead == p.remaining == 0
    requires Spells(err, ERR_WORD) && Spells(cmd, USER_WORD) && !Restarts(gap)
    ensures Parse(p, err + (gap + cmd)) == (p.(state := UserCommand, checkRead := 4, read := 5, remaining := 251), [])
  {
    var p1 := p.(state := UserCommand, checkRead := 4);
    ReadErr(p, err);
    ReachesThen(p, err, p1, gap + cmd);
    SkipGap(p1, gap);
    ReachesThen(p1, gap, p1, cmd);
    ReadUnrestored(p1, cmd);
  }

  /** The command after "-ERR" is recognised iff the filler between them holds a 'u', in either case. */
  lemma CommandAfterErrIsFoundIff(p: Pop3, err: seq<byte>, gap: seq<byte>, cmd: seq<byte>)
    requires p.state == CheckCreds && p.read == p.checkRead == p.remaining == 0
    requires Spells(err, ERR_WORD) && Filler(gap, USER_WORD) && Spells(cmd, USER_WORD)
    ensures Parse(p, err + (gap + cmd)).0.state == ReadUser <==> Restarts(gap)
  {
    if Restarts(gap) {
      var p1 := p.(state := UserCommand, checkRead := 4, remaining := 5);
      AfterErr(p, err, gap);
      assert err + (gap + cmd) == (err + gap) + cmd;
      ReachesThen(p, err + gap, p1, cmd);
      ReadCommand(p1, cmd);
    } else {
      CommandAfterErrIsMissed(p, err, gap, cmd);
    }
  }

  /** Then the whole second attempt is tracked, and its credentials replace the first ones. */
  lemma SecondAttemptIsTracked(p: Pop3, err: seq<byte>, d: Dialog)
    requires p.state == CheckCreds && p.read == p.checkRead == p.remaining == 0
    requires Spells(err, ERR_WORD) && d.Valid() && Restarts(d.filler1)
    ensures var q := Parse(p, err + d.Attempt()).0; q.state == Successful && q.user == d.name && q.pass == d.secret
  {
    var later := d.userCmd + (d.name + [d.eol1]
                 + (d.filler2 + (d.passCmd + (d.secret + [d.eol2] + (d.filler3 + d.okAgain)))));
    var p1 := p.(state := UserCommand, checkRead := 4, remaining := 5);
    AfterErr(p, err, d.filler1);
    assert err + d.Attempt() == (err + d.filler1) + later;
    ReachesThen(p, err + d.filler1, p1, later);
    var q := d.(filler1 := []);
    assert [] + later == later && q.Attempt() == later;
    TracksAttempt(p1, q);
  }

  /** Credentials change only in the two reading states and on entry to them. */
  lemma CredentialsKept(p: Pop3, c: byte)
    ensures var q := Feed(p, c);
            && (p.state != ReadUser ==> q.user == if q.state == ReadUser then [] else p.user)
            && (p.state != ReadUser && q.state == ReadUser ==> q.read == 0)
            && (p.state != ReadPass ==> q.pass == if q.state == ReadPass then [] else p.pass)
            && (p.state != ReadPass && q.state == ReadPass ==> q.read == 0)
            && (p.state == ReadUser && p.read == |p.user| && q.state == ReadUser ==> q.read == |q.user|)
            && (p.state == ReadPass && p.read == |p.pass| && q.state == ReadPass ==> q.read == |q.pass|)
  {
  }

  // ---------------------------------------------------------------------
  // The structure updated byte by byte

  class Pop3Sniffer {
    var state: State
    const buffer: Buffer
    var user: array?<byte>
    var pass: array?<byte>
    var isParsing: bool
    var read: byte
    var remaining: byte
    var checkRead: byte

    /** The abstract value, kept in step by every method. */
    ghost var view: Tracker

    ghost predicate Valid()
      reads this, buffer, buffer.data, user, pass
    {
      && buffer.Valid() && buffer.data.Length == POP3_BUFF
      && view.buf == buffer.view && view.parsing == isParsing
      && view.p == Pop3(state, read, remaining, checkRead, view.p.user, view.p.pass)
      && if isParsing then Held() else user == null && pass == null && view == IDLE
    }

    /** The arrays hold the credentials read so far. */
    ghost predicate Held()
      reads this, buffer, user, pass
    {
      && user != null && pass != null && user.Length == pass.Length == CREDENTIALS_SIZE
      && user != pass && buffer.data != user && buffer.data != pass
      && view.p.user <= user[..] && (state == ReadUser ==> read == |view.p.user|)
      && view.p.pass <= pass[..] && (state == ReadPass ==> read == |view.p.pass|)
    }

    constructor ()
      ensures Valid() && view == IDLE && fresh(buffer) && fresh(buffer.data) && user == null && pass == null
    {
      buffer := new Buffer(POP3_BUFF);
      user, pass, state, read, remaining, checkRead, isParsing := null, null, Init, 0, 0, 0, false;
      view := IDLE;
    }

    /** Forgets whatever was tracked: new arrays, a rewound buffer. */
    method Reinit()
      requires Valid()
      modifies this, buffer
      ensures Valid() && user != null && pass != null && fresh(user) && fresh(pass)
      ensures view == Begun(old(view))
    {
      state, read, remaining, isParsing := Init, 0, 3, true;
      buffer.Reset();
      user, pass := new byte[CREDENTIALS_SIZE], new byte[CREDENTIALS_SIZE];
      view := Begun(view);
    }

    /** The step function's result, credentials aside. */
    ghost predicate Stepped(st: State, p: Pop3, c: byte)
      reads this
    {
      var q := Feed(p, c);
      st == q.state && read == q.read && remaining == q.remaining && checkRead == q.checkRead
    }

    method ReadOkMsg(c: byte) returns (st: State)
      requires Valid() && state == Init
      modifies this`read, this`remaining
      ensures Stepped(st, old(view.p), c)
    {
      st := Init;
      if ToLower(c) == CharAt(OK_WORD, read) {
        read, remaining := Inc(read), Dec(remaining);
        if remaining == 0 {
          st, read, remaining := UserCommand, 0, 5;
        }
      } else {
        st := Finish;
      }
    }

    /** One comparison against "USER " or "PASS ". */
    method ReadCommandByte(c: byte) returns (st: State)
      requires Valid() && (state == UserCommand || state == PassCommand)
      modifies this`read, this`remaining
      ensures Stepped(st, old(view.p), c)
    {
      var word := CommandWord(state);
      st := state;
      if read > |word| {
        st := Overrun;
      } else if ToLower(c) == CharAt(word, read) {
        read, remaining := Inc(read), Dec(remaining);
        if remaining == 0 {
          st, read := if state == UserCommand then ReadUser else ReadPass, 0;
        }
      } else if read != 0 {
        read, remaining := 0, 5;
      }
    }

    method ReadUserByte(c: byte) returns (st: State)
      requires Valid() && isParsing && state == ReadUser
      modifies this`read, this`remaining, this`checkRead, user
      ensures Stepped(st, old(view.p), c) && user != null && Feed(old(view.p), c).user <= user[..]
      ensures st == PassCommand ==> old(read) < user.Length && user[old(read)] == 0
    {
      st := ReadUser;
      if c != LF && c != CR {
        if read < CREDENTIALS_SIZE {
          user[read] := c;
          read := Inc(read);
        }
      } else if read < CREDENTIALS_SIZE {
        user[read] := 0;
        read, remaining, checkRead, st := 0, 5, 0, PassCommand;
      } else {
        st := Overrun;
      }
    }

    method ReadPassByte(c: byte) returns (st: State)
      requires Valid() && isParsing && state == ReadPass
      modifies this`read, this`checkRead, pass
      ensures Stepped(st, old(view.p), c) && pass != null && Feed(old(view.p), c).pass <= pass[..]
      ensures st == CheckCreds ==> old(read) < pass.Length && pass[old(read)] == 0
    {
      st := ReadPass;
      if c != LF && c != CR {
        if read < CREDENTIALS_SIZE {
          pass[read] := c;
          read := Inc(read);
        }
      } else if read < CREDENTIALS_SIZE {
        pass[read] := 0;
        read, checkRead, st := 0, 0, CheckCreds;
      } else {
        st := Overrun;
      }
    }

    method CheckResponse(c: byte) returns (st: State)
      requires Valid() && state == CheckCreds
      modifies this`read, this`checkRead
      ensures Stepped(st, old(view.p), c)
    {
      st := CheckCreds;
      if ToLower(c) == CharAt(OK_WORD, read) {
        read := Inc(read);
        if read == |OK_WORD| {
          st := Successful;
        }
      } else if ToLower(c) == CharAt(ERR_WORD, checkRead) {
        checkRead := Inc(checkRead);
        if checkRead == |ERR_WORD| {
          st := UserCommand;
        }
      }
    }

    method ParseByte(c: byte)
      requires Valid() && isParsing
      modifies this, user, pass
      ensures Valid() && isParsing && user == old(user) && pass == old(pass)
      ensures view == old(view).(p := Feed(old(view.p), c))
    {
      CredentialsKept(view.p, c);
      ghost var p1 := Feed(view.p, c);
      match state {
        case Init => state := ReadOkMsg(c);
        case UserCommand => state := ReadCommandByte(c);
        case ReadUser => state := ReadUserByte(c);
        case PassCommand => state := ReadCommandByte(c);
        case ReadPass => state := ReadPassByte(c);
        case CheckCreds => state := CheckResponse(c);
        case _ =>
      }
      view := view.(p := p1);
    }

    /** One turn of the loop below. */
    method ConsumeByte()
      requires Valid() && isParsing && buffer.view.content != []
      modifies this, buffer, buffer.data, user, pass
      ensures Valid() && isParsing && user == old(user) && pass == old(pass)
      ensures view == old(view).(p := Feed(old(view.p), old(view.buf.content[0])), buf := old(view.buf).Advance(1))
    {
      var c := buffer.Read();
      view := view.(buf := buffer.view);
      ParseByte(c);
    }

    method ConsumeBuffer()
      requires Valid() && isParsing && !Stops(view.p)
      modifies this, buffer, buffer.data, user, pass
      ensures Valid() && isParsing && user == old(user) && pass == old(pass)
      ensures var (p, b) := ConsumeBuf(Feed, Stops, old(view.p), old(view.buf)); view == old(view).(p := p, buf := b)
    {
      while buffer.CanRead() && !state.Finish? && !state.Successful? && !state.Overrun?
        invariant Valid() && isParsing && user == old(user) && pass == old(pass)
        invariant view.parsing == old(view.parsing)
        invariant if Stops(view.p) then (view.p, view.buf) == ConsumeBuf(Feed, Stops, old(view.p), old(view.buf))
                  else ConsumeBuf(Feed, Stops, view.p, view.buf) == ConsumeBuf(Feed, Stops, old(view.p), old(view.buf))
        decreases |view.buf.content|
      {
        ConsumeBufStep(Feed, Stops, view.p, view.buf);
        ConsumeByte();
      }
      if !Stops(view.p) {
        ConsumeBufEmpty(Feed, Stops, view.p, view.buf);
      }
    }

    /** What the relay hands over: copied as far as it fits, then consumed. */
    method Sniff(bytes: seq<byte>)
      requires Valid()
      modifies this, buffer, buffer.data, user, pass
      ensures Valid() && user != null && pass != null
      ensures (user == old(user) || fresh(user)) && (pass == old(pass) || fresh(pass))
      ensures view == SniffBytes(old(view), bytes)
    {
      if !isParsing {
        Reinit();
      }
      if !state.Finish? && !state.Successful? && !state.Overrun? {
        Copy(bytes);
        ConsumeBuffer();
      }
    }

    /** As much as fits. */
    method Copy(bytes: seq<byte>)
      requires Valid() && isParsing
      modifies this`view, buffer, buffer.data
      ensures Valid()
      ensures view == old(view).(buf := old(view.buf).Append(bytes[..Min(|bytes|, old(view.buf.Room()))]))
    {
      var count := buffer.data.Length - buffer.write;
      var n := if |bytes| <= count then |bytes| else count;
      buffer.Store(bytes[..n]);
      buffer.WriteAdv(n);
      view := view.(buf := buffer.view);
    }
  }
}
