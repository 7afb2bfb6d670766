/** The bounded table of proxy users (src/parameters.c). */
module Parameters {
  import opened Base

  const MAX_USERS := 10
  const MAX_CREDENTIALS_LEN := 50

  /** The bytes of a C string, terminator excluded. */
  type CString = s: seq<byte> | 0 !in s witness []

  datatype User = User(name: CString, pass: CString)

  /** What strcmp sees of an array that holds `s` and a terminator. */
  function CStr(s: seq<byte>): (r: CString)
    ensures r <= s && (|r| == |s| || s[|r|] == 0)
  {
    if s == [] || s[0] == 0 then []
    else
      var t: seq<byte> := CStr(s[1..]);
      [s[0]] + t
  }

  /** An array that holds `s` and its terminator reads as `s` does. */
  lemma {:induction false} TerminatorIsNotSeen(s: seq<byte>)
    ensures CStr(s + [0]) == CStr(s)
    decreases |s|
  {
    if s != [] {
      assert (s + [0])[1..] == s[1..] + [0];
      TerminatorIsNotSeen(s[1..]);
    }
  }

  /** Some entry of the table is exactly this pair. */
  predicate Accepted(users: seq<User>, name: seq<byte>, pass: seq<byte>) {
    exists i :: 0 <= i < |users| && users[i].name == CStr(name) && users[i].pass == CStr(pass)
  }

  datatype AddResult = Added | TableFull | TooLong

  function AddUserResult(users: seq<User>, name: CString, pass: CString): AddResult {
    if |pass| > MAX_CREDENTIALS_LEN || |name| > MAX_CREDENTIALS_LEN then TooLong
    else if |users| < MAX_USERS then Added
    else TableFull
  }

  function UsersAfter(users: seq<User>, name: CString, pass: CString): seq<User> {
    if AddUserResult(users, name, pass) == Added then users + [User(name, pass)] else users
  }

  /** Adding a user revokes nothing, and when it succeeds exactly the new pair becomes accepted too. */
  lemma AddUserOnlyExtends(users: seq<User>, newName: CString, newPass: CString, name: seq<byte>, pass: seq<byte>)
    ensures Accepted(UsersAfter(users, newName, newPass), name, pass) <==>
            || Accepted(users, name, pass)
            || (AddUserResult(users, newName, newPass) == Added && CStr(name) == newName && CStr(pass) == newPass)
  {
    var after := UsersAfter(users, newName, newPass);
    assert users <= after;
    if Accepted(users, name, pass) {
      var i :| 0 <= i < |users| && users[i].name == CStr(name) && users[i].pass == CStr(pass);
      assert after[i] == users[i];
    }
    if AddUserResult(users, newName, newPass) == Added {
      assert after[|users|] == User(newName, newPass);
    }
  }

  class Params {
    const users: array<User>
    var userCount: nat

    ghost predicate Valid()
      reads this
    {
      users.Length == MAX_USERS && userCount <= MAX_USERS
    }

    ghost function Table(): seq<User>
      requires Valid()
      reads this, users
    {
      users[..userCount]
    }

    constructor ()
      ensures Valid() && Table() == []
    {
      users := new User[MAX_USERS](_ => User([], []));
      userCount := 0;
    }

    method AddUser(name: CString, pass: CString) returns (r: int)
      requires Valid()
      modifies this, users
      ensures Valid() && Table() == UsersAfter(old(Table()), name, pass)
      ensures r == match AddUserResult(old(Table()), name, pass) case Added => 0 case TableFull => -1 case TooLong => -2
    {
      if |pass| > MAX_CREDENTIALS_LEN || |name| > MAX_CREDENTIALS_LEN {
        return -2;
      }
      if userCount < MAX_USERS {
        users[userCount] := User(name, pass);
        userCount := userCount + 1;
        return 0;
      }
      return -1;
    }

    method AuthenticateUser(name: seq<byte>, pass: seq<byte>) returns (ok: bool)
      requires Valid()
      ensures ok <==> Accepted(Table(), name, pass)
    {
      for i := 0 to userCount
        invariant forall k: nat :: k < i ==> !(users[k].name == CStr(name) && users[k].pass == CStr(pass))
      {
        if CStr(name) == users[i].name && CStr(pass) == users[i].pass {
          assert Table()[i] == users[i];
          return true;
        }
      }
      return false;
    }
  }
}
