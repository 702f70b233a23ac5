/** The mock authentication service: a users table kept in browser storage,
    plus the stored token and current user that mark a session. */
module MockAuth {
  import opened Wrappers
  import opened JournalTypes
  import opened Seqs

  /** A registered user as the table stores it, password included. */
  datatype UserRecord = UserRecord(id: Id, username: string, email: string, password: string)

  datatype AuthResponse = AuthResponse(user: User, token: string)

  const EmailTaken := "此 Email 已經被註冊過了！"
  const BadCredentials := "帳號或密碼錯誤"
  const TokenPrefix := "mock-jwt-token-"

  /** The user as returned to callers: the record without its password. */
  function PublicOf(r: UserRecord): User {
    User(r.id, r.username, r.email)
  }

  function DigitChar(d: nat): char
    requires d < 10
  {
    "0123456789"[d]
  }

  predicate IsDigit(c: char) {
    '0' <= c <= '9'
  }

  /** The decimal text of a number, as a template literal prints it. */
  function Decimal(n: nat): (s: string)
    ensures s != [] && forall i :: 0 <= i < |s| ==> IsDigit(s[i])
  {
    if n < 10 then [DigitChar(n)] else Decimal(n / 10) + [DigitChar(n % 10)]
  }

  /** The number a string of decimal digits denotes. */
  function DecimalValue(s: string): nat
    requires forall i :: 0 <= i < |s| ==> IsDigit(s[i])
  {
    if s == [] then 0
    else
      assert IsDigit(s[|s| - 1]);
      10 * DecimalValue(s[..|s| - 1]) + (s[|s| - 1] as int - '0' as int)
  }

  /** The decimal text reads back as the number it was made from. */
  lemma {:induction false} DecimalRoundTrip(n: nat)
    ensures DecimalValue(Decimal(n)) == n
  {
    if n >= 10 {
      DecimalRoundTrip(n / 10);
      var s := Decimal(n);
      assert s[..|s| - 1] == Decimal(n / 10);
    }
  }

  /** `mock-jwt-token-${id}-${Date.now()}`. */
  function TokenFor(id: Id, now: nat): (t: string)
    ensures TokenPrefix <= t && t != ""
  {
    TokenPrefix + id + "-" + Decimal(now)
  }

  /** Two sessions of the same user started at different times get different tokens. */
  lemma TokensDiffer(id: Id, t1: nat, t2: nat)
    requires t1 != t2
    ensures TokenFor(id, t1) != TokenFor(id, t2)
  {
    var p := TokenPrefix + id + "-";
    if TokenFor(id, t1) == TokenFor(id, t2) {
      assert Decimal(t1) == TokenFor(id, t1)[|p|..];
      assert Decimal(t2) == TokenFor(id, t2)[|p|..];
      DecimalRoundTrip(t1);
      DecimalRoundTrip(t2);
    }
  }

  /** `users.find(u => u.email === email)`: the position of the first match, or |users|. */
  function IndexOfEmail(users: seq<UserRecord>, email: string): (i: nat)
    ensures i <= |users|
    ensures i < |users| ==> users[i].email == email
    ensures i == |users| <==> forall u :: u in users ==> u.email != email
  {
    FirstIndex(users, (u: UserRecord) => u.email == email)
  }

  /** `users.find(u => u.email === email && u.password === password)`. */
  function IndexOfCredentials(users: seq<UserRecord>, email: string, password: string): (i: nat)
    ensures i <= |users|
    ensures i < |users| ==> users[i].email == email && users[i].password == password
    ensures i == |users| <==> forall u :: u in users ==> !(u.email == email && u.password == password)
  {
    FirstIndex(users, (u: UserRecord) => u.email == email && u.password == password)
  }

  class AuthService {
    var users: seq<UserRecord>
    var token: Option<string>
    var currentUser: Option<User>

    /** Emails and ids are unique in the table, and a session is a token
        together with a current user taken from the table. */
    ghost predicate Valid()
      reads this
    {
      && (forall i, j :: 0 <= i < j < |users| ==> users[i].email != users[j].email && users[i].id != users[j].id)
      && (token.Some? <==> currentUser.Some?)
      && (token.Some? ==> token.value != "")
      && (currentUser.Some? ==> exists i :: 0 <= i < |users| && PublicOf(users[i]) == currentUser.value)
    }

    constructor ()
      ensures Valid() && users == [] && token == None && currentUser == None
    {
      users, token, currentUser := [], None, None;
    }

    /** `getCurrentUser`: the stored user, `null` when none is stored. */
    function GetCurrentUser(): (r: Option<User>)
      reads this
      ensures r.None? <==> currentUser.None?
      ensures r.Some? ==> r == currentUser
      ensures Valid() && r.Some? ==> exists i :: 0 <= i < |users| && PublicOf(users[i]) == r.value
      ensures Valid() ==> (r.Some? <==> IsAuthenticated())
    {
      currentUser
    }

    /** `isAuthenticated`: a non-empty token is stored. */
    predicate IsAuthenticated()
      reads this
    {
      token.Some? && token.value != ""
    }

    /** In a valid state a session exists exactly when a current user is stored. */
    lemma SessionIsCurrentUser()
      requires Valid()
      ensures IsAuthenticated() <==> GetCurrentUser().Some?
    {
    }

    /** `register`: a taken email throws and changes nothing; otherwise exactly
        one user is appended and a session for them starts. */
    method Register(username: string, email: string, password: string, freshId: Id, now: nat)
      returns (r: Result<AuthResponse, string>)
      requires Valid()
      requires forall u :: u in users ==> u.id != freshId
      modifies this
      ensures Valid()
      ensures (exists u :: u in old(users) && u.email == email) ==>
        r == Failure(EmailTaken) && users == old(users) && token == old(token) && currentUser == old(currentUser)
      ensures (forall u :: u in old(users) ==> u.email != email) ==>
        && users == old(users) + [UserRecord(freshId, username, email, password)]
        && r == Success(AuthResponse(User(freshId, username, email), TokenFor(freshId, now)))
        && token == Some(r.value.token) && currentUser == Some(r.value.user)
        && IsAuthenticated()
    {
      var i := IndexOfEmail(users, email);
      if i < |users| {
        return Failure(EmailTaken);
      }
      var record := UserRecord(freshId, username, email, password);
      users := users + [record];
      assert PublicOf(users[|users| - 1]) == User(freshId, username, email);
      var t := TokenFor(freshId, now);
      token, currentUser := Some(t), Some(PublicOf(record));
      r := Success(AuthResponse(PublicOf(record), t));
    }

    /** `login`: succeeds exactly when some stored user has this email and this
        password, and then starts a session for that user; otherwise it throws
        and changes nothing. */
    method Login(email: string, password: string, now: nat) returns (r: Result<AuthResponse, string>)
      requires Valid()
      modifies this
      ensures Valid() && users == old(users)
      ensures r.Success? <==> exists u :: u in users && u.email == email && u.password == password
      ensures r.Failure? ==> r.error == BadCredentials && token == old(token) && currentUser == old(currentUser)
      ensures r.Success? ==>
        && r.value.user.email == email
        && (exists u :: u in users && u.email == email && u.password == password && PublicOf(u) == r.value.user)
        && r.value.token == TokenFor(r.value.user.id, now)
        && token == Some(r.value.token) && currentUser == Some(r.value.user)
        && IsAuthenticated()
    {
      var i := IndexOfCredentials(users, email, password);
      if i == |users| {
        return Failure(BadCredentials);
      }
      var u := users[i];
      var t := TokenFor(u.id, now);
      token, currentUser := Some(t), Some(PublicOf(u));
      r := Success(AuthResponse(PublicOf(u), t));
    }

    /** `logout`: the token and the current user are removed. */
    method Logout()
      requires Valid()
      modifies this
      ensures Valid() && users == old(users)
      ensures token == None && currentUser == None
      ensures !IsAuthenticated() && GetCurrentUser() == None
    {
      token, currentUser := None, None;
    }
  }
}
