/** The mock authentication service: credential lookup, registration with
    unique e-mail addresses, and the token that carries a user's `Id`. */
module AuthService {

  import opened Wrappers
  import opened Text
  import opened Collections

  /** A stored user; the password is kept alongside the public fields. */
  datatype User = User(
    Id: int,
    email: string,
    password: string,
    firstName: string,
    lastName: string,
    createdAt: int)

  /** A user as the service hands it out: everything but the password. */
  datatype PublicUser = PublicUser(
    Id: int,
    email: string,
    firstName: string,
    lastName: string,
    createdAt: int)

  datatype Session = Session(user: PublicUser, token: string)

  /** `const { password, ...rest } = user`. */
  function WithoutPassword(u: User): (p: PublicUser)
    ensures p.Id == u.Id && p.email == u.email && p.firstName == u.firstName
    ensures p.lastName == u.lastName && p.createdAt == u.createdAt
  {
    PublicUser(u.Id, u.email, u.firstName, u.lastName, u.createdAt)
  }

  const TokenPrefix := "mock-jwt-token-"

  /** `mock-jwt-token-${id}`. */
  function TokenFor(id: int): (t: string)
    ensures |TokenPrefix| <= |t| && t[..|TokenPrefix|] == TokenPrefix
  {
    TokenPrefix + IntToString(id)
  }

  /** `parseInt(token.split('-').pop())`; `None` is `NaN`. */
  function TokenId(token: string): Option<int> {
    ParseInt(LastSegment(token, '-'))
  }

  /** A token names back the non-negative `Id` it was made from. */
  lemma TokenRoundTrip(id: nat)
    ensures TokenId(TokenFor(id)) == Some(id)
  {
    NatToStringDigits(id);
    assert forall k :: 0 <= k < |NatToString(id)| ==> NatToString(id)[k] != '-';
    assert TokenFor(id) == "mock-jwt-token" + ['-'] + NatToString(id);
    LastSegmentAfter("mock-jwt-token", '-', NatToString(id));
    ParseIntOfNatToString(id);
  }

  /** For a negative `Id` the minus sign is taken for a separator, so the
      token names the opposite number. */
  lemma NegativeIdMisread()
    ensures TokenId(TokenFor(-5)) == Some(5)
  {
    assert TokenFor(-5) == TokenPrefix + ['-'] + "5";
    LastSegmentAfter(TokenPrefix, '-', "5");
    ParseIntOfNatToString(5);
  }

  /** `users.find(u => u.email === email && u.password === password)`, as
      an index. */
  function FindCredentials(users: seq<User>, email: string, password: string): (r: Option<nat>)
    ensures r.Some? ==> r.value < |users| && users[r.value].email == email && users[r.value].password == password
    ensures r.Some? ==> forall j :: 0 <= j < r.value ==> !(users[j].email == email && users[j].password == password)
    ensures r.None? ==> forall j :: 0 <= j < |users| ==> !(users[j].email == email && users[j].password == password)
  {
    if users == [] then None
    else if users[0].email == email && users[0].password == password then Some(0)
    else
      var r := FindCredentials(users[1..], email, password);
      if r.Some? then Some(r.value + 1) else None
  }

  /** `users.find(u => u.Id === id)`, as an index. */
  function FindById(users: seq<User>, id: int): (r: Option<nat>)
    ensures r.Some? ==> r.value < |users| && users[r.value].Id == id
    ensures r.Some? ==> forall j :: 0 <= j < r.value ==> users[j].Id != id
    ensures r.None? ==> forall j :: 0 <= j < |users| ==> users[j].Id != id
  {
    if users == [] then None
    else if users[0].Id == id then Some(0)
    else
      var r := FindById(users[1..], id);
      if r.Some? then Some(r.value + 1) else None
  }

  /** `users.find(u => u.email === email)`, as an index. */
  function FindByEmail(users: seq<User>, email: string): (r: Option<nat>)
    ensures r.Some? ==> r.value < |users| && users[r.value].email == email
    ensures r.None? ==> forall j :: 0 <= j < |users| ==> users[j].email != email
  {
    if users == [] then None
    else if users[0].email == email then Some(0)
    else
      var r := FindByEmail(users[1..], email);
      if r.Some? then Some(r.value + 1) else None
  }

  /** `login({ email, password })`. */
  function Login(users: seq<User>, email: string, password: string): (r: Result<Session>)
    ensures r.Ok? <==> exists i :: 0 <= i < |users| && users[i].email == email && users[i].password == password
    ensures r.Err? ==> r.message == "Invalid email or password"
    ensures r.Ok? ==> exists i :: 0 <= i < |users| && users[i].email == email && users[i].password == password
                       && r.value.user == WithoutPassword(users[i]) && r.value.token == TokenFor(users[i].Id)
  {
    var i := FindCredentials(users, email, password);
    if i.None? then Err("Invalid email or password")
    else
      var u := users[i.value];
      Ok(Session(WithoutPassword(u), TokenFor(u.Id)))
  }

  /** `validateToken(token)`. */
  function ValidateToken(users: seq<User>, token: string): (r: Result<PublicUser>)
    ensures r.Ok? <==> TokenId(token).Some? && exists i :: 0 <= i < |users| && users[i].Id == TokenId(token).value
    ensures r.Err? ==> r.message == "Invalid token"
    ensures r.Ok? ==> exists i :: 0 <= i < |users| && users[i].Id == TokenId(token).value
                       && r.value == WithoutPassword(users[i])
  {
    var id := TokenId(token);
    if id.None? then Err("Invalid token")
    else
      var i := FindById(users, id.value);
      if i.None? then Err("Invalid token") else Ok(WithoutPassword(users[i.value]))
  }

  predicate UniqueEmails(users: seq<User>) {
    forall i, j :: 0 <= i < j < |users| ==> users[i].email != users[j].email
  }

  predicate UniqueIds(users: seq<User>) {
    UniqueKeys(users, (u: User) => u.Id)
  }

  /** The user a token names is found before any other with that `Id`. */
  lemma ValidateFound(users: seq<User>, i: nat)
    requires i < |users| && users[i].Id >= 0
    requires forall j :: 0 <= j < i ==> users[j].Id != users[i].Id
    ensures ValidateToken(users, TokenFor(users[i].Id)) == Ok(WithoutPassword(users[i]))
  {
    TokenRoundTrip(users[i].Id);
    var f := FindById(users, users[i].Id);
    assert f.Some?;
    assert f.value == i;
  }

  /** The token of a successful login validates to the same user, when
      `Id`s are unique and the user's is not negative. */
  lemma ValidateAfterLogin(users: seq<User>, email: string, password: string)
    requires UniqueIds(users)
    requires Login(users, email, password).Ok?
    requires forall i :: 0 <= i < |users| ==> users[i].Id >= 0
    ensures ValidateToken(users, Login(users, email, password).value.token)
            == Ok(Login(users, email, password).value.user)
  {
    var i := FindCredentials(users, email, password).value;
    ValidateFound(users, i);
  }

  predicate EmailTaken(users: seq<User>, email: string) {
    exists i :: 0 <= i < |users| && users[i].email == email
  }

  /** The user `register` stores: one past the largest `Id`. */
  function NewUser(users: seq<User>, email: string, password: string,
                   firstName: string, lastName: string, now: int): (u: User)
    requires users != []
    ensures u.Id == MaxKey(users, (x: User) => x.Id) + 1
    ensures forall i :: 0 <= i < |users| ==> users[i].Id < u.Id
    ensures exists i :: 0 <= i < |users| && users[i].Id == u.Id - 1
    ensures u.email == email && u.password == password
    ensures u.firstName == firstName && u.lastName == lastName && u.createdAt == now
  {
    User(MaxKey(users, (u: User) => u.Id) + 1, email, password, firstName, lastName, now)
  }

  /** `mockUsers` and the registration over it. */
  class UserStore {
    var users: seq<User>

    constructor (initial: seq<User>)
      ensures users == initial
    {
      users := initial;
    }

    /** `register(userData)`, with the clock passed in. */
    method Register(email: string, password: string, firstName: string, lastName: string, now: int)
      returns (r: Result<Session>)
      requires users != []
      modifies this
      ensures EmailTaken(old(users), email) ==>
                r == Err("User already exists with this email") && users == old(users)
      ensures !EmailTaken(old(users), email) ==>
                var u := NewUser(old(users), email, password, firstName, lastName, now);
                users == old(users) + [u] && r == Ok(Session(WithoutPassword(u), TokenFor(u.Id)))
    {
      if FindByEmail(users, email).Some? {
        return Err("User already exists with this email");
      }
      var u := NewUser(users, email, password, firstName, lastName, now);
      users := users + [u];
      r := Ok(Session(WithoutPassword(u), TokenFor(u.Id)));
    }
  }

  /** Registering a fresh e-mail keeps e-mail addresses unique. */
  lemma RegisterKeepsEmailsUnique(users: seq<User>, email: string, password: string,
                                  firstName: string, lastName: string, now: int)
    requires users != [] && UniqueEmails(users) && !EmailTaken(users, email)
    ensures UniqueEmails(users + [NewUser(users, email, password, firstName, lastName, now)])
  {
  }

  /** Registering keeps `Id`s unique. */
  lemma RegisterKeepsIdsUnique(users: seq<User>, email: string, password: string,
                               firstName: string, lastName: string, now: int)
    requires users != [] && UniqueIds(users)
    ensures UniqueIds(users + [NewUser(users, email, password, firstName, lastName, now)])
  {
    var u := NewUser(users, email, password, firstName, lastName, now);
    var s := users + [u];
    forall i, j | 0 <= i < j < |s| ensures s[i].Id != s[j].Id {
      if j == |users| {
        assert s[i] == users[i];
      } else {
        assert s[i] == users[i] && s[j] == users[j];
      }
    }
  }

  /** After registering, logging in with the same e-mail and password
      succeeds and yields the new user and its token. */
  lemma LoginAfterRegister(users: seq<User>, email: string, password: string,
                           firstName: string, lastName: string, now: int)
    requires users != [] && !EmailTaken(users, email)
    ensures var u := NewUser(users, email, password, firstName, lastName, now);
      Login(users + [u], email, password) == Ok(Session(WithoutPassword(u), TokenFor(u.Id)))
  {
    var u := NewUser(users, email, password, firstName, lastName, now);
    var s := users + [u];
    var f := FindCredentials(s, email, password);
    assert s[|users|] == u;
    assert f.Some?;
  }

  /** The token `register` hands out validates to the new user, when the
      stored `Id`s are not negative. */
  lemma ValidateAfterRegister(users: seq<User>, email: string, password: string,
                              firstName: string, lastName: string, now: int)
    requires users != [] && forall i :: 0 <= i < |users| ==> users[i].Id >= 0
    ensures var u := NewUser(users, email, password, firstName, lastName, now);
      ValidateToken(users + [u], TokenFor(u.Id)) == Ok(WithoutPassword(u))
  {
    var u := NewUser(users, email, password, firstName, lastName, now);
    var s := users + [u];
    assert s[|users|] == u;
    assert users[0].Id < u.Id;
    forall j | 0 <= j < |users| ensures s[j].Id != u.Id {
      assert s[j] == users[j];
    }
    ValidateFound(s, |users|);
  }
}
