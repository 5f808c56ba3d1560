/** Player accounts (`UserService`): registration with unique username and
    email, the profile lookup, and the partial update of the two balances.
    The password encoder is a function the service is given; what it
    computes is not modelled. */
module Users {
  import opened Wrappers
  import opened Entities

  /** The account as the API returns it: no password hash. */
  datatype UserDto = UserDto(
    id: int,
    username: string,
    email: string,
    coins: int,
    gems: int,
    experiencePoints: int,
    level: int)

  function ToUserDto(u: User): UserDto
  {
    UserDto(u.id, u.username, u.email, u.coins, u.gems, u.experiencePoints, u.level)
  }

  /** `existsByUsername`. */
  predicate UsernameTaken(users: seq<User>, username: string)
  {
    exists i :: 0 <= i < |users| && users[i].username == username
  }

  /** `existsByEmail`. */
  predicate EmailTaken(users: seq<User>, email: string)
  {
    exists i :: 0 <= i < |users| && users[i].email == email
  }

  /** `userRepository.findByUsername`: the account with this username. */
  function FirstNamed(users: seq<User>, username: string): (r: Option<User>)
    ensures r.Some? <==> UsernameTaken(users, username)
    ensures r.Some? ==> r.value in users && r.value.username == username
  {
    if users == [] then None
    else if users[0].username == username then Some(users[0])
    else
      var r := FirstNamed(users[1..], username);
      assert UsernameTaken(users[1..], username) ==> UsernameTaken(users, username) by {
        if UsernameTaken(users[1..], username) {
          var i :| 0 <= i < |users[1..]| && users[1..][i].username == username;
          assert users[i + 1].username == username;
        }
      }
      r
  }

  /** Ids, usernames and emails each name at most one account. */
  predicate UniqueAccounts(users: seq<User>)
  {
    forall i, j :: 0 <= i < j < |users| ==>
      users[i].id != users[j].id && users[i].username != users[j].username && users[i].email != users[j].email
  }

  /** The checks of `createUser`, in order: the username first. */
  function RegistrationCheck(users: seq<User>, username: string, email: string): (r: Result<()>)
    ensures r.Ok? <==> !UsernameTaken(users, username) && !EmailTaken(users, email)
    ensures UsernameTaken(users, username) ==> r == Err(Runtime("Username already exists"))
    ensures !UsernameTaken(users, username) && EmailTaken(users, email) ==> r == Err(Runtime("Email already exists"))
  {
    if UsernameTaken(users, username) then Err(Runtime("Username already exists"))
    else if EmailTaken(users, email) then Err(Runtime("Email already exists"))
    else Ok(())
  }

  /** An account that passed the checks, under an unused id, keeps ids,
      usernames and emails unique. */
  lemma RegistrationKeepsUnique(users: seq<User>, u: User)
    requires UniqueAccounts(users)
    requires RegistrationCheck(users, u.username, u.email).Ok?
    requires forall i :: 0 <= i < |users| ==> users[i].id != u.id
    ensures UniqueAccounts(users + [u])
  {
    forall i | 0 <= i < |users|
      ensures users[i].username != u.username && users[i].email != u.email
    {
      assert !UsernameTaken(users, u.username);
    }
  }

  /** A registered username cannot register again, whatever the email. */
  lemma UsernameRegisteredOnce(users: seq<User>, u: User, email: string)
    ensures RegistrationCheck(users + [u], u.username, email) == Err(Runtime("Username already exists"))
  {
    assert (users + [u])[|users|].username == u.username;
  }

  /** `updateUserCurrency` on the record: a given value is stored as it is,
      negative or not; an absent one leaves that balance alone. */
  function CurrencyUpdated(u: User, coins: Option<int>, gems: Option<int>): (r: User)
    ensures coins.Some? ==> r.coins == coins.value
    ensures coins.None? ==> r.coins == u.coins
    ensures gems.Some? ==> r.gems == gems.value
    ensures gems.None? ==> r.gems == u.gems
    ensures r.id == u.id && r.username == u.username && r.email == u.email &&
            r.passwordHash == u.passwordHash && r.experiencePoints == u.experiencePoints && r.level == u.level
  {
    var withCoins := if coins.Some? then u.(coins := coins.value) else u;
    if gems.Some? then withCoins.(gems := gems.value) else withCoins
  }

  /** Applying the same update twice is applying it once, and an update with
      neither value changes nothing. */
  lemma CurrencyUpdateIdempotent(u: User, coins: Option<int>, gems: Option<int>)
    ensures CurrencyUpdated(CurrencyUpdated(u, coins, gems), coins, gems) == CurrencyUpdated(u, coins, gems)
    ensures CurrencyUpdated(u, None, None) == u
  {
  }

  class UserService {
    var users: seq<User>
    var nextId: int
    /** `passwordEncoder.encode`. */
    const encode: string -> string

    ghost predicate Valid()
      reads this
    {
      UniqueAccounts(users) && forall i :: 0 <= i < |users| ==> users[i].id < nextId
    }

    constructor (encode: string -> string)
      ensures Valid() && users == [] && this.encode == encode
    {
      users := [];
      nextId := 1;
      this.encode := encode;
    }

    /** `createUser`: a new account with the encoded password and the
        entity's defaults, saved under a fresh id. */
    method CreateUser(username: string, email: string, password: string) returns (r: Result<UserDto>)
      requires Valid()
      modifies this`users, this`nextId
      ensures Valid()
      ensures var check := RegistrationCheck(old(users), username, email);
        (check.Err? ==> r == Err(check.error) && users == old(users)) &&
        (check.Ok? ==>
          var u := NewUser(old(nextId), username, email, encode(password));
          users == old(users) + [u] && r == Ok(ToUserDto(u)))
    {
      var check := RegistrationCheck(users, username, email);
      if check.Err? {
        return Err(check.error);
      }
      var u := NewUser(nextId, username, email, encode(password));
      RegistrationKeepsUnique(users, u);
      users := users + [u];
      nextId := nextId + 1;
      r := Ok(ToUserDto(u));
    }

    /** `findByUsername`. */
    function FindByUsername(username: string): (r: Option<User>)
      reads this
      ensures r.Some? <==> UsernameTaken(users, username)
      ensures r.Some? ==> r.value in users && r.value.username == username
    {
      FirstNamed(users, username)
    }

    /** `findById`. */
    function FindById(id: int): (r: Option<User>)
      reads this
      ensures r.None? <==> forall i :: 0 <= i < |users| ==> users[i].id != id
      ensures r.Some? ==> r.value in users && r.value.id == id
    {
      var k := UserIndex(users, id);
      if k < 0 then None else Some(users[k])
    }

    /** `getUserProfile`. */
    function GetUserProfile(userId: int): (r: Result<UserDto>)
      reads this
      ensures r.Err? <==> forall i :: 0 <= i < |users| ==> users[i].id != userId
      ensures r.Err? ==> r.error == Runtime("User not found")
      ensures r.Ok? ==> exists i :: 0 <= i < |users| && users[i].id == userId && r.value == ToUserDto(users[i])
    {
      var k := UserIndex(users, userId);
      if k < 0 then Err(Runtime("User not found")) else Ok(ToUserDto(users[k]))
    }

    /** `updateUserCurrency`: only the account with this id changes, and only
        in the balances given. */
    method UpdateUserCurrency(userId: int, coins: Option<int>, gems: Option<int>) returns (r: Result<UserDto>)
      requires Valid()
      modifies this`users
      ensures Valid()
      ensures UserIndex(old(users), userId) < 0 ==> r == Err(Runtime("User not found")) && users == old(users)
      ensures UserIndex(old(users), userId) >= 0 ==>
        var k := UserIndex(old(users), userId);
        users == old(users)[k := CurrencyUpdated(old(users)[k], coins, gems)] &&
        r == Ok(ToUserDto(users[k]))
    {
      var k := UserIndex(users, userId);
      if k < 0 {
        return Err(Runtime("User not found"));
      }
      var updated := CurrencyUpdated(users[k], coins, gems);
      users := users[k := updated];
      r := Ok(ToUserDto(updated));
    }
  }
}
