/** Sign-up and sign-in. Sign-up refuses a name already taken (exact,
    case-sensitive comparison) and appends a fresh account with the welcome
    bonus; sign-in finds the first account whose name and password both
    match and refuses a blocked one. */
module Auth {
  import opened Types
  import opened Progression
  import opened Store

  datatype AuthOutcome =
    | Welcome(user: User)
    | MissingCredentials
    | UsernameTaken
    | InvalidCredentials
    | AccountBlocked

  const WELCOME_BONUS: int := 100

  predicate UniqueUsernames(users: seq<User>)
  {
    forall i, j :: 0 <= i < j < |users| ==> users[i].username != users[j].username
  }

  predicate MatchesCredentials(u: User, username: string, password: string)
  {
    u.username == username && u.password == Some(password)
  }

  /** Position of the first account whose name and password both match, or -1. */
  function CredentialsIndex(users: seq<User>, username: string, password: string): (k: int)
    ensures -1 <= k < |users|
    ensures k == -1 <==> forall j :: 0 <= j < |users| ==> !MatchesCredentials(users[j], username, password)
    ensures k >= 0 ==> MatchesCredentials(users[k], username, password) &&
                       forall j :: 0 <= j < k ==> !MatchesCredentials(users[j], username, password)
  {
    if |users| == 0 then -1
    else if MatchesCredentials(users[0], username, password) then 0
    else
      var k := CredentialsIndex(users[1..], username, password);
      if k == -1 then -1 else k + 1
  }

  /** The first account whose name and password both match. */
  function FindCredentials(users: seq<User>, username: string, password: string): Option<User>
  {
    var k := CredentialsIndex(users, username, password);
    if k == -1 then None else Some(users[k])
  }

  /** Sign-in against the account list. */
  function Login(users: seq<User>, username: string, password: string): (r: AuthOutcome)
    ensures username == "" || password == "" ==> r == MissingCredentials
    ensures r.Welcome? ==> r.user in users && MatchesCredentials(r.user, username, password) && !r.user.blocked
    ensures r == InvalidCredentials <==>
              username != "" && password != "" &&
              forall k :: 0 <= k < |users| ==> !MatchesCredentials(users[k], username, password)
    ensures r.Welcome? || r == AccountBlocked <==>
              username != "" && password != "" &&
              exists k :: 0 <= k < |users| && MatchesCredentials(users[k], username, password)
    ensures r != UsernameTaken
  {
    if username == "" || password == "" then MissingCredentials
    else
      match FindCredentials(users, username, password)
      case None => InvalidCredentials
      case Some(u) => if u.blocked then AccountBlocked else Welcome(u)
  }

  /** With unique names, signing in with an account's own credentials
      yields that account, or the blocked refusal. */
  lemma LoginFindsOwnAccount(users: seq<User>, i: int, password: string)
    requires UniqueUsernames(users) && 0 <= i < |users|
    requires users[i].username != "" && password != "" && users[i].password == Some(password)
    ensures Login(users, users[i].username, password) ==
            if users[i].blocked then AccountBlocked else Welcome(users[i])
  {
    assert MatchesCredentials(users[i], users[i].username, password);
    var k := CredentialsIndex(users, users[i].username, password);
    assert k == i;
  }

  /** A name that differs only in letter case does not match. */
  lemma LoginIsCaseSensitive(u: User, password: string)
    requires u.username == ADMIN_NAME && u.password == Some(password) && password != ""
    ensures Login([u], "algokingx", password) == InvalidCredentials
  {
    assert ADMIN_NAME[0] != "algokingx"[0];
  }

  /** The account sign-up creates: the welcome bonus, a one-day streak
      starting today, level 1 with no XP, an empty inventory, no wallet,
      no referrer, zero counters and not blocked. */
  function NewUser(id: int, username: string, email: string, password: string,
                   referralCode: string, now: int, today: int): (u: User)
    ensures u.id == id && u.username == username && u.password == Some(password)
    ensures u.points == WELCOME_BONUS && u.loginStreak == 1 && u.lastLoginDate == Some(today)
    ensures u.level == 1 && u.xp == 0 && u.inventory == []
    ensures u.wallet == None && u.referredBy == None && !u.blocked
    ensures u.totalSpins == 0 && u.totalWinnings == 0 && u.joinedAt == now
  {
    User(id, username, Some(email), Some(password), None, WELCOME_BONUS, referralCode, None,
         0, 0, now, false, Some(today), 1, [], 1, 0)
  }

  /** A new account's cached level agrees with its XP. */
  lemma NewUserConsistent(id: int, username: string, email: string, password: string,
                          referralCode: string, now: int, today: int)
    ensures Consistent(NewUser(id, username, email, password, referralCode, now, today))
  {
    LevelOneIff(0);
  }

  /** The form's submit: `isSignup` selects the mode; `now` is also the new
      account's id and `referralCode` stands for its random code. */
  method HandleSubmit(ledger: Ledger, isSignup: bool, username: string, email: string, password: string,
                      referralCode: string, now: int, today: int) returns (r: AuthOutcome)
    modifies ledger`users
    ensures username == "" || password == "" ==> r == MissingCredentials && ledger.users == old(ledger.users)
    ensures !isSignup ==> r == Login(old(ledger.users), username, password) && ledger.users == old(ledger.users)
    ensures isSignup && username != "" && password != "" && HasUserNamed(old(ledger.users), username) ==>
              r == UsernameTaken && ledger.users == old(ledger.users)
    ensures isSignup && username != "" && password != "" && !HasUserNamed(old(ledger.users), username) ==>
              var u := NewUser(now, username, email, password, referralCode, now, today);
              r == Welcome(u) && ledger.users == old(ledger.users) + [u]
    ensures UniqueUsernames(old(ledger.users)) ==> UniqueUsernames(ledger.users)
  {
    if username == "" || password == "" {
      return MissingCredentials;
    }
    var users := ledger.users;
    if isSignup {
      if HasUserNamed(users, username) {
        return UsernameTaken;
      }
      var newUser := NewUser(now, username, email, password, referralCode, now, today);
      ledger.users := users + [newUser];
      return Welcome(newUser);
    } else {
      var found := FindCredentials(users, username, password);
      if found.None? {
        return InvalidCredentials;
      }
      if found.value.blocked {
        return AccountBlocked;
      }
      return Welcome(found.value);
    }
  }
}
