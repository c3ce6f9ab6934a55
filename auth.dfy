/**
 * The account side of the server: the decision `POST /login` takes for a
 * username and password, and `GET /verify-email`, which marks the account
 * named by a verification link as verified. Signing and checking tokens is
 * not modelled; a link is represented by what checking its token yields.
 */
module Auth {
  import opened Wrappers
  import opened ObjectIds

  /** A stored account. */
  datatype User = User(id: ObjectId, username: string, password: string, email: string, role: string, verified: bool)

  /** The two fields an account is looked up by. */
  datatype UserKey = ByUsername | ByEmail

  function KeyOf(u: User, key: UserKey): string
  {
    match key
    case ByUsername => u.username
    case ByEmail => u.email
  }

  /**
   * `User.findOne({ username })` or `User.findOne({ email })`: the index of the
   * first account whose field is exactly `value` (the match is case-sensitive).
   */
  function FindUser(users: seq<User>, key: UserKey, value: string): (r: Option<nat>)
    ensures r.Some? ==> r.value < |users| && KeyOf(users[r.value], key) == value
    ensures r.Some? ==> forall j :: 0 <= j < r.value ==> KeyOf(users[j], key) != value
    ensures r.None? <==> forall j :: 0 <= j < |users| ==> KeyOf(users[j], key) != value
  {
    if users == [] then None
    else if KeyOf(users[0], key) == value then Some(0)
    else match FindUser(users[1..], key, value)
      case None => None
      case Some(i) => Some(i + 1)
  }

  /** The lookup sees only the looked-up field: accounts that agree on it are found at the same index. */
  lemma FindUserSameKeys(a: seq<User>, b: seq<User>, key: UserKey, value: string)
    requires |a| == |b| && forall j :: 0 <= j < |a| ==> KeyOf(a[j], key) == KeyOf(b[j], key)
    ensures FindUser(a, key, value) == FindUser(b, key, value)
  {
    var ra, rb := FindUser(a, key, value), FindUser(b, key, value);
    if ra.Some? {
      var i := ra.value;
      assert rb == Some(i) by {
        assert KeyOf(b[i], key) == value;
        assert rb.Some?;
        var j := rb.value;
        assert KeyOf(a[j], key) == value;
        assert !(j < i) && !(i < j);
      }
    } else {
      assert rb.None? by {
        assert forall j :: 0 <= j < |b| ==> KeyOf(b[j], key) != value;
      }
    }
  }

  // ---- Login ----

  /** What a login token is signed over. */
  datatype Claims = Claims(userId: ObjectId, username: string)

  /**
   * The answer to `POST /login`: 200 with a token and the account's role,
   * 401, 403, or 500. An unknown username ends in 500, not 401: the account's
   * id is read before the check for a missing account, and the error this
   * throws is caught as a failed login.
   */
  datatype LoginResponse = LoggedIn(claims: Claims, role: string) | InvalidCredentials | NotVerified | LoginFailed

  function LoginStatus(r: LoginResponse): int
  {
    match r
    case LoggedIn(_, _) => 200
    case InvalidCredentials => 401
    case NotVerified => 403
    case LoginFailed => 500
  }

  /** The login decision for the first account with the given username. */
  function Login(users: seq<User>, username: string, password: string): (r: LoginResponse)
    ensures r.LoginFailed? <==> FindUser(users, ByUsername, username).None?
    ensures r.InvalidCredentials? <==>
      FindUser(users, ByUsername, username).Some? && users[FindUser(users, ByUsername, username).value].password != password
    ensures r.NotVerified? <==>
      FindUser(users, ByUsername, username).Some? && users[FindUser(users, ByUsername, username).value].password == password
      && !users[FindUser(users, ByUsername, username).value].verified
  {
    match FindUser(users, ByUsername, username)
    case None => LoginFailed
    case Some(i) =>
      var u := users[i];
      if u.password != password then InvalidCredentials
      else if !u.verified then NotVerified
      else LoggedIn(Claims(u.id, u.username), u.role)
  }

  /**
   * A token is issued only for a verified account with the given username
   * and password, and it names that account and carries its role.
   */
  lemma LoginGrantsOnlyVerifiedMatch(users: seq<User>, username: string, password: string)
    ensures Login(users, username, password).LoggedIn? <==>
      exists i :: 0 <= i < |users| && FindUser(users, ByUsername, username) == Some(i)
        && users[i].password == password && users[i].verified
    ensures var r := Login(users, username, password);
      r.LoggedIn? ==> (exists i :: 0 <= i < |users| && users[i].username == username
                         && users[i].password == password && users[i].verified
                         && r.claims == Claims(users[i].id, username) && r.role == users[i].role)
  {
    var found := FindUser(users, ByUsername, username);
    if found.Some? {
      var i := found.value;
      assert 0 <= i < |users| && FindUser(users, ByUsername, username) == Some(i);
    }
  }

  /** A wrong password is refused with 401 whether or not the account is verified. */
  lemma WrongPasswordRefused(users: seq<User>, i: nat, password: string)
    requires i < |users| && FindUser(users, ByUsername, users[i].username) == Some(i)
    requires users[i].password != password
    ensures LoginStatus(Login(users, users[i].username, password)) == 401
  {
  }

  // ---- Email verification ----

  /**
   * What `jwt.verify` yields for a link's token: it fails, or it gives the
   * token's payload. Verification links and login tokens are signed with the
   * same secret, so a login token checks out too and carries no `email`.
   */
  datatype Link = InvalidToken | TokenWithoutEmail | EmailToken(email: string)

  /**
   * The account `User.findOne({ email })` finds for a link whose token checks
   * out. Without an email the filter is empty, and the query finds the first
   * stored account, whichever it is.
   */
  function LinkedAccount(users: seq<User>, link: Link): (r: Option<nat>)
    ensures r.Some? ==> r.value < |users|
    ensures link.EmailToken? ==> r == FindUser(users, ByEmail, link.email)
    ensures link.TokenWithoutEmail? ==> (r.None? <==> users == []) && (r.Some? ==> r.value == 0)
    ensures link.InvalidToken? ==> r.None?
  {
    match link
    case InvalidToken => None
    case TokenWithoutEmail => if users == [] then None else Some(0)
    case EmailToken(e) => FindUser(users, ByEmail, e)
  }

  /**
   * The answer to `GET /verify-email`: 400 for a link whose token does not
   * check out, 404 when the lookup finds no account, and 200 with one of two
   * messages otherwise.
   */
  datatype VerifyResponse = InvalidLink | UserNotFound | AlreadyVerified | NowVerified

  /** The answer a link gets. */
  function VerifyOutcome(users: seq<User>, link: Link): (r: VerifyResponse)
    ensures r == InvalidLink <==> link.InvalidToken?
    ensures r == UserNotFound <==> !link.InvalidToken? && LinkedAccount(users, link).None?
    ensures r == NowVerified <==>
      !link.InvalidToken? && LinkedAccount(users, link).Some? && !users[LinkedAccount(users, link).value].verified
  {
    if link.InvalidToken? then InvalidLink
    else
      match LinkedAccount(users, link)
      case None => UserNotFound
      case Some(i) => if users[i].verified then AlreadyVerified else NowVerified
  }

  /** The accounts after a link is followed: only a newly verified account changes. */
  function AfterVerify(users: seq<User>, link: Link): (users': seq<User>)
    ensures |users'| == |users|
    ensures VerifyOutcome(users, link) != NowVerified ==> users' == users
    ensures VerifyOutcome(users, link) == NowVerified ==>
      var i := LinkedAccount(users, link).value;
      users' == users[i := users[i].(verified := true)]
  {
    if VerifyOutcome(users, link) == NowVerified then
      var i := LinkedAccount(users, link).value;
      users[i := users[i].(verified := true)]
    else
      users
  }

  /**
   * Verification only ever sets one flag: no account loses its verified
   * mark, and every field but `verified` of every account stays as it was.
   */
  lemma VerifyOnlySetsFlag(users: seq<User>, link: Link)
    ensures var users' := AfterVerify(users, link);
      forall j :: 0 <= j < |users| ==>
        users'[j] == users[j].(verified := users'[j].verified) && (users[j].verified ==> users'[j].verified)
  {
  }

  /**
   * A link verifies its account at most once: following it again answers
   * "already verified" and changes nothing.
   */
  lemma VerifyOnlyOnce(users: seq<User>, e: string)
    requires FindUser(users, ByEmail, e).Some?
    ensures var users' := AfterVerify(users, EmailToken(e));
      && VerifyOutcome(users', EmailToken(e)) == AlreadyVerified
      && AfterVerify(users', EmailToken(e)) == users'
  {
    FindUserSameKeys(users, AfterVerify(users, EmailToken(e)), ByEmail, e);
  }

  /**
   * A token that checks out but carries no email, such as a login token,
   * verifies the first stored account, whoever it belongs to.
   */
  lemma TokenWithoutEmailVerifiesFirst(users: seq<User>)
    requires users != [] && !users[0].verified
    ensures VerifyOutcome(users, TokenWithoutEmail) == NowVerified
    ensures AfterVerify(users, TokenWithoutEmail) == users[0 := users[0].(verified := true)]
  {
  }

  /**
   * Once the link of an account is followed, that account, if it is the one
   * its username finds, logs in with its password: 403 turns into 200.
   */
  lemma LoginAfterVerify(users: seq<User>, i: nat)
    requires i < |users|
    requires FindUser(users, ByEmail, users[i].email) == Some(i)
    requires FindUser(users, ByUsername, users[i].username) == Some(i)
    ensures var users' := AfterVerify(users, EmailToken(users[i].email));
      Login(users', users[i].username, users[i].password) == LoggedIn(Claims(users[i].id, users[i].username), users[i].role)
  {
    FindUserSameKeys(users, AfterVerify(users, EmailToken(users[i].email)), ByUsername, users[i].username);
  }

  /** The stored accounts, whose `verified` flags `GET /verify-email` updates in place. */
  class UserStore {
    var users: seq<User>

    constructor (accounts: seq<User>)
      ensures users == accounts
    {
      users := accounts;
    }

    /**
     * Follows a verification link: finds the account the link names and,
     * unless it is verified already, sets its flag.
     */
    method VerifyEmail(link: Link) returns (r: VerifyResponse)
      modifies this
      ensures r == VerifyOutcome(old(users), link)
      ensures users == AfterVerify(old(users), link)
    {
      if link.InvalidToken? {
        return InvalidLink;
      }
      var found := LinkedAccount(users, link);
      if found.None? {
        return UserNotFound;
      }
      var i := found.value;
      if users[i].verified {
        return AlreadyVerified;
      }
      users := users[i := users[i].(verified := true)];
      r := NowVerified;
    }
  }
}
