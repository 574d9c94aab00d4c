/**
 * The user account service: registration under name locks, login with the
 * LDAP fallback, the keyword search that hides the caller, activation and
 * the forgotten-password ticket. The user table is a map by id, mail is a
 * recorded outbox, and BCrypt, the token utilities and the LDAP directory
 * are answers handed in by the caller.
 */
module Users {
  import opened Base
  import opened Text
  import opened Records
  import opened Coordination

  /** A row of the user table; `password` holds the BCrypt hash. */
  datatype User = User(
    id: int,
    username: string,
    email: string,
    password: string,
    active: bool,
    updateTime: Option<int>)

  /** A registration request; the password is in clear. */
  datatype UserRegist = UserRegist(username: string, email: string, password: string)

  /** A row of a keyword search result. */
  datatype UserBaseInfo = UserBaseInfo(id: int, username: string, email: string)

  /** An organisation together with the owner row that ties its creator to it. */
  datatype Organization = Organization(name: string, ownerId: int)

  datatype Mail =
    | ActivationMail(to: string, username: string)
    | ResetMail(to: string, ticket: string, checkCode: string)

  /** What the directory knows about a person: the account name and the email. */
  datatype LdapPerson = LdapPerson(accountName: string, email: string)

  /**
   * The LDAP service as one login sees it: whether a server is configured,
   * and the person it finds for the submitted username and password.
   */
  datatype LdapDirectory = LdapDirectory(serverExists: bool, found: Option<LdapPerson>)

  datatype LoginOutcome =
    | Existing(user: User)
    | AutoRegistered(person: LdapPerson, user: User)

  /** How a forgotten-password ticket names the account. */
  datatype TicketType = ByEmail | ByUsername

  /** What the reset page submits: the ticket, the mailed check code and the new password. */
  datatype Ticket = Ticket(ticket: string, checkCode: string, password: string)

  /** The check token: the account, the check code standing in for its password, and its lifetime. */
  datatype CheckToken = CheckToken(username: string, checkCode: string, timeoutMillis: nat)

  datatype UserError =
    | UsernameRegistered
    | EmailRegistered
    | NameTaken
    | RegistFailed
    | WrongPassword
    | LdapEmailTaken
    | InvalidToken
    | AlreadyActive
    | Activating
    | EmailMismatch
    | EmptyEmail
    | BadEmailFormat
    | EmptyUsername
    | NotRegistered
    | EmptyCheckCode
    | EmptyPassword
    | InvalidCheckCode

  /** A check token expires ten minutes after it is issued. */
  const TokenTimeoutMillis: nat := 10 * 60 * 1000
  /** The activation lock lives five seconds. */
  const ActivationLockTtl: nat := 5

  /** The user lookups find an account by its username or by its email. */
  predicate Identifies(u: User, name: string) {
    u.username == name || u.email == name
  }

  /** No name finds two accounts, and every row sits under its own id below `nextId`. */
  ghost predicate ValidUsers(users: map<int, User>, nextId: int) {
    && 0 < nextId
    && (forall k :: k in users ==> 0 < k < nextId && users[k].id == k)
    && (forall a, b, name ::
          a in users && b in users && Identifies(users[a], name) && Identifies(users[b], name)
          ==> a == b)
  }

  /** Account `k` of the table is found under `name`. */
  predicate Finds(users: map<int, User>, k: int, name: string) {
    k in users && Identifies(users[k], name)
  }

  // ---- lock selection at registration ----

  /** A lock is free when there is none or nobody holds its key. */
  predicate Free(held: map<LockKey, nat>, lock: Option<LockKey>) {
    lock.None? || lock.value !in held
  }

  /** The lock table once `lock` (if any) has been taken with time-to-live `ttl`. */
  function Taking(held: map<LockKey, nat>, lock: Option<LockKey>, ttl: nat): (r: map<LockKey, nat>)
    ensures lock.None? ==> r == held
    ensures lock.Some? ==> r.Keys == held.Keys + {lock.value} && r[lock.value] == ttl
  {
    if lock.Some? then held[lock.value := ttl] else held
  }

  /**
   * The email is locked apart from the username only when the two differ
   * ignoring case; when they agree the username lock already covers it.
   */
  function EmailLockName(username: string, email: string): (r: Option<string>)
    ensures r.Some? <==> ToLower(username) != ToLower(email)
    ensures r.Some? ==> r.value == email && r.value != username
  {
    if !EqualsIgnoreCase(username, email) then Some(email) else None
  }

  /** Taking two different free locks and releasing both, in order, restores the table. */
  lemma TakeBothThenReleaseRestores(held: map<LockKey, nat>, u: Option<LockKey>, e: Option<LockKey>, ttl: nat)
    requires Free(held, u) && Free(held, e)
    requires u.Some? && e.Some? ==> u.value != e.value
    ensures var t := Taking(Taking(held, u, ttl), e, ttl);
            var afterU := if u.Some? then t - {u.value} else t;
            (if e.Some? then afterU - {e.value} else afterU) == held
  {
    var t := Taking(Taking(held, u, ttl), e, ttl);
    var afterU := if u.Some? then t - {u.value} else t;
    var r := if e.Some? then afterU - {e.value} else afterU;
    assert r.Keys == held.Keys;
  }

  // ---- login ----

  /** ldapLogin: a configured server that finds the person lets the login through. */
  predicate LdapLogin(ldap: LdapDirectory) {
    ldap.serverExists && ldap.found.Some?
  }

  predicate EmailTaken(users: map<int, User>, email: string) {
    exists k :: k in users && users[k].email == email
  }

  predicate UsernameTaken(users: map<int, User>, username: string) {
    exists k :: k in users && users[k].username == username
  }

  /** The login of an account that exists: its password, else the directory. */
  function ExistingLogin(user: User, passwordOk: bool, ldap: LdapDirectory): (r: Result<LoginOutcome, UserError>)
    ensures r.Ok? <==> passwordOk || LdapLogin(ldap)
    ensures r.Ok? ==> r.value == Existing(user)
    ensures r.Err? ==> r.error == WrongPassword
  {
    if passwordOk || LdapLogin(ldap) then Ok(Existing(user)) else Err(WrongPassword)
  }

  /** The person handed to registration: a taken account name gives way to the email. */
  function RegistrationPerson(users: map<int, User>, p: LdapPerson): (q: LdapPerson)
    ensures q.email == p.email
    ensures !UsernameTaken(users, p.accountName) ==> q == p
    ensures UsernameTaken(users, p.accountName) ==> q == p.(accountName := p.email)
    ensures !UsernameTaken(users, q.accountName) || q.accountName == p.email
  {
    if UsernameTaken(users, p.accountName) then p.(accountName := p.email) else p
  }

  /**
   * ldapAutoRegist followed by userLogin's null check: no server or no
   * person is a wrong password, a taken email is refused, and otherwise the
   * directory registers the person (`registered` is its answer).
   */
  function LdapAutoRegist(users: map<int, User>, ldap: LdapDirectory, registered: Option<User>)
    : (r: Result<LoginOutcome, UserError>)
    ensures r.Ok? <==> LdapLogin(ldap) && !EmailTaken(users, ldap.found.value.email) && registered.Some?
    ensures LdapLogin(ldap) && EmailTaken(users, ldap.found.value.email) ==> r == Err(LdapEmailTaken)
    ensures r.Err? && r.error != LdapEmailTaken ==> r.error == WrongPassword
    ensures r.Ok? ==> r.value == AutoRegistered(RegistrationPerson(users, ldap.found.value), registered.value)
  {
    if !ldap.serverExists then Err(WrongPassword)
    else if ldap.found.None? then Err(WrongPassword)
    else if EmailTaken(users, ldap.found.value.email) then Err(LdapEmailTaken)
    else if registered.None? then Err(WrongPassword)
    else Ok(AutoRegistered(RegistrationPerson(users, ldap.found.value), registered.value))
  }

  // ---- keyword search ----

  /** The search result with every row of the caller taken out, the rest in order. */
  function WithoutCaller(found: seq<UserBaseInfo>, callerId: int): (r: seq<UserBaseInfo>)
    ensures |r| <= |found|
  {
    if found == [] then []
    else (if found[0].id == callerId then [] else [found[0]]) + WithoutCaller(found[1..], callerId)
  }

  /** Filtering a concatenation filters each part: the kept rows keep their order. */
  lemma {:induction false} WithoutCallerAppend(a: seq<UserBaseInfo>, b: seq<UserBaseInfo>, callerId: int)
    ensures WithoutCaller(a + b, callerId) == WithoutCaller(a, callerId) + WithoutCaller(b, callerId)
    decreases |a|
  {
    if a == [] {
      assert a + b == b;
    } else {
      assert (a + b)[1..] == a[1..] + b;
      WithoutCallerAppend(a[1..], b, callerId);
    }
  }

  /** Exactly the caller's rows go: every other row keeps its multiplicity. */
  lemma {:induction false} WithoutCallerRemovesExactly(found: seq<UserBaseInfo>, callerId: int)
    ensures forall x :: x in WithoutCaller(found, callerId) ==> x.id != callerId
    ensures forall x: UserBaseInfo :: x.id != callerId ==> multiset(WithoutCaller(found, callerId))[x] == multiset(found)[x]
    decreases |found|
  {
    if found != [] {
      WithoutCallerRemovesExactly(found[1..], callerId);
      assert found == [found[0]] + found[1..];
    }
  }

  /**
   * getUsersByKeyword after the query: with includeSelf the list is returned
   * as it came; otherwise an iterator walks it and removes the caller's rows.
   */
  method GetUsersByKeyword(found: seq<UserBaseInfo>, callerId: int, includeSelf: bool)
    returns (users: seq<UserBaseInfo>)
    ensures includeSelf ==> users == found
    ensures !includeSelf ==> users == WithoutCaller(found, callerId)
  {
    users := found;
    if includeSelf {
      return;
    }
    var i := 0;
    ghost var j := 0;
    while i < |users|
      invariant 0 <= j <= |found|
      invariant users == WithoutCaller(found[..j], callerId) + found[j..]
      invariant i == |WithoutCaller(found[..j], callerId)|
      decreases |users| - i
    {
      assert users[i] == found[j];
      WithoutCallerAppend(found[..j], [found[j]], callerId);
      assert found[..j + 1] == found[..j] + [found[j]];
      if users[i].id == callerId {
        users := users[..i] + users[i + 1..];
      } else {
        i := i + 1;
      }
      j := j + 1;
    }
    assert found[..j] == found;
  }

  // ---- activation ----

  /** The activation lock key: "ACTIVATE@" and the upper-cased username. */
  function ActivationKey(username: string): LockKey {
    RawKey("ACTIVATE@" + ToUpper(username))
  }

  /** Two activations contend for the same lock exactly when their names agree ignoring case. */
  lemma ActivationKeyIgnoresCase(a: string, b: string)
    ensures ActivationKey(a) == ActivationKey(b) <==> EqualsIgnoreCase(a, b)
  {
    UpperAgreesWithIgnoreCase(a, b);
    if ActivationKey(a) == ActivationKey(b) {
      assert ToUpper(a) == ("ACTIVATE@" + ToUpper(a))[9..];
      assert ToUpper(b) == ("ACTIVATE@" + ToUpper(b))[9..];
    }
  }

  /** The organisation an activated user receives. */
  function OwnOrganization(u: User): Organization {
    Organization(u.username + "'s Organization", u.id)
  }

  // ---- password tickets ----

  /** The format checks on a ticket, shared by forgetPassword and resetPassword. */
  function TicketFormatError(kind: TicketType, ticket: string, emailFormat: string -> bool): (r: Option<UserError>)
    ensures r.None? <==> ticket != [] && (kind == ByEmail ==> emailFormat(ticket))
    ensures ticket == [] ==> r == Some(if kind == ByEmail then EmptyEmail else EmptyUsername)
    ensures ticket != [] && kind == ByEmail && !emailFormat(ticket) ==> r == Some(BadEmailFormat)
  {
    match kind
    case ByEmail =>
      if ticket == [] then Some(EmptyEmail)
      else if !emailFormat(ticket) then Some(BadEmailFormat)
      else None
    case ByUsername =>
      if ticket == [] then Some(EmptyUsername) else None
  }

  /** The fields a reset adds to the ticket checks: a check code, then a password. */
  function ResetFieldsError(t: Ticket): (r: Option<UserError>)
    ensures r.None? <==> t.checkCode != [] && t.password != []
    ensures t.checkCode == [] ==> r == Some(EmptyCheckCode)
    ensures t.checkCode != [] && t.password == [] ==> r == Some(EmptyPassword)
  {
    if t.checkCode == [] then Some(EmptyCheckCode)
    else if t.password == [] then Some(EmptyPassword)
    else None
  }

  /** Why a ticket is refused: its format, then an account that cannot be found. */
  function TicketRejection(users: map<int, User>, kind: TicketType, ticket: string, emailFormat: string -> bool)
    : Option<UserError>
  {
    var format := TicketFormatError(kind, ticket, emailFormat);
    if format.Some? then format
    else if forall k :: k in users ==> !Finds(users, k, ticket) then Some(NotRegistered)
    else None
  }

  class UserService {
    /** The user table, by id. */
    var users: map<int, User>
    /** The id the table assigns to the next insert. */
    var nextId: int
    /** Organisations created on activation, in order. */
    var orgs: seq<Organization>
    /** Mail handed to the mail service, in order. */
    var outbox: seq<Mail>
    const store: Store
    /** BCrypt.checkpw(clear, hash); an exception counts as a mismatch. */
    const checkpw: (string, string) -> bool
    /** The email pattern of the ticket check. */
    const emailFormat: string -> bool

    ghost predicate Valid()
      reads this
    {
      ValidUsers(users, nextId)
    }

    /** Some account other than `id` is found under the name. */
    ghost predicate NameInUse(name: string, id: Option<int>)
      reads this
    {
      exists k :: Finds(users, k, name) && (id.None? || k != id.value)
    }

    constructor (store: Store, checkpw: (string, string) -> bool, emailFormat: string -> bool)
      ensures Valid() && this.store == store && this.checkpw == checkpw && this.emailFormat == emailFormat
      ensures users == map[] && orgs == [] && outbox == []
    {
      users := map[];
      nextId := 1;
      orgs := [];
      outbox := [];
      this.store := store;
      this.checkpw := checkpw;
      this.emailFormat := emailFormat;
    }

    /** The mapper's lookup of an account by username or email. */
    method FindByName(name: string) returns (found: Option<int>)
      ensures found.Some? ==> Finds(users, found.value, name)
      ensures found.None? ==> forall k :: !Finds(users, k, name)
    {
      if k :| k in users && Identifies(users[k], name) {
        found := Some(k);
      } else {
        found := None;
      }
    }

    /** The name is taken exactly when another account is found under it; the scope plays no part. */
    method IsExist(name: string, id: Option<int>, scopeId: Option<int>) returns (taken: bool)
      requires Valid()
      ensures taken <==> NameInUse(name, id)
    {
      var found := FindByName(name);
      taken := IsNameTaken(found, id);
    }

    /**
     * The two name locks of a registration as the code takes them: when the
     * email lock is contended the username lock stays held.
     */
    method AcquireNameLocksAsWritten(username: string, email: string)
      returns (acquired: bool, usernameLock: Option<LockKey>, emailLock: Option<LockKey>)
      modifies store`held
      ensures usernameLock == store.NameLock(UserEntity, username, None)
      ensures emailLock == if EmailLockName(username, email).Some? then store.NameLock(UserEntity, email, None) else None
      ensures acquired <==> Free(old(store.held), usernameLock) && Free(old(store.held), emailLock)
      ensures acquired ==> store.held == Taking(Taking(old(store.held), usernameLock, store.nameLockTtl), emailLock, store.nameLockTtl)
      ensures !Free(old(store.held), usernameLock) ==> store.held == old(store.held)
      ensures Free(old(store.held), usernameLock) && !Free(old(store.held), emailLock) ==>
                !acquired && store.held == Taking(old(store.held), usernameLock, store.nameLockTtl)
                && usernameLock.Some? && usernameLock.value in store.held
    {
      usernameLock := store.NameLock(UserEntity, username, None);
      emailLock := if EmailLockName(username, email).Some? then store.NameLock(UserEntity, email, None) else None;
      var got := store.Acquire(usernameLock);
      if !got {
        return false, usernameLock, emailLock;
      }
      got := store.Acquire(emailLock);
      if !got {
        return false, usernameLock, emailLock;
      }
      acquired := true;
    }

    /**
     * The two name locks of a registration, giving the username lock back
     * when the email lock is contended: a refusal leaves the table as it was.
     */
    method AcquireNameLocks(username: string, email: string)
      returns (acquired: bool, usernameLock: Option<LockKey>, emailLock: Option<LockKey>)
      modifies store`held
      ensures usernameLock == store.NameLock(UserEntity, username, None)
      ensures emailLock == if EmailLockName(username, email).Some? then store.NameLock(UserEntity, email, None) else None
      ensures usernameLock.Some? && emailLock.Some? ==> usernameLock.value != emailLock.value
      ensures acquired <==> Free(old(store.held), usernameLock) && Free(old(store.held), emailLock)
      ensures acquired ==> store.held == Taking(Taking(old(store.held), usernameLock, store.nameLockTtl), emailLock, store.nameLockTtl)
      ensures !acquired ==> store.held == old(store.held)
    {
      usernameLock := store.NameLock(UserEntity, username, None);
      emailLock := if EmailLockName(username, email).Some? then store.NameLock(UserEntity, email, None) else None;
      var got := store.Acquire(usernameLock);
      if !got {
        return false, usernameLock, emailLock;
      }
      got := store.Acquire(emailLock);
      if !got {
        store.Release(usernameLock);
        if usernameLock.Some? {
          AcquireThenReleaseRestores(old(store.held), usernameLock.value, store.nameLockTtl);
        }
        return false, usernameLock, emailLock;
      }
      acquired := true;
    }

    /**
     * sendMail: the activation mail goes only to the address the account
     * was registered with.
     */
    method SendMail(email: string, user: User) returns (r: Result<bool, UserError>)
      modifies this`outbox
      ensures r.Ok? <==> email == user.email
      ensures r.Ok? ==> r.value && outbox == old(outbox) + [ActivationMail(user.email, user.username)]
      ensures r.Err? ==> r.error == EmailMismatch && outbox == old(outbox)
    {
      if email != user.email {
        return Err(EmailMismatch);
      }
      outbox := outbox + [ActivationMail(user.email, user.username)];
      r := Ok(true);
    }

    /** Why a registration is refused before the insert, in the order the checks run. */
    ghost function RegistRejection(req: UserRegist): Option<UserError>
      reads this, store
    {
      var emailLock := EmailLockName(req.username, req.email);
      if NameInUse(req.username, None) then Some(UsernameRegistered)
      else if NameInUse(req.email, None) then Some(EmailRegistered)
      else if store.locking && NameKey(UserEntity, req.username, None) in store.held then Some(NameTaken)
      else if store.locking && emailLock.Some? && NameKey(UserEntity, emailLock.value, None) in store.held then Some(NameTaken)
      else None
    }

    /**
     * regist: username check, email check, name locks, insert of an
     * inactive account with the hashed password (`hashed`, as the salt is
     * random), activation mail; both locks are released on every path.
     */
    method Regist(req: UserRegist, hashed: string, inserted: bool) returns (r: Result<User, UserError>)
      requires Valid()
      modifies this`users, this`nextId, this`outbox, store`held
      ensures Valid() && store.held == old(store.held)
      ensures old(RegistRejection(req)).Some? ==>
                r == Err(old(RegistRejection(req)).value) && users == old(users) && outbox == old(outbox)
      ensures old(RegistRejection(req)).None? && !inserted ==>
                r == Err(RegistFailed) && users == old(users) && outbox == old(outbox)
      ensures r.Ok? <==> old(RegistRejection(req)).None? && inserted
      ensures r.Ok? ==>
                r.value == User(old(nextId), req.username, req.email, hashed, false, None)
                && old(nextId) !in old(users) && users == old(users)[old(nextId) := r.value]
                && outbox == old(outbox) + [ActivationMail(req.email, req.username)]
    {
      var taken := IsExist(req.username, None, None);
      if taken {
        return Err(UsernameRegistered);
      }
      taken := IsExist(req.email, None, None);
      if taken {
        return Err(EmailRegistered);
      }
      assert forall k :: k in users ==> !Identifies(users[k], req.username) && !Identifies(users[k], req.email) by {
        forall k | k in users ensures !Identifies(users[k], req.username) && !Identifies(users[k], req.email) {
          assert !Finds(users, k, req.username) && !Finds(users, k, req.email);
        }
      }
      var acquired, usernameLock, emailLock := AcquireNameLocks(req.username, req.email);
      if !acquired {
        return Err(NameTaken);
      }
      TakeBothThenReleaseRestores(old(store.held), usernameLock, emailLock, store.nameLockTtl);
      if !inserted {
        store.Release(usernameLock);
        store.Release(emailLock);
        return Err(RegistFailed);
      }
      var user := User(nextId, req.username, req.email, hashed, false, None);
      users := users[nextId := user];
      nextId := nextId + 1;
      var sent := SendMail(user.email, user);
      store.Release(usernameLock);
      store.Release(emailLock);
      r := Ok(user);
    }

    /**
     * userLogin: an existing account logs in by its password or else by the
     * directory; an unknown name goes to LDAP auto-registration.
     */
    method UserLogin(username: string, password: string, ldap: LdapDirectory, registered: Option<User>)
      returns (r: Result<LoginOutcome, UserError>)
      requires Valid()
      ensures forall k :: Finds(users, k, username) ==> r == ExistingLogin(users[k], checkpw(password, users[k].password), ldap)
      ensures (forall k :: !Finds(users, k, username)) ==> r == LdapAutoRegist(users, ldap, registered)
    {
      var found := FindByName(username);
      if found.Some? {
        var user := users[found.value];
        var passwordOk := checkpw(password, user.password);
        if passwordOk {
          return Ok(Existing(user));
        }
        if ldap.serverExists && ldap.found.Some? {
          return Ok(Existing(user));
        }
        return Err(WrongPassword);
      }
      if !ldap.serverExists {
        return Err(WrongPassword);
      }
      if ldap.found.None? {
        return Err(WrongPassword);
      }
      var person := ldap.found.value;
      if exists k :: k in users && users[k].email == person.email {
        return Err(LdapEmailTaken);
      }
      if exists k :: k in users && users[k].username == person.accountName {
        person := person.(accountName := person.email);
      }
      if registered.None? {
        return Err(WrongPassword);
      }
      r := Ok(AutoRegistered(person, registered.value));
    }

    /** Why an activation of account `u` under the token's name changes nothing. */
    ghost function ActivationRejection(u: User, name: string, tokenValid: bool): Option<UserError>
      reads this, store
    {
      if u.active then Some(AlreadyActive)
      else if store.locking && ActivationKey(name) in store.held then Some(Activating)
      else if !tokenValid then Some(InvalidToken)
      else None
    }

    /**
     * activateUserNoLogin: `tokenUser` is the username the decrypted token
     * carries (absent when it carries none) and `tokenValid` the token
     * check's verdict. Activation marks the account active at `now` and
     * gives it its own organisation; the activation lock is released.
     */
    method ActivateUserNoLogin(tokenUser: Option<string>, tokenValid: bool, now: int)
      returns (r: Result<User, UserError>)
      requires Valid()
      modifies this`users, this`orgs, store`held
      ensures Valid() && store.held == old(store.held)
      ensures tokenUser.None? ==> r == Err(InvalidToken) && users == old(users) && orgs == old(orgs)
      ensures tokenUser.Some? && (forall k :: !Finds(old(users), k, tokenUser.value)) ==>
                r == Err(InvalidToken) && users == old(users) && orgs == old(orgs)
      ensures forall k :: tokenUser.Some? && Finds(old(users), k, tokenUser.value) ==>
                var rejection := old(ActivationRejection(users[k], tokenUser.value, tokenValid));
                (rejection.Some? ==> r == Err(rejection.value) && users == old(users) && orgs == old(orgs))
                && (rejection.None? ==>
                      r == Ok(old(users[k]).(active := true, updateTime := Some(now)))
                      && users == old(users)[k := r.value]
                      && orgs == old(orgs) + [OwnOrganization(old(users[k]))])
    {
      if tokenUser.None? {
        return Err(InvalidToken);
      }
      var name := tokenUser.value;
      var found := FindByName(name);
      if found.None? {
        return Err(InvalidToken);
      }
      var k := found.value;
      var user := users[k];
      if user.active {
        return Err(AlreadyActive);
      }
      var lock: Option<LockKey> := if store.locking then Some(ActivationKey(name)) else None;
      if lock.Some? {
        var got := store.TryLock(lock.value, ActivationLockTtl);
        if !got {
          return Err(Activating);
        }
        AcquireThenReleaseRestores(old(store.held), lock.value, ActivationLockTtl);
      }
      if tokenValid {
        user := user.(active := true, updateTime := Some(now));
        users := users[k := user];
        orgs := orgs + [OwnOrganization(user)];
        r := Ok(user);
      } else {
        r := Err(InvalidToken);
      }
      store.Release(lock);
    }

    /**
     * forgetPassword: the account named by the ticket is mailed the check
     * code `checkCode` (drawn at random), and the check token, valid for
     * ten minutes, is returned.
     */
    method ForgetPassword(kind: TicketType, ticket: string, checkCode: string)
      returns (r: Result<CheckToken, UserError>)
      requires Valid()
      modifies this`outbox
      ensures TicketRejection(old(users), kind, ticket, emailFormat).Some? ==>
                r == Err(TicketRejection(old(users), kind, ticket, emailFormat).value) && outbox == old(outbox)
      ensures forall k :: TicketRejection(old(users), kind, ticket, emailFormat).None? && Finds(old(users), k, ticket) ==>
                r == Ok(CheckToken(users[k].username, checkCode, TokenTimeoutMillis))
                && outbox == old(outbox) + [ResetMail(users[k].email, ticket, checkCode)]
    {
      var format := TicketFormatError(kind, ticket, emailFormat);
      if format.Some? {
        return Err(format.value);
      }
      var found := FindByName(ticket);
      if found.None? {
        return Err(NotRegistered);
      }
      assert Finds(users, found.value, ticket);
      var user := users[found.value];
      outbox := outbox + [ResetMail(user.email, ticket, checkCode)];
      r := Ok(CheckToken(user.username, checkCode, TokenTimeoutMillis));
    }

    /**
     * resetPassword: the ticket checks, a check code and a password, the
     * token check's verdict `tokenValid`, then the account's hash becomes
     * `hashed`; the result is whether the table reported a changed row.
     */
    method ResetPassword(kind: TicketType, t: Ticket, tokenValid: bool, hashed: string, changed: bool)
      returns (r: Result<bool, UserError>)
      requires Valid()
      modifies this`users
      ensures Valid()
      ensures TicketRejection(old(users), kind, t.ticket, emailFormat).Some? ==>
                r == Err(TicketRejection(old(users), kind, t.ticket, emailFormat).value) && users == old(users)
      ensures TicketRejection(old(users), kind, t.ticket, emailFormat).None? && ResetFieldsError(t).Some? ==>
                r == Err(ResetFieldsError(t).value) && users == old(users)
      ensures TicketRejection(old(users), kind, t.ticket, emailFormat).None? && ResetFieldsError(t).None? && !tokenValid ==>
                r == Err(InvalidCheckCode) && users == old(users)
      ensures TicketRejection(old(users), kind, t.ticket, emailFormat).None? && ResetFieldsError(t).None? && tokenValid ==>
                r == Ok(changed)
      ensures r.Ok? ==> r.value == changed
      ensures forall k :: r.Ok? && Finds(old(users), k, t.ticket) ==>
                users == if changed then old(users)[k := old(users[k]).(password := hashed)] else old(users)
    {
      var format := TicketFormatError(kind, t.ticket, emailFormat);
      if format.Some? {
        return Err(format.value);
      }
      var found := FindByName(t.ticket);
      if found.None? {
        return Err(NotRegistered);
      }
      assert Finds(users, found.value, t.ticket);
      var fields := ResetFieldsError(t);
      if fields.Some? {
        return Err(fields.value);
      }
      if !tokenValid {
        return Err(InvalidCheckCode);
      }
      var k := found.value;
      if changed {
        users := users[k := users[k].(password := hashed)];
      }
      r := Ok(changed);
    }
  }
}
