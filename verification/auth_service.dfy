/** `AuthService`: sign-up against the payroll table, sign-in with the claims and
    expiry of the issued token, role grant, profile update, lookup by id, and the
    password-reset pair.

    Everything the identity library, the token handler, the mailer and the
    clock do is a parameter: `create` (CreateAsync), `checkPassword`
    (CheckPasswordAsync), `addToRole` (AddToRoleAsync), `resetToken`
    (GeneratePasswordResetTokenAsync), `resetPassword` (ResetPasswordAsync),
    `urlEncode` (HttpUtility.UrlEncode), `send` (the mailer), and the fresh
    values `stamp`, `newId`, `jti` and `now`.
 */
module AuthService {
  import opened Wrappers
  import opened Text
  import opened Identity

  // ---------------------------------------------------------------------------
  // Messages
  // ---------------------------------------------------------------------------

  const NoPayrollMessage := "Usuário não possui cadastro na tabela de funcionários."
  const UserNameTakenMessage := "Nome de usuário já existe."
  const SignUpFailedMessage := "Falha no cadastro do usuário."
  const UserNotFoundMessage := "User not found."
  const InvalidPasswordMessage := "Invalid password."
  const UserDoesNotExistMessage := "User does not exist."
  const UsuarioNaoEncontradoMessage := "Usuário não encontrado."
  const EmailFailedMessage := "Falha ao enviar o email de recuperação."
  const ResetFailedPrefix := "Falha ao redefinir a senha. Motivo: "

  const AdminRole := "Admin"

  // ---------------------------------------------------------------------------
  // Sign-up
  // ---------------------------------------------------------------------------

  datatype SignUpRequest = SignUpRequest(username: string, password: string, confirmPassword: string)

  /** The result of an operation that may also change the stores. */
  datatype Outcome<T> = Outcome(result: Result<T>, stores: Stores)

  /** The account sign-up builds for a payroll row. */
  function NewAccount(username: string, p: UserProtheus, stamp: string, newId: int): (u: UserApp)
    ensures u.userName == username && u.raNome == username
    ensures u.userProtheusId == p.protheusId && u.email == p.email
    ensures u.securityStamp == stamp && u.id == newId
  {
    UserApp(newId, username, username, p.protheusId, p.email, stamp, None, None)
  }

  /** The exception a rejected create turns into: the first error's description,
      or a generic message when the library gave none. */
  function CreateFailure(errors: seq<string>): (e: Exn)
    ensures e.ArgumentException?
    ensures |errors| > 0 ==> e.message == errors[0]
    ensures |errors| == 0 ==> e.message == SignUpFailedMessage
  {
    if |errors| > 0 then ArgumentException(errors[0]) else ArgumentException(SignUpFailedMessage)
  }

  /** `SignUp`: payroll check first, then the duplicate-name check, then the create. */
  function SignUp(st: Stores, req: SignUpRequest, stamp: string, newId: int,
                  create: (UserApp, string) -> IdentityResult): (o: Outcome<bool>)
    ensures req.username !in st.payroll ==>
              o.result == Err(ArgumentException(NoPayrollMessage)) && o.stores == st
    ensures req.username in st.payroll && HasName(st.users, req.username) ==>
              o.result == Err(ArgumentException(UserNameTakenMessage)) && o.stores == st
    ensures o.result.Err? ==> o.stores == st
    ensures o.result.Ok? <==>
              && req.username in st.payroll
              && !HasName(st.users, req.username)
              && create(NewAccount(req.username, st.payroll[req.username], stamp, newId), req.password)
                 == IdentitySucceeded
    ensures o.result.Ok? ==>
              && o.result.value
              && o.stores.payroll == st.payroll && o.stores.roles == st.roles
              && o.stores.users == st.users + [NewAccount(req.username, st.payroll[req.username], stamp, newId)]
    ensures o.result.Err? && req.username in st.payroll && !HasName(st.users, req.username) ==>
              create(NewAccount(req.username, st.payroll[req.username], stamp, newId), req.password).IdentityFailed?
              && o.result.error
                 == CreateFailure(create(NewAccount(req.username, st.payroll[req.username], stamp, newId),
                                         req.password).errors)
  {
    match FindProtheus(st.payroll, req.username)
    case None => Outcome(Err(ArgumentException(NoPayrollMessage)), st)
    case Some(p) =>
      if FindByName(st.users, req.username).Some? then
        Outcome(Err(ArgumentException(UserNameTakenMessage)), st)
      else
        var user := NewAccount(req.username, p, stamp, newId);
        match create(user, req.password)
        case IdentitySucceeded => Outcome(Ok(true), st.(users := st.users + [user]))
        case IdentityFailed(errors) => Outcome(Err(CreateFailure(errors)), st)
  }

  /** Sign-up keeps user names unique. */
  lemma SignUpPreservesUniqueNames(st: Stores, req: SignUpRequest, stamp: string, newId: int,
                                   create: (UserApp, string) -> IdentityResult)
    requires UniqueNames(st.users)
    ensures UniqueNames(SignUp(st, req, stamp, newId, create).stores.users)
  {
    var o := SignUp(st, req, stamp, newId, create);
    if o.result.Ok? {
      var users := o.stores.users;
      forall i, j | 0 <= i < j < |users| ensures users[i].userName != users[j].userName {
        if j == |users| - 1 {
          assert users[i] == st.users[i];
          assert users[j].userName == req.username;
        } else {
          assert users[i] == st.users[i] && users[j] == st.users[j];
        }
      }
    }
  }

  /** Sign-up keeps ids unique when the store hands out an id no account has. */
  lemma SignUpPreservesUniqueIds(st: Stores, req: SignUpRequest, stamp: string, newId: int,
                                 create: (UserApp, string) -> IdentityResult)
    requires UniqueIds(st.users)
    requires FindById(st.users, newId).None?
    ensures UniqueIds(SignUp(st, req, stamp, newId, create).stores.users)
  {
    var o := SignUp(st, req, stamp, newId, create);
    if o.result.Ok? {
      var users := o.stores.users;
      forall i, j | 0 <= i < j < |users| ensures users[i].id != users[j].id {
        if j == |users| - 1 {
          assert users[i] == st.users[i];
        } else {
          assert users[i] == st.users[i] && users[j] == st.users[j];
        }
      }
    }
  }

  /** After a successful sign-up the new account is the one found under its name,
      and a second sign-up with the same name is refused as a duplicate. */
  lemma SignUpThenFindAndRepeat(st: Stores, req: SignUpRequest, stamp: string, newId: int,
                                create: (UserApp, string) -> IdentityResult,
                                req2: SignUpRequest, stamp2: string, newId2: int)
    requires SignUp(st, req, stamp, newId, create).result.Ok?
    requires req2.username == req.username
    ensures var after := SignUp(st, req, stamp, newId, create).stores;
            && FindByName(after.users, req.username)
               == Some(NewAccount(req.username, st.payroll[req.username], stamp, newId))
            && SignUp(after, req2, stamp2, newId2, create)
               == Outcome(Err(ArgumentException(UserNameTakenMessage)), after)
  {
    var u := NewAccount(req.username, st.payroll[req.username], stamp, newId);
    FindByNameAppend(st.users, u, req.username);
  }

  /** The confirmation field plays no part: sign-up never compares it with the password. */
  lemma SignUpIgnoresConfirmPassword(st: Stores, req: SignUpRequest, confirm: string, stamp: string,
                                     newId: int, create: (UserApp, string) -> IdentityResult)
    ensures SignUp(st, req.(confirmPassword := confirm), stamp, newId, create)
            == SignUp(st, req, stamp, newId, create)
  {
  }

  // ---------------------------------------------------------------------------
  // Sign-in
  // ---------------------------------------------------------------------------

  datatype SignInRequest = SignInRequest(username: string, password: string)

  /** Claim types: `ClaimTypes.Name`, `.NameIdentifier`, `.Email`, `.Role`,
      `JwtRegisteredClaimNames.Jti` and the custom "client_ip". */
  datatype ClaimType = NameClaim | NameIdentifierClaim | EmailClaim | JtiClaim | ClientIpClaim | RoleClaim

  datatype Claim = Claim(claimType: ClaimType, value: string)

  /** Token settings read from configuration ("Jwt:Key", "Jwt:Issuer", "Jwt:Audience"). */
  datatype JwtConfig = JwtConfig(key: string, issuer: string, audience: string)

  /** The token before serialisation and signing (HMAC-SHA256 with the configured key). */
  datatype JwtSecurityToken = JwtSecurityToken(
    issuer: string, audience: string, expires: int, claims: seq<Claim>, signingKey: string)

  datatype SsoResponse = SsoResponse(
    accessToken: JwtSecurityToken, expiration: int, roles: seq<string>, appUser: UserApp)

  /** Times are in seconds; a token lives three hours. */
  const TokenLifetime: int := 3 * 60 * 60

  /** One Role claim per role, in the order given. */
  function RoleClaims(roles: seq<string>): (cs: seq<Claim>)
    ensures |cs| == |roles|
    ensures forall i :: 0 <= i < |roles| ==> cs[i] == Claim(RoleClaim, roles[i])
  {
    seq(|roles|, i requires 0 <= i < |roles| => Claim(RoleClaim, roles[i]))
  }

  /** The sign-in claim list: the five identity claims, then the roles. */
  function AuthClaims(user: UserApp, jti: string, clientIp: string, roles: seq<string>): (cs: seq<Claim>)
    ensures |cs| == 5 + |roles|
    ensures cs[0].claimType == NameClaim && cs[1].claimType == NameIdentifierClaim
            && cs[2].claimType == EmailClaim && cs[3].claimType == JtiClaim && cs[4].claimType == ClientIpClaim
    ensures forall i :: 0 <= i < |roles| ==> cs[5 + i] == Claim(RoleClaim, roles[i])
  {
    [ Claim(NameClaim, user.userName),
      Claim(NameIdentifierClaim, IntToString(user.id)),
      Claim(EmailClaim, user.email),
      Claim(JtiClaim, jti),
      Claim(ClientIpClaim, clientIp) ]
    + RoleClaims(roles)
  }

  /** The values of the Role claims, in order: what an authorization check reads back. */
  function RoleValues(claims: seq<Claim>): (rs: seq<string>)
    ensures |rs| <= |claims|
    decreases |claims|
  {
    if |claims| == 0 then []
    else (if claims[0].claimType == RoleClaim then [claims[0].value] else []) + RoleValues(claims[1..])
  }

  /** `SignIn`: unknown name and wrong password fail; otherwise a token with the
      claims above and an expiry three hours after `now`. */
  function SignIn(st: Stores, req: SignInRequest, clientIp: string, config: JwtConfig,
                  checkPassword: (UserApp, string) -> bool, jti: string, now: int): (r: Result<SsoResponse>)
    ensures !HasName(st.users, req.username) ==> r == Err(ArgumentException(UserNotFoundMessage))
    ensures (HasName(st.users, req.username)
             && !checkPassword(FindByName(st.users, req.username).value, req.password))
            ==> r == Err(ArgumentException(InvalidPasswordMessage))
    ensures r.Ok? <==>
              HasName(st.users, req.username)
              && checkPassword(FindByName(st.users, req.username).value, req.password)
    ensures r.Ok? ==>
              var user := FindByName(st.users, req.username).value;
              var roles := RolesOf(st.roles, user.id);
              && r.value.appUser == user && user.userName == req.username
              && r.value.roles == roles
              && r.value.expiration == now + TokenLifetime
              && r.value.accessToken.expires == r.value.expiration
              && r.value.accessToken.issuer == config.issuer
              && r.value.accessToken.audience == config.audience
              && r.value.accessToken.signingKey == config.key
              && r.value.accessToken.claims == AuthClaims(user, jti, clientIp, roles)
  {
    match FindByName(st.users, req.username)
    case None => Err(ArgumentException(UserNotFoundMessage))
    case Some(user) =>
      if !checkPassword(user, req.password) then Err(ArgumentException(InvalidPasswordMessage))
      else
        var roles := RolesOf(st.roles, user.id);
        var expires := now + TokenLifetime;
        var token := JwtSecurityToken(config.issuer, config.audience, expires,
                                      AuthClaims(user, jti, clientIp, roles), config.key);
        Ok(SsoResponse(token, expires, roles, user))
  }

  /** The claim list: five identity claims in the order Name, NameIdentifier, Email,
      Jti, client_ip, then exactly the roles, so its length is 5 + the number of roles;
      the Role claims read back as the role list, and the NameIdentifier claim reads
      back as the account id. */
  lemma AuthClaimsShape(user: UserApp, jti: string, clientIp: string, roles: seq<string>)
    ensures var cs := AuthClaims(user, jti, clientIp, roles);
      && |cs| == 5 + |roles|
      && cs[0] == Claim(NameClaim, user.userName)
      && cs[1].claimType == NameIdentifierClaim && ParseInt(cs[1].value) == Some(user.id)
      && cs[2] == Claim(EmailClaim, user.email)
      && cs[3] == Claim(JtiClaim, jti)
      && cs[4] == Claim(ClientIpClaim, clientIp)
      && (forall i :: 0 <= i < |roles| ==> cs[5 + i] == Claim(RoleClaim, roles[i]))
      && RoleValues(cs) == roles
  {
    var cs := AuthClaims(user, jti, clientIp, roles);
    ParseIntToString(user.id);
    assert cs[5..] == RoleClaims(roles);
    RoleValuesSkip(cs, 5);
    RoleValuesOfRoleClaims(roles);
  }

  /** Claims that are not Role claims contribute nothing to the role list. */
  lemma {:induction false} RoleValuesSkip(cs: seq<Claim>, k: nat)
    requires k <= |cs|
    requires forall i :: 0 <= i < k ==> cs[i].claimType != RoleClaim
    ensures RoleValues(cs) == RoleValues(cs[k..])
    decreases k
  {
    if k > 0 {
      assert cs[1..][k - 1..] == cs[k..];
      RoleValuesSkip(cs[1..], k - 1);
    }
  }

  lemma {:induction false} RoleValuesOfRoleClaims(roles: seq<string>)
    ensures RoleValues(RoleClaims(roles)) == roles
    decreases |roles|
  {
    if |roles| > 0 {
      assert RoleClaims(roles)[1..] == RoleClaims(roles[1..]);
      RoleValuesOfRoleClaims(roles[1..]);
    }
  }

  /** Whatever the password and the clock, the token expires exactly three hours after
      issue, and the expiry reported to the caller is the token's own. */
  lemma SignInExpiry(st: Stores, req: SignInRequest, clientIp: string, config: JwtConfig,
                     checkPassword: (UserApp, string) -> bool, jti: string, now: int)
    requires SignIn(st, req, clientIp, config, checkPassword, jti, now).Ok?
    ensures var resp := SignIn(st, req, clientIp, config, checkPassword, jti, now).value;
            resp.expiration == resp.accessToken.expires == now + 3 * 3600
  {
  }

  // ---------------------------------------------------------------------------
  // Role grant
  // ---------------------------------------------------------------------------

  /** `FindByIdAsync(userId.ToString())`: the id travels as its decimal string and is
      parsed back by the identity library. */
  function FindByIdString(users: seq<UserApp>, key: string): (r: Option<UserApp>)
    ensures ParseInt(key).None? ==> r.None?
    ensures r.Some? ==> r.value in users && ParseInt(key) == Some(r.value.id)
  {
    match ParseInt(key)
    case None => None
    case Some(id) => FindById(users, id)
  }

  /** Looking an account up by its id's decimal string finds the same account as
      looking it up by the id. */
  lemma FindByIdStringOfId(users: seq<UserApp>, id: int)
    ensures FindByIdString(users, IntToString(id)) == FindById(users, id)
  {
    ParseIntToString(id);
  }

  /** The library's role update, as `AddToRoleAsync(user, roleName)` performs it on the
      account's current roles: Err when it throws (for instance InvalidOperationException
      for a role the role table does not hold), otherwise its IdentityResult and the
      roles it leaves. */
  type AddToRole = (seq<string>, string) -> Result<RoleUpdate>

  /** `AddUserToRoleAsync`: an unknown id fails with "User not found."; an exception of
      the library propagates; otherwise the account's roles become what the library
      left, and the IdentityResult is discarded, so a refused grant is still a success.
      Nothing else changes. */
  function AddUserToRole(st: Stores, userId: int, roleName: string, addToRole: AddToRole): (o: Outcome<()>)
    ensures FindById(st.users, userId).None? ==>
              o.result == Err(ArgumentException(UserNotFoundMessage)) && o.stores == st
    ensures FindById(st.users, userId).Some? && addToRole(RolesOf(st.roles, userId), roleName).Err? ==>
              o.result == Err(addToRole(RolesOf(st.roles, userId), roleName).error) && o.stores == st
    ensures o.result.Ok? <==>
              FindById(st.users, userId).Some? && addToRole(RolesOf(st.roles, userId), roleName).Ok?
    ensures o.result.Ok? ==>
              && o.stores.users == st.users && o.stores.payroll == st.payroll
              && RolesOf(o.stores.roles, userId) == addToRole(RolesOf(st.roles, userId), roleName).value.roles
              && (forall id :: id != userId ==> RolesOf(o.stores.roles, id) == RolesOf(st.roles, id))
  {
    FindByIdStringOfId(st.users, userId);
    match FindByIdString(st.users, IntToString(userId))
    case None => Outcome(Err(ArgumentException(UserNotFoundMessage)), st)
    case Some(user) =>
      match addToRole(RolesOf(st.roles, user.id), roleName)
      case Err(e) => Outcome(Err(e), st)
      case Ok(update) => Outcome(Ok(()), st.(roles := st.roles[user.id := update.roles]))
  }

  /** The grant reports success even when the library refuses it: its IdentityResult
      is never looked at. */
  lemma RefusedGrantReportsSuccess(st: Stores, userId: int, roleName: string, addToRole: AddToRole,
                                   errors: seq<string>)
    requires FindById(st.users, userId).Some?
    requires addToRole(RolesOf(st.roles, userId), roleName).Ok?
    requires addToRole(RolesOf(st.roles, userId), roleName).value.result == IdentityFailed(errors)
    ensures AddUserToRole(st, userId, roleName, addToRole).result == Ok(())
  {
  }

  /** `AddUserToAdminRole`: the grant with the role "Admin". */
  function AddUserToAdminRole(st: Stores, userId: int, addToRole: AddToRole): (o: Outcome<()>)
    ensures FindById(st.users, userId).None? ==>
              o.result == Err(ArgumentException(UserNotFoundMessage)) && o.stores == st
    ensures FindById(st.users, userId).Some? && addToRole(RolesOf(st.roles, userId), AdminRole).Err? ==>
              o.result == Err(addToRole(RolesOf(st.roles, userId), AdminRole).error) && o.stores == st
    ensures o.result.Ok? <==>
              FindById(st.users, userId).Some? && addToRole(RolesOf(st.roles, userId), AdminRole).Ok?
    ensures o.result.Ok? ==>
              && o.stores.users == st.users && o.stores.payroll == st.payroll
              && RolesOf(o.stores.roles, userId) == addToRole(RolesOf(st.roles, userId), AdminRole).value.roles
              && (forall id :: id != userId ==> RolesOf(o.stores.roles, id) == RolesOf(st.roles, id))
  {
    AddUserToRole(st, userId, AdminRole, addToRole)
  }

  /** If the library's role update leaves the account holding the role, a later
      sign-in of that account lists the role and carries a Role claim for it. */
  lemma GrantedRoleReachesToken(st: Stores, userId: int, roleName: string, addToRole: AddToRole,
                                req: SignInRequest, clientIp: string, config: JwtConfig,
                                checkPassword: (UserApp, string) -> bool, jti: string, now: int)
    requires addToRole(RolesOf(st.roles, userId), roleName).Ok?
    requires roleName in addToRole(RolesOf(st.roles, userId), roleName).value.roles
    requires AddUserToRole(st, userId, roleName, addToRole).result.Ok?
    requires var after := AddUserToRole(st, userId, roleName, addToRole).stores;
             SignIn(after, req, clientIp, config, checkPassword, jti, now).Ok?
    requires var after := AddUserToRole(st, userId, roleName, addToRole).stores;
             SignIn(after, req, clientIp, config, checkPassword, jti, now).value.appUser.id == userId
    ensures var after := AddUserToRole(st, userId, roleName, addToRole).stores;
            var resp := SignIn(after, req, clientIp, config, checkPassword, jti, now).value;
            roleName in resp.roles && Claim(RoleClaim, roleName) in resp.accessToken.claims
  {
    var after := AddUserToRole(st, userId, roleName, addToRole).stores;
    var resp := SignIn(after, req, clientIp, config, checkPassword, jti, now).value;
    AuthClaimsShape(resp.appUser, jti, clientIp, resp.roles);
    var i :| 0 <= i < |resp.roles| && resp.roles[i] == roleName;
    assert resp.accessToken.claims[5 + i] == Claim(RoleClaim, roleName);
  }

  // ---------------------------------------------------------------------------
  // Lookup and update
  // ---------------------------------------------------------------------------

  /** `GetUserById`: the account, or an ArgumentException when there is none. */
  function GetUserById(st: Stores, userId: int): (r: Result<UserApp>)
    ensures r.Ok? <==> exists i :: 0 <= i < |st.users| && st.users[i].id == userId
    ensures r.Ok? ==> r.value in st.users && r.value.id == userId
    ensures r.Err? ==> r.error == ArgumentException(UserDoesNotExistMessage)
  {
    match FindById(st.users, userId)
    case None => Err(ArgumentException(UserDoesNotExistMessage))
    case Some(u) => Ok(u)
  }

  /** `UpdateUser`: the stored account with the same id takes the given e-mail and
      user name and keeps everything else; `affected` is the row count the
      repository reports. */
  function UpdateUser(st: Stores, user: UserApp, affected: int): (o: Outcome<int>)
    ensures o.result.Err? <==> FindById(st.users, user.id).None?
    ensures o.result.Err? ==> o.result.error == ArgumentException(UserNotFoundMessage) && o.stores == st
    ensures o.result.Ok? ==>
              && o.result.value == affected
              && o.stores.payroll == st.payroll && o.stores.roles == st.roles
              && |o.stores.users| == |st.users|
              && var k := FindIndexById(st.users, user.id).value;
                 && o.stores.users[k] == st.users[k].(email := user.email, userName := user.userName)
                 && (forall i :: 0 <= i < |st.users| && i != k ==> o.stores.users[i] == st.users[i])
  {
    match FindIndexById(st.users, user.id)
    case None => Outcome(Err(ArgumentException(UserNotFoundMessage)), st)
    case Some(k) =>
      var found := st.users[k];
      var updated := found.(email := user.email, userName := user.userName);
      Outcome(Ok(affected), st.(users := st.users[k := updated]))
  }

  /** An update changes only the e-mail and user name: id, RaNome, payroll id,
      security stamp, discriminator and photo of the stored account stay as they were,
      whatever the caller's record says about them. */
  lemma UpdateUserKeepsOtherFields(st: Stores, user: UserApp, affected: int)
    requires FindById(st.users, user.id).Some?
    ensures var o := UpdateUser(st, user, affected);
            var before := FindById(st.users, user.id).value;
            var k := FindIndexById(st.users, user.id).value;
            && o.stores.users[k].id == before.id == user.id
            && o.stores.users[k].raNome == before.raNome
            && o.stores.users[k].userProtheusId == before.userProtheusId
            && o.stores.users[k].securityStamp == before.securityStamp
            && o.stores.users[k].discriminator == before.discriminator
            && o.stores.users[k].foto == before.foto
            && o.stores.users[k].email == user.email
            && o.stores.users[k].userName == user.userName
            && FindById(o.stores.users, user.id) == Some(o.stores.users[k])
  {
    var o := UpdateUser(st, user, affected);
    var k := FindIndexById(st.users, user.id).value;
    FindIndexAfterUpdate(st.users, k, o.stores.users[k]);
  }

  /** Replacing the first row with a given id by a row with the same id keeps it the
      first such row. */
  lemma FindIndexAfterUpdate(users: seq<UserApp>, k: nat, v: UserApp)
    requires FindIndexById(users, v.id) == Some(k)
    ensures FindIndexById(users[k := v], v.id) == Some(k)
  {
    var us := users[k := v];
    var r := FindIndexById(us, v.id);
    assert us[k].id == v.id;
  }

  /** An update never changes an id, so ids stay unique. */
  lemma UpdateUserPreservesUniqueIds(st: Stores, user: UserApp, affected: int)
    requires UniqueIds(st.users)
    ensures UniqueIds(UpdateUser(st, user, affected).stores.users)
  {
    var after := UpdateUser(st, user, affected).stores.users;
    forall i, j | 0 <= i < j < |after| ensures after[i].id != after[j].id {
      assert after[i].id == st.users[i].id && after[j].id == st.users[j].id;
    }
  }

  /** The update takes a new user name without asking whether another account holds
      it: two accounts "ana" and "bia", and "bia" renamed to "ana", leave two
      accounts named "ana". */
  lemma UpdateUserMayDuplicateName()
    ensures var ana := UserApp(1, "ana", "ana", "p1", "ana@x", "s1", None, None);
            var bia := UserApp(2, "bia", "bia", "p2", "bia@x", "s2", None, None);
            var st := Stores(map[], [ana, bia], map[]);
            var after := UpdateUser(st, bia.(userName := "ana"), 1).stores.users;
            && UniqueNames(st.users)
            && UpdateUser(st, bia.(userName := "ana"), 1).result == Ok(1)
            && after[0].userName == after[1].userName == "ana"
            && !UniqueNames(after)
  {
    var ana := UserApp(1, "ana", "ana", "p1", "ana@x", "s1", None, None);
    var bia := UserApp(2, "bia", "bia", "p2", "bia@x", "s2", None, None);
    var st := Stores(map[], [ana, bia], map[]);
    assert FindIndexById(st.users, 2) == Some(1) by {
      assert st.users[1..] == [bia];
    }
    assert "ana" != "bia" by { assert "ana"[0] != "bia"[0]; }
  }

  /** Some account other than the one at `k` has user name `name`. */
  predicate NameHeldByOther(users: seq<UserApp>, name: string, k: int) {
    exists i :: 0 <= i < |users| && i != k && users[i].userName == name
  }

  /** The update with the duplicate-name check sign-up performs: a name another
      account holds is rejected with "Nome de usuário já existe." and nothing changes;
      otherwise it is `UpdateUser`. */
  function UpdateUserChecked(st: Stores, user: UserApp, affected: int): (o: Outcome<int>)
    ensures FindById(st.users, user.id).None? ==> o == UpdateUser(st, user, affected)
    ensures FindById(st.users, user.id).Some? ==>
              var k := FindIndexById(st.users, user.id).value;
              && (NameHeldByOther(st.users, user.userName, k) ==>
                    o == Outcome(Err(ArgumentException(UserNameTakenMessage)), st))
              && (!NameHeldByOther(st.users, user.userName, k) ==> o == UpdateUser(st, user, affected))
  {
    match FindIndexById(st.users, user.id)
    case None => UpdateUser(st, user, affected)
    case Some(k) =>
      if NameHeldByOther(st.users, user.userName, k)
      then Outcome(Err(ArgumentException(UserNameTakenMessage)), st)
      else UpdateUser(st, user, affected)
  }

  /** With the check, an update keeps user names unique, as sign-up does. */
  lemma UpdateUserCheckedPreservesUniqueNames(st: Stores, user: UserApp, affected: int)
    requires UniqueNames(st.users)
    ensures UniqueNames(UpdateUserChecked(st, user, affected).stores.users)
  {
    var o := UpdateUserChecked(st, user, affected);
    if o.result.Ok? {
      var k := FindIndexById(st.users, user.id).value;
      var after := o.stores.users;
      assert !NameHeldByOther(st.users, user.userName, k);
      forall i, j | 0 <= i < j < |after| ensures after[i].userName != after[j].userName {
        if i == k {
          assert after[i].userName == user.userName && after[j] == st.users[j];
        } else if j == k {
          assert after[j].userName == user.userName && after[i] == st.users[i];
        } else {
          assert after[i] == st.users[i] && after[j] == st.users[j];
        }
      }
    }
  }

  // ---------------------------------------------------------------------------
  // Password reset
  // ---------------------------------------------------------------------------

  datatype Email = Email(to: string, subject: string, body: string)

  /** The result of `EsqueciSenha` and the e-mail handed to the mailer, if any. */
  datatype ForgotOutcome = ForgotOutcome(result: Result<bool>, sent: Option<Email>)

  const ResetSubject := "Recuperação de Senha"
  const ResetPath := "/reset-password?token="
  const UsernameParam := "&username="

  /** `{Frontend}/reset-password?token={encodedToken}&username={userName}`. */
  function ResetLink(frontend: string, encodedToken: string, userName: string): (link: string)
    ensures |link| == |frontend| + |ResetPath| + |encodedToken| + |UsernameParam| + |userName|
    ensures link[..|frontend| + |ResetPath|] == frontend + ResetPath
    ensures link[|frontend| + |ResetPath|..|frontend| + |ResetPath| + |encodedToken|] == encodedToken
    ensures link[|link| - |userName| - |UsernameParam|..] == UsernameParam + userName
  {
    frontend + ResetPath + encodedToken + UsernameParam + userName
  }

  function ResetBody(link: string): string {
    "Clique no link abaixo para redefinir sua senha: <a href='" + link + "'>Redefinir Senha</a>"
  }

  /** `EsqueciSenha`: unknown name fails before any token is made; otherwise the link
      is mailed to the account's address, and a refused send raises. */
  function EsqueciSenha(st: Stores, frontend: string, username: string,
                        resetToken: UserApp -> string, urlEncode: string -> string,
                        send: Email -> bool): (o: ForgotOutcome)
    ensures !HasName(st.users, username) ==>
              o == ForgotOutcome(Err(ArgumentException(UsuarioNaoEncontradoMessage)), None)
    ensures HasName(st.users, username) ==>
              var user := FindByName(st.users, username).value;
              var link := ResetLink(frontend, urlEncode(resetToken(user)), user.userName);
              && o.sent == Some(Email(user.email, ResetSubject, ResetBody(link)))
              && (o.result.Ok? <==> send(o.sent.value))
              && (o.result.Ok? ==> o.result.value)
              && (o.result.Err? ==> o.result.error == GeneralException(EmailFailedMessage))
  {
    match FindByName(st.users, username)
    case None => ForgotOutcome(Err(ArgumentException(UsuarioNaoEncontradoMessage)), None)
    case Some(user) =>
      var token := resetToken(user);
      var link := ResetLink(frontend, urlEncode(token), user.userName);
      var email := Email(user.email, ResetSubject, ResetBody(link));
      if !send(email) then ForgotOutcome(Err(GeneralException(EmailFailedMessage)), Some(email))
      else ForgotOutcome(Ok(true), Some(email))
  }

  /** For an unknown name the token generator, the encoder and the mailer make no
      difference: none of them is reached. */
  lemma EsqueciSenhaUnknownReachesNothing(st: Stores, frontend: string, username: string,
                                          t1: UserApp -> string, e1: string -> string, s1: Email -> bool,
                                          t2: UserApp -> string, e2: string -> string, s2: Email -> bool)
    requires !HasName(st.users, username)
    ensures EsqueciSenha(st, frontend, username, t1, e1, s1) == EsqueciSenha(st, frontend, username, t2, e2, s2)
  {
  }

  /** The mailed link names the account: its user-name parameter is the found
      account's stored name, which under the exact lookup is the name asked for. */
  lemma ResetLinkNamesAccount(st: Stores, frontend: string, username: string,
                              resetToken: UserApp -> string, urlEncode: string -> string, send: Email -> bool)
    requires HasName(st.users, username)
    ensures var user := FindByName(st.users, username).value;
            var link := ResetLink(frontend, urlEncode(resetToken(user)), user.userName);
            && link[|link| - |user.userName| - |UsernameParam|..] == UsernameParam + user.userName
            && user.userName == username
            && link[|link| - |username| - |UsernameParam|..] == UsernameParam + username
  {
  }

  /** `RedefinirSenhaAsync`: unknown name fails; a rejected reset fails with every
      error description joined by ", " after a fixed prefix. */
  function RedefinirSenha(st: Stores, username: string, token: string, newPassword: string,
                          resetPassword: (UserApp, string, string) -> IdentityResult): (r: Result<bool>)
    ensures !HasName(st.users, username) ==> r == Err(ArgumentException(UsuarioNaoEncontradoMessage))
    ensures HasName(st.users, username) ==>
              var outcome := resetPassword(FindByName(st.users, username).value, token, newPassword);
              && (r.Ok? <==> outcome == IdentitySucceeded)
              && (r.Ok? ==> r.value)
              && (r.Err? ==> r.error == ArgumentException(ResetFailedPrefix + Join(", ", outcome.errors)))
  {
    match FindByName(st.users, username)
    case None => Err(ArgumentException(UsuarioNaoEncontradoMessage))
    case Some(user) =>
      match resetPassword(user, token, newPassword)
      case IdentitySucceeded => Ok(true)
      case IdentityFailed(errors) =>
        Err(ArgumentException(ResetFailedPrefix + Join(", ", errors)))
  }

  /** A rejected reset's message starts with the fixed prefix followed by the first
      error description and ends with the last one. */
  lemma ResetFailureMessageCarriesErrors(prefix: string, errors: seq<string>)
    requires |errors| > 0
    ensures prefix + errors[0] <= prefix + Join(", ", errors)
    ensures IsSuffix(errors[|errors| - 1], prefix + Join(", ", errors))
  {
    var j := Join(", ", errors);
    SuffixOfAppend(errors[|errors| - 1], j, prefix);
    PrefixOfAppend(errors[0], j, prefix);
  }
}
