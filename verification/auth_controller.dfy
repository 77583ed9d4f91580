/** `AuthController`: the registration-status check, and how the sign-up,
    sign-in, admin-grant and user-lookup endpoints turn the service's results
    and exceptions into HTTP responses. Every exception the service raises
    becomes a 500 here, whatever its cause.
 */
module AuthController {
  import opened Wrappers
  import opened Identity
  import opened AuthService
  import opened BaseController

  // ---------------------------------------------------------------------------
  // Registration status
  // ---------------------------------------------------------------------------

  datatype CadastroStatus = USUARIO_NAO_ENCONTRADO | USUARIO_NAO_REGISTRADO | USUARIO_REGISTRADO

  /** `CadastroStatus.ToString()`. */
  function StatusName(s: CadastroStatus): string {
    match s
    case USUARIO_NAO_ENCONTRADO => "USUARIO_NAO_ENCONTRADO"
    case USUARIO_NAO_REGISTRADO => "USUARIO_NAO_REGISTRADO"
    case USUARIO_REGISTRADO => "USUARIO_REGISTRADO"
  }

  datatype VerificarCadastroResponse = VerificarCadastroResponse(login: bool, status: string, mensagem: string)

  const NaoEncontradoMessage := "Usuário não encontrado."
  const NaoRegistradoMessage := "Usuário encontrado, mas não registrado."
  const RegistradoMessage := "Usuário registrado."

  /** The status of a username against the payroll table and the local accounts,
      payroll first. */
  function Classify(st: Stores, usuario: string): (s: CadastroStatus)
    ensures s == USUARIO_NAO_ENCONTRADO <==> usuario !in st.payroll
    ensures s == USUARIO_NAO_REGISTRADO <==> usuario in st.payroll && !HasName(st.users, usuario)
    ensures s == USUARIO_REGISTRADO <==> usuario in st.payroll && HasName(st.users, usuario)
  {
    match FindProtheus(st.payroll, usuario)
    case None => USUARIO_NAO_ENCONTRADO
    case Some(_) =>
      match FindByName(st.users, usuario)
      case None => USUARIO_NAO_REGISTRADO
      case Some(_) => USUARIO_REGISTRADO
  }

  /** `VerificarCadastro(usuario)`: always a 200 carrying the status, its message,
      and Login set only for a registered user. */
  function VerificarCadastro(st: Stores, usuario: string, selfUrl: Option<string>)
    : (r: ActionResult<VerificarCadastroResponse>)
    ensures r.status == 200 && r.body.error == None && r.body.data.Some?
    ensures usuario !in st.payroll ==>
              r.body.data.value
              == VerificarCadastroResponse(false, "USUARIO_NAO_ENCONTRADO", NaoEncontradoMessage)
    ensures usuario in st.payroll && !HasName(st.users, usuario) ==>
              r.body.data.value
              == VerificarCadastroResponse(false, "USUARIO_NAO_REGISTRADO", NaoRegistradoMessage)
    ensures usuario in st.payroll && HasName(st.users, usuario) ==>
              r.body.data.value == VerificarCadastroResponse(true, "USUARIO_REGISTRADO", RegistradoMessage)
    ensures r.body.data.value.login <==> usuario in st.payroll && HasName(st.users, usuario)
  {
    var status := Classify(st, usuario);
    var body :=
      match status
      case USUARIO_NAO_ENCONTRADO =>
        VerificarCadastroResponse(false, StatusName(status), NaoEncontradoMessage)
      case USUARIO_NAO_REGISTRADO =>
        VerificarCadastroResponse(false, StatusName(status), NaoRegistradoMessage)
      case USUARIO_REGISTRADO =>
        VerificarCadastroResponse(true, StatusName(status), RegistradoMessage);
    CreateResponse(body, selfUrl)
  }

  /** Each username gets exactly one of the three status strings. */
  lemma StatusNamesDistinct(a: CadastroStatus, b: CadastroStatus)
    ensures StatusName(a) == StatusName(b) <==> a == b
  {
    if a != b {
      assert StatusName(a)[12] != StatusName(b)[12] || |StatusName(a)| != |StatusName(b)|;
    }
  }

  /** Without a payroll row the local accounts are never consulted: any two account
      tables give the same answer. */
  lemma VerificarCadastroSkipsLocalStore(st1: Stores, st2: Stores, usuario: string, selfUrl: Option<string>)
    requires st1.payroll == st2.payroll
    requires usuario !in st1.payroll
    ensures VerificarCadastro(st1, usuario, selfUrl) == VerificarCadastro(st2, usuario, selfUrl)
  {
  }

  /** The status predicts sign-up: not found fails on the payroll check, registered
      fails as a duplicate, and only an unregistered payroll user can sign up. */
  lemma ClassifyPredictsSignUp(st: Stores, req: SignUpRequest, stamp: string, newId: int,
                               create: (UserApp, string) -> IdentityResult)
    ensures Classify(st, req.username) == USUARIO_NAO_ENCONTRADO ==>
              SignUp(st, req, stamp, newId, create).result == Err(ArgumentException(NoPayrollMessage))
    ensures Classify(st, req.username) == USUARIO_REGISTRADO ==>
              SignUp(st, req, stamp, newId, create).result == Err(ArgumentException(UserNameTakenMessage))
    ensures SignUp(st, req, stamp, newId, create).result.Ok? ==>
              Classify(st, req.username) == USUARIO_NAO_REGISTRADO
              && Classify(SignUp(st, req, stamp, newId, create).stores, req.username) == USUARIO_REGISTRADO
  {
    var o := SignUp(st, req, stamp, newId, create);
    if o.result.Ok? {
      var u := NewAccount(req.username, st.payroll[req.username], stamp, newId);
      FindByNameAppend(st.users, u, req.username);
    }
  }

  // ---------------------------------------------------------------------------
  // Sign-up and sign-in endpoints
  // ---------------------------------------------------------------------------

  const IpUnavailable := "IP não disponível"
  const SignUpFalseMessage := "Falha ao registrar o usuário."
  const SignUpErrorMessage := "Um erro inesperado ocorreu durante o registro do usuário."
  const SignInErrorMessage := "Um erro inesperado ocorreu durante o login do usuário."

  /** The caller's address, or a fixed text when the connection has none. */
  function ClientIp(remote: Option<string>): (ip: string)
    ensures remote.None? ==> ip == IpUnavailable
    ensures remote.Some? ==> ip == remote.value
  {
    remote.GetOr(IpUnavailable)
  }

  /** A response together with the stores the request left behind. */
  datatype ActionOutcome<T> = ActionOutcome(response: ActionResult<T>, stores: Stores)

  /** `SignUp` endpoint: 200 with `true`, or 500 for any exception. */
  function SignUpAction(st: Stores, req: SignUpRequest, stamp: string, newId: int,
                        create: (UserApp, string) -> IdentityResult, selfUrl: Option<string>)
    : (r: ActionOutcome<bool>)
    ensures r.stores == SignUp(st, req, stamp, newId, create).stores
    ensures r.response.status == 200 <==> SignUp(st, req, stamp, newId, create).result.Ok?
    ensures r.response.status == 200 ==> r.response.body.data == Some(true)
    ensures r.response.status != 200 ==>
              IsError(r.response, 500, SignUpErrorMessage) && r.stores == st
  {
    var o := SignUp(st, req, stamp, newId, create);
    var response :=
      match o.result
      case Err(_) => HandleServerError(SignUpErrorMessage)
      case Ok(created) => if created then CreateResponse(true, selfUrl) else HandleServerError(SignUpFalseMessage);
    ActionOutcome(response, o.stores)
  }

  /** A missing payroll row and a duplicate name both come out as 500, not 400,
      and leave the stores as they were. */
  lemma SignUpRejectionsAreServerErrors(st: Stores, req: SignUpRequest, stamp: string, newId: int,
                                        create: (UserApp, string) -> IdentityResult, selfUrl: Option<string>)
    requires req.username !in st.payroll || HasName(st.users, req.username)
    ensures SignUpAction(st, req, stamp, newId, create, selfUrl).response.status == 500
    ensures SignUpAction(st, req, stamp, newId, create, selfUrl).stores == st
  {
  }

  /** `SignIn` endpoint: the client address (or its placeholder) goes into the token;
      200 with the sign-in response, or 500 for any exception. */
  function SignInAction(st: Stores, req: SignInRequest, remote: Option<string>, config: JwtConfig,
                        checkPassword: (UserApp, string) -> bool, jti: string, now: int,
                        selfUrl: Option<string>): (r: ActionResult<SsoResponse>)
    ensures r.status == 200 || r.status == 500
    ensures r.status == 200 <==> SignIn(st, req, ClientIp(remote), config, checkPassword, jti, now).Ok?
    ensures r.status == 200 ==>
              r.body.data == Some(SignIn(st, req, ClientIp(remote), config, checkPassword, jti, now).value)
    ensures r.status == 500 ==> IsError(r, 500, SignInErrorMessage)
  {
    match SignIn(st, req, ClientIp(remote), config, checkPassword, jti, now)
    case Err(_) => HandleServerError(SignInErrorMessage)
    case Ok(response) => CreateResponse(response, selfUrl)
  }

  /** An unknown user and a wrong password get the same 500 answer: never 401 or 404,
      and nothing in the response tells the two apart. */
  lemma SignInFailuresAreServerErrors(st: Stores, req: SignInRequest, remote: Option<string>,
                                      config: JwtConfig, checkPassword: (UserApp, string) -> bool,
                                      jti: string, now: int, selfUrl: Option<string>)
    requires !HasName(st.users, req.username)
             || !checkPassword(FindByName(st.users, req.username).value, req.password)
    ensures SignInAction(st, req, remote, config, checkPassword, jti, now, selfUrl)
            == HandleServerError(SignInErrorMessage)
  {
  }

  /** With no remote address the token's client_ip claim holds the placeholder text. */
  lemma SignInWithoutAddress(st: Stores, req: SignInRequest, config: JwtConfig,
                             checkPassword: (UserApp, string) -> bool, jti: string, now: int,
                             selfUrl: Option<string>)
    requires SignInAction(st, req, None, config, checkPassword, jti, now, selfUrl).status == 200
    ensures var resp := SignInAction(st, req, None, config, checkPassword, jti, now, selfUrl).body.data.value;
            resp.accessToken.claims[4] == Claim(ClientIpClaim, "IP não disponível")
  {
    var resp := SignInAction(st, req, None, config, checkPassword, jti, now, selfUrl).body.data.value;
    AuthClaimsShape(resp.appUser, jti, IpUnavailable, resp.roles);
  }

  // ---------------------------------------------------------------------------
  // Admin grant and lookup by id
  // ---------------------------------------------------------------------------

  const AddAdminErrorPrefix := "Um erro inesperado ocorreu ao adicionar o usuário "
  const AddAdminErrorSuffix := " ao papel de admin."
  const GetUserErrorMessage := "Um erro inesperado ocorreu ao recuperar o usuário."

  /** `AddUserToAdminRole` endpoint: 200 with `true` when the grant returns, or 500
      naming the id for any exception (an unknown id or a library failure). */
  function AddUserToAdminRoleAction(st: Stores, userId: int, addToRole: AddToRole,
                                    selfUrl: Option<string>): (r: ActionOutcome<bool>)
    ensures r.stores == AddUserToAdminRole(st, userId, addToRole).stores
    ensures r.response.status == 200 <==> AddUserToAdminRole(st, userId, addToRole).result.Ok?
    ensures r.response.status == 200 <==>
              FindById(st.users, userId).Some? && addToRole(RolesOf(st.roles, userId), AdminRole).Ok?
    ensures r.response.status == 200 ==> r.response.body.data == Some(true)
    ensures r.response.status != 200 ==>
              IsError(r.response, 500, AddAdminErrorPrefix + Text.IntToString(userId) + AddAdminErrorSuffix)
              && r.stores == st
  {
    var o := AddUserToAdminRole(st, userId, addToRole);
    match o.result
    case Err(_) =>
      ActionOutcome(HandleServerError(AddAdminErrorPrefix + Text.IntToString(userId) + AddAdminErrorSuffix), o.stores)
    case Ok(_) => ActionOutcome(CreateResponse(true, selfUrl), o.stores)
  }

  /** A library failure during the grant (such as an "Admin" role missing from the role
      table) is a 500 that changes nothing, even though the account exists. */
  lemma AdminGrantLibraryFailureIsServerError(st: Stores, userId: int, addToRole: AddToRole,
                                              selfUrl: Option<string>)
    requires FindById(st.users, userId).Some?
    requires addToRole(RolesOf(st.roles, userId), AdminRole).Err?
    ensures var r := AddUserToAdminRoleAction(st, userId, addToRole, selfUrl);
            r.response.status == 500 && r.stores == st
  {
  }

  /** A grant the library refuses is still answered 200 with `true`; the account's roles
      are whatever the library left. */
  lemma RefusedAdminGrantAnswers200(st: Stores, userId: int, addToRole: AddToRole,
                                    selfUrl: Option<string>, errors: seq<string>)
    requires FindById(st.users, userId).Some?
    requires addToRole(RolesOf(st.roles, userId), AdminRole).Ok?
    requires addToRole(RolesOf(st.roles, userId), AdminRole).value.result == IdentityFailed(errors)
    ensures var r := AddUserToAdminRoleAction(st, userId, addToRole, selfUrl);
            && r.response.status == 200 && r.response.body.data == Some(true)
            && RolesOf(r.stores.roles, userId) == addToRole(RolesOf(st.roles, userId), AdminRole).value.roles
  {
  }

  /** `GetUser(id)` endpoint: the lookup throws rather than returning null, so an
      unknown id is a 500, never the 404 the null check was written for. */
  function GetUserAction(st: Stores, id: int, selfUrl: Option<string>): (r: ActionResult<UserApp>)
    ensures r.status == 200 || r.status == 500
    ensures r.status == 200 <==> FindById(st.users, id).Some?
    ensures r.status == 200 ==> r.body.data == FindById(st.users, id)
    ensures r.status == 500 ==> IsError(r, 500, GetUserErrorMessage)
  {
    match GetUserById(st, id)
    case Err(_) => HandleServerError(GetUserErrorMessage)
    case Ok(user) => CreateResponse(user, selfUrl)
  }
}
