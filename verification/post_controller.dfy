/** `PostController`: model-state check and exception mapping for post creation,
    and the list endpoints' not-found rule and single-page metadata.

    The two list services (`GetPostsByCategoriaAsync`,
    `GetLatestPostsByCategoriaAsync`) are not part of this model: their reply
    (a list, null, or an exception) is an input.
 */
module PostController {
  import opened Wrappers
  import opened BaseController
  import opened PostService

  const AnonimoUser := "Anônimo"
  const CreateNullMessage := "Erro ao criar o post."
  const CreateUnauthorizedMessage := "Acesso não autorizado ao criar o post."
  const CreateErrorMessage := "Erro inesperado ao criar o post."
  const CategoriaNotFoundMessage := "Nenhum post encontrado para a categoria informada."
  const CategoriaErrorMessage := "Erro inesperado ao buscar posts por categoria. Por favor, tente novamente mais tarde."
  const LatestNotFoundMessage := "Nenhum post recente encontrado."
  const LatestErrorMessage := "Erro inesperado ao buscar posts recentes."

  datatype CreatePostRequest = CreatePostRequest(title: string, body: string, categoria: string, tags: seq<string>)

  /** `User.Identity?.Name ?? "Anônimo"`: the name the controller logs. */
  function ControllerUsername(nameClaim: Option<string>): (name: string)
    ensures nameClaim.Some? ==> name == nameClaim.value
    ensures nameClaim.None? ==> name == AnonimoUser
  {
    nameClaim.GetOr(AnonimoUser)
  }

  /** The response, and the post the service handed to the repository, if any. */
  datatype CreatePostOutcome = CreatePostOutcome(response: ActionResult<Post>, stored: Option<Post>)

  /** The catch clauses of `CreatePost`, in order: ArgumentException is 400 with its
      message as the detail, UnauthorizedAccessException 401, anything else 500. */
  function CreateErrorResponse(e: Exn): (r: ActionResult<Post>)
    ensures e.ArgumentException? ==>
              IsError(r, 400, InvalidRequestMessage) && r.body.error.value.details == Some([e.message])
    ensures e.UnauthorizedAccessException? ==> IsError(r, 401, CreateUnauthorizedMessage)
    ensures e.GeneralException? ==> IsError(r, 500, CreateErrorMessage)
  {
    match e
    case ArgumentException(message) => HandleBadRequest(message)
    case UnauthorizedAccessException(_) => HandleUnauthorized(CreateUnauthorizedMessage)
    case GeneralException(_) => HandleServerError(CreateErrorMessage)
  }

  /** `CreatePost`: invalid model state is 400 before the service runs; then the
      service's result or exception decides the response. `modelErrors` are the
      model-state messages (valid when there are none). */
  function CreatePost(modelErrors: seq<string>, request: CreatePostRequest, nameClaim: Option<string>,
                      now: int, repository: Post -> Result<Option<Post>>, selfUrl: Option<string>)
    : (r: CreatePostOutcome)
    ensures |modelErrors| > 0 ==>
              r.stored == None && IsError(r.response, 400, InvalidRequestMessage)
              && r.response.body.error.value.details == Some(modelErrors)
    ensures |modelErrors| == 0 ==>
              var o := CreatePostAsync(request.title, request.body, request.categoria, request.tags,
                                       nameClaim, now, repository);
              && r.stored == o.stored
              && (o.result.Err? ==> r.response == CreateErrorResponse(o.result.error))
              && (o.result == Ok(None) ==> IsError(r.response, 500, CreateNullMessage))
              && (o.result.Ok? && o.result.value.Some? ==>
                    r.response.status == 200 && r.response.body.data == o.result.value)
    ensures r.response.status == 200 || r.response.status == 400
            || r.response.status == 401 || r.response.status == 500
  {
    if |modelErrors| > 0 then
      CreatePostOutcome(HandleBadRequestModel(modelErrors), None)
    else
      var o := CreatePostAsync(request.title, request.body, request.categoria, request.tags,
                               nameClaim, now, repository);
      var response :=
        match o.result
        case Err(e) => CreateErrorResponse(e)
        case Ok(None) => HandleServerError(CreateNullMessage)
        case Ok(Some(post)) => CreateResponse(post, selfUrl);
      CreatePostOutcome(response, o.stored)
  }

  /** A category that names nothing is a 400 whose one detail is the service's
      message, and nothing is stored. */
  lemma CreatePostInvalidCategory(request: CreatePostRequest, nameClaim: Option<string>, now: int,
                                  repository: Post -> Result<Option<Post>>, selfUrl: Option<string>)
    requires Categoria.TryParse(request.categoria).None?
    ensures var r := CreatePost([], request, nameClaim, now, repository, selfUrl);
            && r.stored == None
            && IsError(r.response, 400, InvalidRequestMessage)
            && r.response.body.error.value.details == Some([InvalidCategoriaMessage(request.categoria)])
  {
  }

  /** With a Name claim the controller's user name and the post's author agree; without
      one the controller says "Anônimo" while the post is signed "Anonymous". */
  lemma AuthorAndControllerName(request: CreatePostRequest, nameClaim: Option<string>, now: int,
                                repository: Post -> Result<Option<Post>>, selfUrl: Option<string>)
    ensures var stored := CreatePost([], request, nameClaim, now, repository, selfUrl).stored;
            stored.Some? ==> ((stored.value.autor == ControllerUsername(nameClaim)) <==> nameClaim.Some?)
  {
  }

  /** A list reply as the list endpoints answer it: null or empty is 404, otherwise a
      single page holding every item. */
  function ListResponse(posts: Option<seq<Post>>, notFoundMessage: string, selfUrl: Option<string>,
                        pageUrl: (int, int) -> Option<string>): (r: ActionResult<seq<Post>>)
    ensures posts.None? || posts == Some([]) ==> IsError(r, 404, notFoundMessage)
    ensures posts.Some? && |posts.value| > 0 ==>
              && r.status == 200 && r.body.error == None
              && r.body.data == posts
              && r.body.meta == Some(MetaData(|posts.value|, |posts.value|, 1, 1))
              && r.body.links == LinkIf(selfUrl, SelfRel)
  {
    match posts
    case None => HandleNotFound(notFoundMessage)
    case Some(ps) =>
      if |ps| == 0 then HandleNotFound(notFoundMessage)
      else
        var meta := MetaData(|ps|, |ps|, 1, 1);
        SinglePageHasOnlySelf(ps, meta, selfUrl, pageUrl);
        CreatePagedResponse(ps, meta, selfUrl, pageUrl)
  }

  /** `GetPostsByCategoria`: the list rule, an ArgumentException as 400 with its
      message, anything else as 500. */
  function GetPostsByCategoria(reply: Result<Option<seq<Post>>>, selfUrl: Option<string>,
                               pageUrl: (int, int) -> Option<string>): (r: ActionResult<seq<Post>>)
    ensures reply.Ok? ==> r == ListResponse(reply.value, CategoriaNotFoundMessage, selfUrl, pageUrl)
    ensures reply.Err? && reply.error.ArgumentException? ==>
              IsError(r, 400, InvalidRequestMessage) && r.body.error.value.details == Some([reply.error.message])
    ensures reply.Err? && !reply.error.ArgumentException? ==> IsError(r, 500, CategoriaErrorMessage)
  {
    match reply
    case Ok(posts) => ListResponse(posts, CategoriaNotFoundMessage, selfUrl, pageUrl)
    case Err(ArgumentException(message)) => HandleBadRequest(message)
    case Err(_) => HandleServerError(CategoriaErrorMessage)
  }

  /** `GetLatestPostsByCategoria`: the list rule, and every exception as 500 (there is
      no 400 branch here). */
  function GetLatestPostsByCategoria(reply: Result<Option<seq<Post>>>, selfUrl: Option<string>,
                                     pageUrl: (int, int) -> Option<string>): (r: ActionResult<seq<Post>>)
    ensures reply.Ok? ==> r == ListResponse(reply.value, LatestNotFoundMessage, selfUrl, pageUrl)
    ensures reply.Err? ==> IsError(r, 500, LatestErrorMessage)
  {
    match reply
    case Ok(posts) => ListResponse(posts, LatestNotFoundMessage, selfUrl, pageUrl)
    case Err(_) => HandleServerError(LatestErrorMessage)
  }

  /** Every response of the post endpoints is consistent: 200 with data and no error,
      or an error whose code is the status. */
  lemma PostResponsesConsistent(modelErrors: seq<string>, request: CreatePostRequest,
                                nameClaim: Option<string>, now: int,
                                repository: Post -> Result<Option<Post>>, selfUrl: Option<string>,
                                reply: Result<Option<seq<Post>>>, pageUrl: (int, int) -> Option<string>)
    ensures Consistent(CreatePost(modelErrors, request, nameClaim, now, repository, selfUrl).response)
    ensures Consistent(GetPostsByCategoria(reply, selfUrl, pageUrl))
    ensures Consistent(GetLatestPostsByCategoria(reply, selfUrl, pageUrl))
  {
    CreatePostConsistent(modelErrors, request, nameClaim, now, repository, selfUrl);
    ListResponseConsistent(reply, CategoriaNotFoundMessage, selfUrl, pageUrl);
    ListResponseConsistent(reply, LatestNotFoundMessage, selfUrl, pageUrl);
  }

  lemma CreatePostConsistent(modelErrors: seq<string>, request: CreatePostRequest,
                             nameClaim: Option<string>, now: int,
                             repository: Post -> Result<Option<Post>>, selfUrl: Option<string>)
    ensures Consistent(CreatePost(modelErrors, request, nameClaim, now, repository, selfUrl).response)
  {
    var o := CreatePostAsync(request.title, request.body, request.categoria, request.tags,
                             nameClaim, now, repository);
    if |modelErrors| == 0 && o.result.Err? {
      var e := o.result.error;
      assert Consistent(CreateErrorResponse(e));
    }
  }

  lemma ListResponseConsistent(reply: Result<Option<seq<Post>>>, notFoundMessage: string,
                               selfUrl: Option<string>, pageUrl: (int, int) -> Option<string>)
    ensures reply.Ok? ==> Consistent(ListResponse(reply.value, notFoundMessage, selfUrl, pageUrl))
  {
  }
}
