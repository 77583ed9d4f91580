/** `PostService.CreatePostAsync`: validate the category against the closed
    enumeration, build the new post, hand it to the repository.

    The repository (`CreateAsync`) and the clock are parameters: the repository
    answers with the stored post, null (None), or an exception.
 */
module PostService {
  import opened Wrappers
  import opened Text
  import opened Categoria

  /** `Post`; times are in seconds, `dataEdicao` None until an edit. */
  datatype Post = Post(
    id: int,
    titulo: string,
    conteudo: string,
    autor: string,
    dataCriacao: int,
    dataEdicao: Option<int>,
    ativo: bool,
    categoria: CategoriaEnum,
    tags: seq<string>)

  /** The author recorded when the request carries no Name claim. */
  const AnonymousAuthor := "Anonymous"

  function InvalidCategoriaMessage(categoria: string): string {
    "Categoria '" + categoria + "' is not valid."
  }

  /** What `CreatePostAsync` returns, and the post it handed to the repository
      (None when the repository was never reached). */
  datatype CreateOutcome = CreateOutcome(result: Result<Option<Post>>, stored: Option<Post>)

  /** `CreatePostAsync(title, conteudo, categoria, tags)`: an unknown category is an
      ArgumentException before anything is stored; otherwise an active, never-edited
      post with the request's fields, the parsed category and the caller's name. */
  function CreatePostAsync(title: string, conteudo: string, categoria: string, tags: seq<string>,
                           nameClaim: Option<string>, now: int,
                           repository: Post -> Result<Option<Post>>): (o: CreateOutcome)
    ensures o.stored.None? <==> forall c :: !Names(categoria, c)
    ensures o.stored.None? ==> o.result == Err(ArgumentException(InvalidCategoriaMessage(categoria)))
    ensures o.stored.Some? ==>
              var p := o.stored.value;
              && o.result == repository(p)
              && p.ativo && p.dataEdicao == None && p.dataCriacao == now
              && p.titulo == title && p.conteudo == conteudo && p.tags == tags
              && Names(categoria, p.categoria)
              && (nameClaim.Some? ==> p.autor == nameClaim.value)
              && (nameClaim.None? ==> p.autor == AnonymousAuthor)
  {
    var userName := nameClaim.GetOr(AnonymousAuthor);
    match TryParse(categoria)
    case None => CreateOutcome(Err(ArgumentException(InvalidCategoriaMessage(categoria))), None)
    case Some(cat) =>
      var post := Post(0, title, conteudo, userName, now, None, true, cat, tags);
      CreateOutcome(repository(post), Some(post))
  }

  /** The stored category is the one the string names, and it is the same post
      whatever the case of the category's letters: "rh", "RH" and "Rh" store Rh. */
  lemma CreatePostCategoryIgnoresCase(title: string, conteudo: string, a: string, b: string,
                                      tags: seq<string>, nameClaim: Option<string>, now: int,
                                      repository: Post -> Result<Option<Post>>)
    requires EqualsIgnoreCase(a, b)
    ensures CreatePostAsync(title, conteudo, a, tags, nameClaim, now, repository).stored
            == CreatePostAsync(title, conteudo, b, tags, nameClaim, now, repository).stored
    ensures var s := CreatePostAsync(title, conteudo, a, tags, nameClaim, now, repository).stored;
            s.Some? ==> TryParse(a) == Some(s.value.categoria)
  {
    TryParseIgnoresCase(a, b);
  }

  lemma CreatePostRh(title: string, conteudo: string, tags: seq<string>, nameClaim: Option<string>,
                     now: int, repository: Post -> Result<Option<Post>>)
    ensures CreatePostAsync(title, conteudo, "rh", tags, nameClaim, now, repository).stored.value.categoria == Rh
    ensures CreatePostAsync(title, conteudo, "RH", tags, nameClaim, now, repository).stored.value.categoria == Rh
  {
    TryParseRhAnyCase();
  }

  /** A string that names no category never reaches the repository, whatever the
      repository would have done. */
  lemma InvalidCategoryNeverStored(title: string, conteudo: string, categoria: string, tags: seq<string>,
                                   nameClaim: Option<string>, now: int,
                                   repo1: Post -> Result<Option<Post>>, repo2: Post -> Result<Option<Post>>)
    requires TryParse(categoria).None?
    ensures CreatePostAsync(title, conteudo, categoria, tags, nameClaim, now, repo1)
            == CreatePostAsync(title, conteudo, categoria, tags, nameClaim, now, repo2)
            == CreateOutcome(Err(ArgumentException(InvalidCategoriaMessage(categoria))), None)
  {
  }
}
