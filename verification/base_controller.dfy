/** The response envelope every controller returns (`BaseResponse<T>` inside an
    `IActionResult`) and the builders of the shared base controller: the
    success responses with their navigation links, and the error envelopes.

    The routing helper `Url.Action` is outside the model: the URL it produced
    for the current action is passed in (`selfUrl`, None for null), and the URL
    for another page is a function of (pageNumber, pageSize).
 */
module BaseController {
  import opened Wrappers

  datatype LinkInfo = LinkInfo(rel: string, href: string, verb: string)

  datatype MetaData = MetaData(totalItems: int, itemsPerPage: int, currentPage: int, totalPages: int)

  /** `ErrorResponse`: `details` is None when the builder leaves it unset. */
  datatype ErrorResponse = ErrorResponse(code: int, message: string, details: Option<seq<string>>)

  datatype BaseResponse<T> = BaseResponse(
    data: Option<T>,
    meta: Option<MetaData>,
    links: seq<LinkInfo>,
    error: Option<ErrorResponse>)

  /** What an action hands back to the framework: an HTTP status and a body. */
  datatype ActionResult<T> = ActionResult(status: int, body: BaseResponse<T>)

  const SelfRel := "self"
  const NextRel := "next"
  const PreviousRel := "previous"
  const Get := "GET"

  /** The fixed message of every 400 envelope; the cause goes in the details. */
  const InvalidRequestMessage := "A solicitação contém dados inválidos."

  /** `string.IsNullOrEmpty` negated. */
  predicate Present(url: Option<string>) {
    url.Some? && url.value != ""
  }

  predicate HasRel(links: seq<LinkInfo>, rel: string) {
    exists i :: 0 <= i < |links| && links[i].rel == rel
  }

  lemma HasRelAppend(a: seq<LinkInfo>, b: seq<LinkInfo>, rel: string)
    ensures HasRel(a + b, rel) <==> HasRel(a, rel) || HasRel(b, rel)
  {
    if HasRel(a, rel) {
      var i :| 0 <= i < |a| && a[i].rel == rel;
      assert (a + b)[i].rel == rel;
    }
    if HasRel(b, rel) {
      var i :| 0 <= i < |b| && b[i].rel == rel;
      assert (a + b)[|a| + i].rel == rel;
    }
  }

  lemma HasRelLinkIf(url: Option<string>, linkRel: string, rel: string)
    ensures HasRel(LinkIf(url, linkRel), rel) <==> Present(url) && linkRel == rel
  {
    if Present(url) && linkRel == rel {
      assert LinkIf(url, linkRel)[0].rel == rel;
    }
  }

  /** Position of a relation in the fixed order self, next, previous. */
  function Rank(rel: string): int {
    if rel == SelfRel then 0 else if rel == NextRel then 1 else if rel == PreviousRel then 2 else 3
  }

  /** Every link is one of the three relations, at most once each, in the order self, next, previous. */
  predicate OrderedLinks(links: seq<LinkInfo>) {
    && (forall i :: 0 <= i < |links| ==> Rank(links[i].rel) < 3)
    && (forall i, j :: 0 <= i < j < |links| ==> Rank(links[i].rel) < Rank(links[j].rel))
  }

  /** A GET link to `url` under `rel`, only when the URL is neither null nor empty. */
  function LinkIf(url: Option<string>, rel: string): (links: seq<LinkInfo>)
    ensures |links| <= 1
    ensures |links| == 1 <==> Present(url)
    ensures forall l :: l in links ==> l == LinkInfo(rel, url.value, Get)
  {
    if Present(url) then [LinkInfo(rel, url.value, Get)] else []
  }

  /** The three candidate links of a paginated response, each present or not. */
  function PageLinks(meta: MetaData, selfUrl: Option<string>,
                     pageUrl: (int, int) -> Option<string>): seq<LinkInfo>
  {
    var selfLink := LinkIf(selfUrl, SelfRel);
    var next :=
      if meta.currentPage < meta.totalPages
      then LinkIf(pageUrl(meta.currentPage + 1, meta.itemsPerPage), NextRel)
      else [];
    var previous :=
      if meta.currentPage > 1
      then LinkIf(pageUrl(meta.currentPage - 1, meta.itemsPerPage), PreviousRel)
      else [];
    selfLink + next + previous
  }

  lemma PageLinksHasRel(meta: MetaData, selfUrl: Option<string>,
                         pageUrl: (int, int) -> Option<string>, rel: string)
    ensures HasRel(PageLinks(meta, selfUrl, pageUrl), rel) <==>
              || (rel == SelfRel && Present(selfUrl))
              || (rel == NextRel && meta.currentPage < meta.totalPages
                  && Present(pageUrl(meta.currentPage + 1, meta.itemsPerPage)))
              || (rel == PreviousRel && meta.currentPage > 1
                  && Present(pageUrl(meta.currentPage - 1, meta.itemsPerPage)))
  {
    var nextUrl := pageUrl(meta.currentPage + 1, meta.itemsPerPage);
    var previousUrl := pageUrl(meta.currentPage - 1, meta.itemsPerPage);
    var selfLink := LinkIf(selfUrl, SelfRel);
    var next := if meta.currentPage < meta.totalPages then LinkIf(nextUrl, NextRel) else [];
    var previous := if meta.currentPage > 1 then LinkIf(previousUrl, PreviousRel) else [];
    HasRelAppend(selfLink + next, previous, rel);
    HasRelAppend(selfLink, next, rel);
    HasRelLinkIf(selfUrl, SelfRel, rel);
    HasRelLinkIf(nextUrl, NextRel, rel);
    HasRelLinkIf(previousUrl, PreviousRel, rel);
  }

  /** A link of a page response points where its relation says. */
  predicate LinkTarget(l: LinkInfo, meta: MetaData, selfUrl: Option<string>,
                       pageUrl: (int, int) -> Option<string>) {
    && l.verb == Get && l.href != ""
    && (l.rel == SelfRel ==> selfUrl == Some(l.href))
    && (l.rel == NextRel ==> pageUrl(meta.currentPage + 1, meta.itemsPerPage) == Some(l.href))
    && (l.rel == PreviousRel ==> pageUrl(meta.currentPage - 1, meta.itemsPerPage) == Some(l.href))
  }

  lemma PageLinksOrdered(meta: MetaData, selfUrl: Option<string>, pageUrl: (int, int) -> Option<string>)
    ensures |PageLinks(meta, selfUrl, pageUrl)| <= 3
    ensures OrderedLinks(PageLinks(meta, selfUrl, pageUrl))
  {
    var selfLink := LinkIf(selfUrl, SelfRel);
    var next :=
      if meta.currentPage < meta.totalPages
      then LinkIf(pageUrl(meta.currentPage + 1, meta.itemsPerPage), NextRel) else [];
    var previous :=
      if meta.currentPage > 1
      then LinkIf(pageUrl(meta.currentPage - 1, meta.itemsPerPage), PreviousRel) else [];
    RankedLinkIf(selfUrl, SelfRel, 0);
    RankedLinkIf(pageUrl(meta.currentPage + 1, meta.itemsPerPage), NextRel, 1);
    RankedLinkIf(pageUrl(meta.currentPage - 1, meta.itemsPerPage), PreviousRel, 2);
    assert PageLinks(meta, selfUrl, pageUrl) == selfLink + next + previous;
    OrderedTriple(selfLink, next, previous);
  }

  /** Every link of `links` has rank `k`, and there is at most one. */
  predicate SingleRank(links: seq<LinkInfo>, k: int) {
    |links| <= 1 && forall i :: 0 <= i < |links| ==> Rank(links[i].rel) == k
  }

  lemma RankedLinkIf(url: Option<string>, rel: string, k: int)
    requires Rank(rel) == k < 3
    ensures SingleRank(LinkIf(url, rel), k)
  {
  }

  lemma OrderedTriple(s: seq<LinkInfo>, n: seq<LinkInfo>, p: seq<LinkInfo>)
    requires SingleRank(s, 0) && SingleRank(n, 1) && SingleRank(p, 2)
    ensures |s + n + p| <= 3
    ensures OrderedLinks(s + n + p)
  {
    var c := s + n + p;
    forall i | 0 <= i < |c|
      ensures Rank(c[i].rel) == if i < |s| then 0 else if i < |s| + |n| then 1 else 2
    {
      if i < |s| {
        assert c[i] == s[i];
      } else if i < |s| + |n| {
        assert c[i] == n[i - |s|];
      } else {
        assert c[i] == p[i - |s| - |n|];
      }
    }
  }

  lemma PageLinksTargets(meta: MetaData, selfUrl: Option<string>, pageUrl: (int, int) -> Option<string>)
    ensures forall l :: l in PageLinks(meta, selfUrl, pageUrl) ==> LinkTarget(l, meta, selfUrl, pageUrl)
  {
    var selfLink := LinkIf(selfUrl, SelfRel);
    var next :=
      if meta.currentPage < meta.totalPages
      then LinkIf(pageUrl(meta.currentPage + 1, meta.itemsPerPage), NextRel) else [];
    var previous :=
      if meta.currentPage > 1
      then LinkIf(pageUrl(meta.currentPage - 1, meta.itemsPerPage), PreviousRel) else [];
    assert SelfRel != NextRel && SelfRel != PreviousRel && NextRel != PreviousRel;
    assert forall l :: l in selfLink ==> LinkTarget(l, meta, selfUrl, pageUrl);
    assert forall l :: l in next ==> LinkTarget(l, meta, selfUrl, pageUrl);
    assert forall l :: l in previous ==> LinkTarget(l, meta, selfUrl, pageUrl);
  }

  /** The paginated `CreateResponse(data, meta, actionName, routeValues)`. */
  function CreatePagedResponse<T>(data: seq<T>, meta: MetaData, selfUrl: Option<string>,
                                  pageUrl: (int, int) -> Option<string>): (r: ActionResult<seq<T>>)
    ensures r.status == 200 && r.body.error == None
    ensures r.body.data == Some(data) && r.body.meta == Some(meta)
    ensures |r.body.links| <= 3 && OrderedLinks(r.body.links)
    ensures HasRel(r.body.links, SelfRel) <==> Present(selfUrl)
    ensures HasRel(r.body.links, NextRel) <==>
              meta.currentPage < meta.totalPages
              && Present(pageUrl(meta.currentPage + 1, meta.itemsPerPage))
    ensures HasRel(r.body.links, PreviousRel) <==>
              meta.currentPage > 1 && Present(pageUrl(meta.currentPage - 1, meta.itemsPerPage))
    ensures forall l :: l in r.body.links ==> LinkTarget(l, meta, selfUrl, pageUrl)
  {
    var links := PageLinks(meta, selfUrl, pageUrl);
    PageLinksHasRel(meta, selfUrl, pageUrl, SelfRel);
    PageLinksHasRel(meta, selfUrl, pageUrl, NextRel);
    PageLinksHasRel(meta, selfUrl, pageUrl, PreviousRel);
    PageLinksOrdered(meta, selfUrl, pageUrl);
    PageLinksTargets(meta, selfUrl, pageUrl);
    ActionResult(200, BaseResponse(Some(data), Some(meta), links, None))
  }

  /** The single-object `CreateResponse(data, actionName, routeValues)`: no metadata
      and at most a "self" link. */
  function CreateResponse<T>(data: T, selfUrl: Option<string>): (r: ActionResult<T>)
    ensures r.status == 200 && r.body.error == None
    ensures r.body.data == Some(data) && r.body.meta == None
    ensures r.body.links == LinkIf(selfUrl, SelfRel)
    ensures HasRel(r.body.links, SelfRel) <==> Present(selfUrl)
  {
    HasRelLinkIf(selfUrl, SelfRel, SelfRel);
    ActionResult(200, BaseResponse(Some(data), None, LinkIf(selfUrl, SelfRel), None))
  }

  /** An error envelope: no data, metadata or links, and the status repeated as the error code. */
  predicate IsError<T>(r: ActionResult<T>, code: int, message: string) {
    && r.status == code
    && r.body.data == None && r.body.meta == None && r.body.links == []
    && r.body.error.Some?
    && r.body.error.value.code == code && r.body.error.value.message == message
  }

  function ErrorEnvelope<T>(code: int, message: string, details: Option<seq<string>>): (r: ActionResult<T>)
    ensures IsError(r, code, message) && r.body.error.value.details == details
  {
    ActionResult(code, BaseResponse(None, None, [], Some(ErrorResponse(code, message, details))))
  }

  /** `HandleNotFound<T>(message)`. */
  function HandleNotFound<T>(message: string): (r: ActionResult<T>)
    ensures IsError(r, 404, message) && r.body.error.value.details == None
  {
    ErrorEnvelope(404, message, None)
  }

  /** `HandleBadRequest(ModelState)`: every validation message becomes a detail. */
  function HandleBadRequestModel<T>(errors: seq<string>): (r: ActionResult<T>)
    ensures IsError(r, 400, InvalidRequestMessage)
    ensures r.body.error.value.details == Some(errors)
  {
    ErrorEnvelope(400, InvalidRequestMessage, Some(errors))
  }

  /** `HandleBadRequest(string)`: the generic message, the cause as the only detail. */
  function HandleBadRequest<T>(errorMessage: string): (r: ActionResult<T>)
    ensures IsError(r, 400, InvalidRequestMessage)
    ensures r.body.error.value.details == Some([errorMessage])
  {
    ErrorEnvelope(400, InvalidRequestMessage, Some([errorMessage]))
  }

  /** `HandleServerError(message)` (and its generic twin). */
  function HandleServerError<T>(message: string): (r: ActionResult<T>)
    ensures IsError(r, 500, message) && r.body.error.value.details == None
  {
    ErrorEnvelope(500, message, None)
  }

  /** `HandleUnauthorized(message)`. */
  function HandleUnauthorized<T>(message: string): (r: ActionResult<T>)
    ensures IsError(r, 401, message) && r.body.error.value.details == None
  {
    ErrorEnvelope(401, message, None)
  }

  /** The status line and the body agree: an error body exactly when the status is
      not 200, and then its code is the status. */
  predicate Consistent<T>(r: ActionResult<T>) {
    && (r.body.error.None? <==> r.status == 200)
    && (r.body.error.Some? ==> r.body.error.value.code == r.status && r.body.data.None?)
    && (r.body.error.None? ==> r.body.data.Some?)
  }

  /** A string bad request is the model-state bad request with that one message. */
  lemma BadRequestIsSingleModelError<T>(errorMessage: string)
    ensures HandleBadRequest<T>(errorMessage) == HandleBadRequestModel<T>([errorMessage])
  {
  }

  /** A response that fits on one page carries no "next" or "previous" link. */
  lemma SinglePageHasOnlySelf<T>(data: seq<T>, meta: MetaData, selfUrl: Option<string>,
                                 pageUrl: (int, int) -> Option<string>)
    requires meta.currentPage == 1 && meta.totalPages == 1
    ensures CreatePagedResponse(data, meta, selfUrl, pageUrl).body.links == LinkIf(selfUrl, SelfRel)
  {
  }

  /** On a middle page with every URL available, all three links appear, in order. */
  lemma MiddlePageHasThreeLinks<T>(data: seq<T>, meta: MetaData, selfUrl: Option<string>,
                                   pageUrl: (int, int) -> Option<string>)
    requires 1 < meta.currentPage < meta.totalPages
    requires Present(selfUrl)
    requires Present(pageUrl(meta.currentPage + 1, meta.itemsPerPage))
    requires Present(pageUrl(meta.currentPage - 1, meta.itemsPerPage))
    ensures var links := CreatePagedResponse(data, meta, selfUrl, pageUrl).body.links;
            |links| == 3 && links[0].rel == SelfRel && links[1].rel == NextRel && links[2].rel == PreviousRel
  {
  }
}
