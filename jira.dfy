/** `fetch_issue` of the gitscribe crate: the request it builds for one issue
    key and the way it maps the HTTP outcome to `Ok(Some(issue))` or
    `Ok(None)`. The transport and the JSON text are opaque: the response body
    arrives as the JSON document serde would see, field by field. */
module Jira {
  import opened Wrappers
  import opened Text

  datatype JiraConfig = JiraConfig(url: string, pat: string)

  /** One JSON member as a struct field sees it: absent, `null`, of the wrong
      type or shape, or a value. */
  datatype Field<T> = Missing | Null | Invalid | Value(v: T)

  datatype CommentDoc = CommentDoc(body: Field<string>, updated: Field<string>)

  /** The issue document: `key` and the members of `fields` the crate reads
      (`status.name` and `issuetype.name` as one field each; `comment` is the
      `comment.comments` array). */
  datatype IssueDoc = IssueDoc(
    key: Field<string>,
    summary: Field<string>,
    description: Field<string>,
    statusName: Field<string>,
    issueTypeName: Field<string>,
    comment: Field<seq<CommentDoc>>,
    updated: Field<string>,
    resolutionDate: Field<string>)

  datatype Body = NotJson | Json(doc: IssueDoc)

  /** What sending the request produced. */
  datatype HttpOutcome = TransportError(reason: string) | Response(status: nat, body: Body)

  datatype Request = Request(url: string, headers: seq<(string, string)>)

  datatype JiraComment = JiraComment(body: string, updated: Option<string>)

  /** `JiraApiResponse` after a successful decode. */
  datatype ApiResponse = ApiResponse(
    key: string,
    summary: string,
    description: Option<string>,
    statusName: string,
    issueTypeName: string,
    comment: Option<seq<JiraComment>>,
    updated: string,
    resolutionDate: Option<string>)

  /** The crate's `JiraIssue`; each comment is a (body, updated) pair. */
  datatype JiraIssue = JiraIssue(
    key: string,
    summary: string,
    description: Option<string>,
    status: string,
    issueType: string,
    comments: seq<(string, Option<string>)>,
    updated: string,
    resolutionDate: Option<string>)

  type FetchResult = Result<Option<JiraIssue>, string>

  predicate IsSuccess(status: nat) { 200 <= status <= 299 }

  /** Decoding into `String`: only a string value will do. */
  function Required(f: Field<string>): Option<string> {
    if f.Value? then Some(f.v) else None
  }

  /** Decoding into `Option<T>`: absent or `null` is `None`; a value of the
      wrong type fails (the outer `None`). */
  function Optional<T>(f: Field<T>): Option<Option<T>> {
    match f
    case Missing => Some(None)
    case Null => Some(None)
    case Invalid => None
    case Value(v) => Some(Some(v))
  }

  function DecodeComments(docs: seq<CommentDoc>): (r: Option<seq<JiraComment>>)
    ensures r.Some? ==> |r.value| == |docs|
    ensures r.Some? <==> forall i :: 0 <= i < |docs| ==>
      docs[i].body.Value? && Optional(docs[i].updated).Some?
    ensures r.Some? ==> forall i :: 0 <= i < |docs| ==>
      r.value[i] == JiraComment(docs[i].body.v, Optional(docs[i].updated).value)
  {
    if docs == [] then Some([])
    else
      var d := docs[|docs| - 1];
      match DecodeComments(docs[..|docs| - 1])
      case None => None
      case Some(init) =>
        if d.body.Value? && Optional(d.updated).Some? then
          Some(init + [JiraComment(d.body.v, Optional(d.updated).value)])
        else None
  }

  /** serde's decode of the body into `JiraApiResponse`. */
  function DecodeResponse(body: Body): Option<ApiResponse> {
    match body
    case NotJson => None
    case Json(doc) =>
      var comment: Option<Option<seq<JiraComment>>> :=
        match doc.comment
        case Missing => Some(None)
        case Null => Some(None)
        case Invalid => None
        case Value(docs) =>
          (match DecodeComments(docs) case None => None case Some(cs) => Some(Some(cs)));
      if && doc.key.Value? && doc.summary.Value? && doc.statusName.Value?
         && doc.issueTypeName.Value? && doc.updated.Value?
         && Optional(doc.description).Some? && Optional(doc.resolutionDate).Some?
         && comment.Some?
      then Some(ApiResponse(doc.key.v, doc.summary.v, Optional(doc.description).value,
                            doc.statusName.v, doc.issueTypeName.v, comment.value,
                            doc.updated.v, Optional(doc.resolutionDate).value))
      else None
  }

  /** The request URL: the configured base without its trailing slashes, the
      REST path, the key. */
  function IssueUrl(config: JiraConfig, key: string): (url: string)
    ensures exists n :: (BaseEnd(config.url, n)
                         && url == config.url[..n] + "/rest/api/2/issue/" + key)
  {
    var base := TrimEndChar(config.url, '/');
    assert BaseEnd(config.url, |base|);
    base + "/rest/api/2/issue/" + key
  }

  /** `url[..n]` is `url` without all of its trailing slashes. */
  ghost predicate BaseEnd(url: string, n: int) {
    0 <= n <= |url|
    && (forall i :: n <= i < |url| ==> url[i] == '/')
    && (n == 0 || url[n - 1] != '/')
  }

  /** Extra trailing slashes on the configured URL do not change the request. */
  lemma IssueUrlIgnoresTrailingSlash(url: string, pat: string, key: string)
    ensures IssueUrl(JiraConfig(url + "/", pat), key) == IssueUrl(JiraConfig(url, pat), key)
  {
    assert (url + "/")[..|url|] == url;
  }

  /** The GET request `fetch_issue` sends. */
  function IssueRequest(config: JiraConfig, key: string): (r: Request)
    ensures r.url == IssueUrl(config, key)
    ensures ("Authorization", "Bearer " + config.pat) in r.headers
    ensures ("Accept", "application/json") in r.headers
  {
    Request(IssueUrl(config, key),
            [("Authorization", "Bearer " + config.pat), ("Accept", "application/json")])
  }

  /** An absent comment container is no comments; otherwise each comment
      becomes its (body, updated) pair, in order. */
  function CommentPairs(comment: Option<seq<JiraComment>>): (r: seq<(string, Option<string>)>)
    ensures comment.None? ==> r == []
    ensures comment.Some? ==> |r| == |comment.value|
    ensures comment.Some? ==>
              forall i :: 0 <= i < |r| ==> r[i] == (comment.value[i].body, comment.value[i].updated)
  {
    match comment
    case None => []
    case Some(cs) => seq(|cs|, i requires 0 <= i < |cs| => (cs[i].body, cs[i].updated))
  }

  /** `issue` holds the decoded response's fields unchanged. */
  ghost predicate CopiedFrom(issue: JiraIssue, resp: ApiResponse) {
    && issue.key == resp.key && issue.summary == resp.summary
    && issue.description == resp.description && issue.status == resp.statusName
    && issue.issueType == resp.issueTypeName && issue.comments == CommentPairs(resp.comment)
    && issue.updated == resp.updated && issue.resolutionDate == resp.resolutionDate
  }

  /** `fetch_issue`: never an error; `Some` exactly for a 2xx response whose
      body decodes, with every field copied from the response. */
  function FetchIssue(config: JiraConfig, key: string, outcome: HttpOutcome): (r: FetchResult)
    ensures r.Ok?
    ensures r.value.Some? <==>
      outcome.Response? && IsSuccess(outcome.status) && DecodeResponse(outcome.body).Some?
    ensures r.value.Some? ==> CopiedFrom(r.value.value, DecodeResponse(outcome.body).value)
  {
    match outcome
    case TransportError(_) => Ok(None)
    case Response(status, body) =>
      if !IsSuccess(status) then Ok(None)
      else match DecodeResponse(body)
        case None => Ok(None)
        case Some(resp) =>
          Ok(Some(JiraIssue(resp.key, resp.summary, resp.description, resp.statusName,
                            resp.issueTypeName, CommentPairs(resp.comment), resp.updated,
                            resp.resolutionDate)))
  }

  /** The issue's key comes from the response, not from the key asked for:
      the outcome alone decides the result. */
  lemma FetchIgnoresRequestedKey(config: JiraConfig, k1: string, k2: string, outcome: HttpOutcome)
    ensures FetchIssue(config, k1, outcome) == FetchIssue(config, k2, outcome)
  {
  }
}
