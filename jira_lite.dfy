/** `fetch_issue` of the context crate: the same request and the same
    failure mapping as the gitscribe crate, but its `JiraIssue` keeps only
    four fields, so its decode asks only for those. */
module JiraLite {
  import opened Wrappers
  import opened Jira

  datatype LiteIssue = LiteIssue(key: string, summary: string, status: string, issueType: string)

  /** serde's decode into the crate's four-field `JiraApiResponse`; other
      members of the document are ignored. */
  function DecodeLite(body: Body): Option<LiteIssue> {
    match body
    case NotJson => None
    case Json(doc) =>
      if doc.key.Value? && doc.summary.Value? && doc.statusName.Value? && doc.issueTypeName.Value?
      then Some(LiteIssue(doc.key.v, doc.summary.v, doc.statusName.v, doc.issueTypeName.v))
      else None
  }

  /** The body is JSON with a string key, summary, status name and type name. */
  predicate HasLiteFields(body: Body) {
    && body.Json? && body.doc.key.Value? && body.doc.summary.Value?
    && body.doc.statusName.Value? && body.doc.issueTypeName.Value?
  }

  /** `fetch_issue`: never an error; `Some` exactly for a 2xx response whose
      body has the four fields, which are copied. */
  function FetchIssueLite(config: JiraConfig, key: string, outcome: HttpOutcome)
    : (r: Result<Option<LiteIssue>, string>)
    ensures r.Ok?
    ensures r.value.Some? <==> (outcome.Response? && IsSuccess(outcome.status) && HasLiteFields(outcome.body))
    ensures r.value.Some? ==> (
              && r.value.value.key == outcome.body.doc.key.v
              && r.value.value.summary == outcome.body.doc.summary.v
              && r.value.value.status == outcome.body.doc.statusName.v
              && r.value.value.issueType == outcome.body.doc.issueTypeName.v)
  {
    match outcome
    case TransportError(_) => Ok(None)
    case Response(status, body) =>
      if !IsSuccess(status) then Ok(None)
      else match DecodeLite(body)
        case None => Ok(None)
        case Some(issue) => Ok(Some(issue))
  }

  /** Whatever the gitscribe crate resolves, the context crate resolves too,
      with the same key, summary, status and type; the converse fails (a
      document without `updated` resolves only here). */
  lemma RichFetchImpliesLite(config: JiraConfig, key: string, outcome: HttpOutcome)
    requires FetchIssue(config, key, outcome).value.Some?
    ensures FetchIssueLite(config, key, outcome).value.Some?
    ensures var rich := FetchIssue(config, key, outcome).value.value;
      FetchIssueLite(config, key, outcome).value.value
        == LiteIssue(rich.key, rich.summary, rich.status, rich.issueType)
  {
  }

  /** A document lacking `updated` resolves here but not in the gitscribe crate. */
  lemma LiteIsMorePermissive(config: JiraConfig, key: string)
    ensures var doc := IssueDoc(Value("A-1"), Value("s"), Missing, Value("Done"), Value("Bug"),
                                Missing, Missing, Missing);
      var outcome := Response(200, Json(doc));
      FetchIssueLite(config, key, outcome).value.Some? && FetchIssue(config, key, outcome).value.None?
  {
  }
}
