/** The backend's `github_dispatch` handler: request validation, the call to GitHub's
    repository-dispatch endpoint, and the mapping of GitHub's status code to the reply.
    The call itself is a parameter: what GitHub answered, or that the request failed. */
module Dispatch {
  import opened Common
  import opened Collector
  import opened Payload
  import Session

  const DispatchRequired: seq<string> := ["event_type", "client_payload", "github_token", "github_repository"]

  /** The POST to `https://api.github.com/repos/<repository>/dispatches`: the repository in
      the URL, the token in the `Authorization` header, and the body's two fields. */
  datatype GitHubCall = GitHubCall(repository: Json, token: Json, eventType: Json, clientPayload: Json)

  /** What `requests.post` returned, or that it raised a `RequestException`. */
  datatype GitHubAnswer = Answered(status: int, text: string) | RequestFailed

  /** The handler's replies. */
  datatype DispatchReply =
    | Dispatched(eventType: Json, repository: Json, timestamp: string)
    | AuthenticationFailed
    | RepositoryNotFound(repository: Json)
    | InvalidEventType(eventType: Json)
    | ApiError(status: int, details: string)
    | MissingField(field: string)
    | BadRepositoryFormat
    | NetworkError
    | DispatchError

  function StatusOf(r: DispatchReply): int {
    match r
    case Dispatched(_, _, _) => 200
    case AuthenticationFailed => 401
    case RepositoryNotFound(_) => 404
    case InvalidEventType(_) => 422
    case ApiError(status, _) => status
    case MissingField(_) => 400
    case BadRepositoryFormat => 400
    case NetworkError => 500
    case DispatchError => 500
  }

  /** The `error` text of the reply body (a success carries a `message` instead). The text
      after "Network error: " and "GitHub dispatch error: " is the exception's. */
  function ErrorOf(r: DispatchReply): Option<string> {
    match r
    case Dispatched(_, _, _) => None
    case AuthenticationFailed => Some("Authentication failed")
    case RepositoryNotFound(_) => Some("Repository not found")
    case InvalidEventType(_) => Some("Invalid event type")
    case ApiError(_, _) => Some("GitHub API error")
    case MissingField(f) => Some("Missing required field: " + f)
    case BadRepositoryFormat => Some("Repository must be in format 'owner/repo'")
    case NetworkError => Some("Network error")
    case DispatchError => Some("GitHub dispatch error")
  }

  /** The branch on `response.status_code` after the call. */
  function MapStatus(status: int, text: string, eventType: Json, repository: Json, now: string): (r: DispatchReply)
    ensures StatusOf(r) == (if status == 204 then 200 else status)
    ensures r.Dispatched? <==> status == 204
    ensures r.Dispatched? ==> r.eventType == eventType && r.repository == repository && r.timestamp == now
    ensures status == 401 ==> r == AuthenticationFailed
    ensures status == 404 ==> r == RepositoryNotFound(repository)
    ensures status == 422 ==> r == InvalidEventType(eventType)
    ensures status !in {204, 401, 404, 422} ==> r == ApiError(status, text)
  {
    if status == 204 then Dispatched(eventType, repository, now)
    else if status == 401 then AuthenticationFailed
    else if status == 404 then RepositoryNotFound(repository)
    else if status == 422 then InvalidEventType(eventType)
    else ApiError(status, text)
  }

  /** `github_dispatch()` for request body `data`: the call made to GitHub (none when the
      request is refused first) and the reply. */
  function DispatchOutcome(data: Json, answer: GitHubAnswer, now: string): (Option<GitHubCall>, DispatchReply) {
    match ScanRequired(data, DispatchRequired)
    case Raises => (None, DispatchError)
    case Missing(f) => (None, MissingField(f))
    case AllPresent =>
      if !data.JObj? then (None, DispatchError)
      else
        DispatchFieldsPresent(data);
        var m := data.fields;
        match PyContains(m["github_repository"], "/")
        case None => (None, DispatchError)
        case Some(false) => (None, BadRepositoryFormat)
        case Some(true) =>
          var call := GitHubCall(m["github_repository"], m["github_token"], m["event_type"], m["client_payload"]);
          match answer
          case RequestFailed => (Some(call), NetworkError)
          case Answered(status, text) => (Some(call), MapStatus(status, text, m["event_type"], m["github_repository"], now))
  }

  lemma DispatchFieldsPresent(data: Json)
    requires data.JObj?
    requires ScanRequired(data, DispatchRequired).AllPresent? || FirstMissing(data.fields, DispatchRequired).None?
    ensures "event_type" in data.fields && "client_payload" in data.fields
    ensures "github_token" in data.fields && "github_repository" in data.fields
  {
    ScanRequiredMeaning(data, DispatchRequired);
    assert DispatchRequired[0] in data.fields && DispatchRequired[1] in data.fields;
    assert DispatchRequired[2] in data.fields && DispatchRequired[3] in data.fields;
  }

  /** Nothing reaches GitHub unless all four fields are there and the repository passes the
      `'/' in` test: the first missing field is reported with 400, a string repository
      without "/" is refused with 400, and a body that is not an object is a 500. */
  lemma ValidationBeforeCall(data: Json, answer: GitHubAnswer, now: string)
    ensures data.JObj? && FirstMissing(data.fields, DispatchRequired).Some? ==>
              DispatchOutcome(data, answer, now) == (None, MissingField(FirstMissing(data.fields, DispatchRequired).value))
    ensures !(data.JObj? || data.JArr? || data.JStr?) ==> DispatchOutcome(data, answer, now) == (None, DispatchError)
    ensures data.JObj? && "github_repository" in data.fields && data.fields["github_repository"].JStr?
            && IndexOf(data.fields["github_repository"].s, "/").None? ==>
              DispatchOutcome(data, answer, now).0.None?
              && (FirstMissing(data.fields, DispatchRequired).None? ==> DispatchOutcome(data, answer, now).1 == BadRepositoryFormat)
    ensures DispatchOutcome(data, answer, now).0.Some? ==>
              data.JObj? && FirstMissing(data.fields, DispatchRequired).None?
              && "github_repository" in data.fields
              && PyContains(data.fields["github_repository"], "/") == Some(true)
  {
    ScanRequiredMeaning(data, DispatchRequired);
    if data.JObj? && FirstMissing(data.fields, DispatchRequired).None? {
      DispatchFieldsPresent(data);
    }
  }

  /** A call that is made forwards the request's four fields unchanged, and the reply follows
      GitHub's answer. */
  lemma CallForwardsRequest(data: Json, answer: GitHubAnswer, now: string)
    requires DispatchOutcome(data, answer, now).0.Some?
    ensures data.JObj?
    ensures var call := DispatchOutcome(data, answer, now).0.value;
            var m := data.fields;
            "event_type" in m && "client_payload" in m && "github_token" in m && "github_repository" in m
            && call == GitHubCall(m["github_repository"], m["github_token"], m["event_type"], m["client_payload"])
            && DispatchOutcome(data, answer, now).1
               == (match answer
                   case RequestFailed => NetworkError
                   case Answered(status, text) => MapStatus(status, text, m["event_type"], m["github_repository"], now))
  {
    ValidationBeforeCall(data, answer, now);
    DispatchFieldsPresent(data);
    assert DispatchRequired[0] == "event_type" && DispatchRequired[1] == "client_payload";
    assert DispatchRequired[2] == "github_token" && DispatchRequired[3] == "github_repository";
  }

  /** `github_dispatch()`, as the handler runs it. It changes no state. */
  method GitHubDispatch(data: Json, answer: GitHubAnswer, now: string) returns (call: Option<GitHubCall>, reply: DispatchReply)
    ensures (call, reply) == DispatchOutcome(data, answer, now)
  {
    var scan := CheckRequired(data, DispatchRequired);
    match scan {
      case Raises =>
        return None, DispatchError;
      case Missing(field) =>
        return None, MissingField(field);
      case AllPresent =>
    }
    if !data.JObj? {
      return None, DispatchError;
    }
    DispatchFieldsPresent(data);
    var githubToken := data.fields["github_token"];
    var githubRepo := data.fields["github_repository"];
    var slash := PyContains(githubRepo, "/");
    if slash.None? {
      return None, DispatchError;
    }
    if !slash.value {
      return None, BadRepositoryFormat;
    }
    call := Some(GitHubCall(githubRepo, githubToken, data.fields["event_type"], data.fields["client_payload"]));
    match answer
    case RequestFailed =>
      reply := NetworkError;
    case Answered(status, text) =>
      reply := MapStatus(status, text, data.fields["event_type"], githubRepo, now);
  }

  // ---------------------------------------------------------------------------
  // The browser's request, as the backend decodes it

  function EncodeValue(v: FormValue): Json {
    match v
    case Single(s) => JStr(s)
    case Multi(items) => JArr(seq(|items|, i requires 0 <= i < |items| => JStr(items[i])))
  }

  function EncodeClientPayload(c: ClientPayload): Json {
    JObj(map[
      "automation_type" := JStr(c.automationType),
      "timestamp" := JStr(c.timestamp),
      "request_id" := JStr(c.requestId),
      "workflow" := JStr(c.workflow),
      "target_repository" := JStr(c.targetRepository),
      "form_data" := JObj(map k | k in c.formData :: EncodeValue(c.formData[k])),
      "form_config" := JObj(map["title" := c.formConfig.title, "description" := c.formConfig.description])])
  }

  /** `JSON.stringify({...payload, github_token, github_repository})`, decoded. */
  function EncodeRequest(r: Session.DispatchRequest): (j: Json)
    ensures j.JObj? && forall k :: 0 <= k < |DispatchRequired| ==> DispatchRequired[k] in j.fields
  {
    JObj(map[
      "event_type" := JStr(r.payload.eventType),
      "client_payload" := EncodeClientPayload(r.payload.clientPayload),
      "github_token" := JStr(r.githubToken),
      "github_repository" := JStr(r.githubRepository)])
  }

  /** A request the browser sends always passes the field check; it reaches GitHub exactly
      when the repository holds a "/", with the browser's event type, token and repository. */
  lemma BrowserRequestReachesGitHub(r: Session.DispatchRequest, answer: GitHubAnswer, now: string)
    ensures var o := DispatchOutcome(EncodeRequest(r), answer, now);
            (o.0.Some? <==> IndexOf(r.githubRepository, "/").Some?)
            && (o.0.None? ==> o.1 == BadRepositoryFormat)
            && (o.0.Some? ==>
                  o.0.value.eventType == JStr(r.payload.eventType) && o.0.value.token == JStr(r.githubToken)
                  && o.0.value.repository == JStr(r.githubRepository))
  {
    var j := EncodeRequest(r);
    ScanRequiredMeaning(j, DispatchRequired);
    assert FirstMissing(j.fields, DispatchRequired).None?;
  }
}
