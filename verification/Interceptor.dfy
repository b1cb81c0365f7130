/** The verdict on a response: deny, pass on, or pass on filtered. */
module Interceptor {
  import opened Wrappers
  import opened GoStrings
  import opened JsonTree
  import opened Api
  import Engine
  import Filter
  import Matcher

  const FORBIDDEN := 403
  const INTERNAL_ERROR := 500

  const CONTENT_TYPE := "Content-Type"
  const CONTENT_LENGTH := "Content-Length"

  /** `json.Unmarshal` and `json.Marshal`, which are not part of this model. */
  datatype Codec = Codec(decode: string -> Option<Json>, encode: Json -> Option<string>)

  /** A response body: none, its bytes, or a reader that fails. */
  datatype Body = Absent | Readable(bytes: string) | Broken(error: string)

  /** The contents of a response. */
  datatype View = View(status: int, statusText: string, body: Body, contentLength: int, headers: map<string, string>)

  class Response {
    var status: int
    var statusText: string
    var body: Body
    var contentLength: int
    var headers: map<string, string>

    constructor (v: View)
      ensures Contents() == v
    {
      status, statusText, body, contentLength, headers := v.status, v.statusText, v.body, v.contentLength, v.headers;
    }

    ghost function Contents(): View
      reads this
    {
      View(status, statusText, body, contentLength, headers)
    }
  }

  function StatusText(code: int): string {
    if code == FORBIDDEN then "Forbidden"
    else if code == INTERNAL_ERROR then "Internal Server Error"
    else ""
  }

  function ErrorBody(codec: Codec, message: string): string {
    match codec.encode(Obj(map["error" := Scalar(Text(message))]))
    case None => ""
    case Some(bytes) => bytes
  }

  /** The request context that the request side leaves for the response side. */
  datatype Context = Context(tokenValid: bool, path: string, method_: string, policyData: Option<PolicyData>)

  function RequestContext(data: Option<PolicyData>, path: string, method_: string): Context {
    Context(data.Some?, path, method_, data)
  }

  method InterceptRequest(parse: Engine.UrlParser, group: Result<PolicyGroup>, host: string, path: string, method_: string)
    returns (ctx: Context)
    ensures ctx == RequestContext(Engine.Resolve(parse, group, host), path, method_)
    ensures ctx.policyData == Engine.Resolve(parse, group, host) && (ctx.tokenValid <==> ctx.policyData.Some?)
    ensures ctx.path == path && ctx.method_ == method_
  {
    var policyData := Engine.GetPolicyData(parse, group, host);
    if policyData.None? {
      return Context(false, path, method_, None);
    }
    return Context(true, path, method_, policyData);
  }

  // ---------- the verdict ----------

  /** What becomes of a response. */
  datatype Verdict = Pass | Refuse(code: int, message: string) | Rewrite(bytes: string)

  /** The response that the client gets. */
  function Deliver(codec: Codec, upstream: View, verdict: Verdict): View {
    match verdict
    case Pass => upstream
    case Refuse(code, message) =>
      var bytes := ErrorBody(codec, message);
      View(code, StatusText(code), Readable(bytes), |bytes|,
           upstream.headers[CONTENT_TYPE := "application/json"][CONTENT_LENGTH := Decimal(|bytes|)])
    case Rewrite(bytes) =>
      upstream.(body := Readable(bytes), contentLength := |bytes|,
                headers := upstream.headers[CONTENT_LENGTH := Decimal(|bytes|)])
  }

  function DefaultAction(data: PolicyData, passthrough: bool): string {
    if data.defaultAction != "" then data.defaultAction else if passthrough then "allow" else "deny"
  }

  /** The action of the first matching rule, or the default. */
  function ActionFor(data: PolicyData, path: string, method_: string, passthrough: bool): string {
    match Matcher.MatchingRule(data.policy.rules, path, method_)
    case Some(rule) => rule.action
    case None => DefaultAction(data, passthrough)
  }

  /** The filter that applies, if any. */
  function FilterFor(data: PolicyData, path: string, method_: string): Option<ResponseFilter> {
    match Matcher.MatchingRule(data.policy.rules, path, method_)
    case Some(rule) => rule.responseFilter
    case None => None
  }

  predicate DeclaresJson(upstream: View) {
    var contentType := if CONTENT_TYPE in upstream.headers then upstream.headers[CONTENT_TYPE] else "";
    Contains(Lower(contentType), "application/json")
  }

  function FilteredBytes(codec: Codec, f: ResponseFilter, bytes: string): Result<string> {
    match codec.decode(bytes)
    case None => Failure("invalid JSON response")
    case Some(data) =>
      match codec.encode(Filter.Filtered(data, f))
      case None => Failure("failed to encode response")
      case Some(filtered) => Success(filtered)
  }

  function FilterVerdict(codec: Codec, f: ResponseFilter, body: Body): Verdict {
    match body
    case Absent => Pass
    case Broken(error) => Refuse(INTERNAL_ERROR, error)
    case Readable(bytes) =>
      match FilteredBytes(codec, f, bytes)
      case Failure(error) => Refuse(INTERNAL_ERROR, error)
      case Success(filtered) => Rewrite(filtered)
  }

  function Decide(codec: Codec, ctx: Context, passthrough: bool, upstream: View): Verdict {
    if !ctx.tokenValid then Refuse(FORBIDDEN, "invalid or missing token")
    else if ctx.policyData.None? then Refuse(INTERNAL_ERROR, "policy engine error")
    else
      var data := ctx.policyData.value;
      if ActionFor(data, ctx.path, ctx.method_, passthrough) == "deny" then Refuse(FORBIDDEN, "access denied by policy")
      else
        match FilterFor(data, ctx.path, ctx.method_)
        case None => Pass
        case Some(f) =>
          if !DeclaresJson(upstream) then Refuse(FORBIDDEN, "non-JSON response cannot be filtered")
          else FilterVerdict(codec, f, upstream.body)
  }

  // ---------- the response is overwritten in place ----------

  method ReplaceWithError(codec: Codec, resp: Response, code: int, message: string)
    modifies resp
    ensures resp.Contents() == Deliver(codec, old(resp.Contents()), Refuse(code, message))
  {
    var errorBody := Obj(map["error" := Scalar(Text(message))]);
    var encoded := codec.encode(errorBody);
    var body := if encoded.Some? then encoded.value else "";
    resp.status := code;
    resp.statusText := StatusText(code);
    resp.body := Readable(body);
    resp.contentLength := |body|;
    resp.headers := resp.headers[CONTENT_TYPE := "application/json"];
    resp.headers := resp.headers[CONTENT_LENGTH := Decimal(|body|)];
  }

  method FilterBody(codec: Codec, f: ResponseFilter, body: string) returns (r: Result<string>)
    ensures r == FilteredBytes(codec, f, body)
  {
    var data := codec.decode(body);
    if data.None? {
      return Failure("invalid JSON response");
    }
    var filtered := Filter.Apply(data.value, f);
    var encoded := codec.encode(filtered);
    if encoded.None? {
      return Failure("failed to encode response");
    }
    return Success(encoded.value);
  }

  /** On an error the response is left as it was, for the caller to replace. */
  method ReadAndReplaceBody(codec: Codec, resp: Response, f: ResponseFilter) returns (error: Option<string>)
    modifies resp
    ensures var verdict := FilterVerdict(codec, f, old(resp.body));
            if verdict.Refuse? then error == Some(verdict.message) && resp.Contents() == old(resp.Contents())
            else error == None && resp.Contents() == Deliver(codec, old(resp.Contents()), verdict)
  {
    if resp.body.Absent? {
      return None;
    }
    if resp.body.Broken? {
      return Some(resp.body.error);
    }
    var modified := FilterBody(codec, f, resp.body.bytes);
    if modified.Failure? {
      return Some(modified.error);
    }
    resp.body := Readable(modified.value);
    resp.contentLength := |modified.value|;
    resp.headers := resp.headers[CONTENT_LENGTH := Decimal(|modified.value|)];
    return None;
  }

  method InterceptResponse(codec: Codec, ctx: Context, passthrough: bool, resp: Response)
    modifies resp
    ensures resp.Contents() == Deliver(codec, old(resp.Contents()), Decide(codec, ctx, passthrough, old(resp.Contents())))
  {
    if !ctx.tokenValid {
      ReplaceWithError(codec, resp, FORBIDDEN, "invalid or missing token");
      return;
    }
    if ctx.policyData.None? {
      ReplaceWithError(codec, resp, INTERNAL_ERROR, "policy engine error");
      return;
    }
    var data := ctx.policyData.value;
    var rule := Matcher.FindMatchingRule(data.policy.rules, ctx.path, ctx.method_);
    var action := "";
    if rule.Some? {
      action := rule.value.action;
    } else {
      if data.defaultAction != "" {
        action := data.defaultAction;
      } else if passthrough {
        action := "allow";
      } else {
        action := "deny";
      }
    }
    if action == "deny" {
      ReplaceWithError(codec, resp, FORBIDDEN, "access denied by policy");
      return;
    }
    if rule.None? || rule.value.responseFilter.None? {
      return;
    }
    var contentType := if CONTENT_TYPE in resp.headers then resp.headers[CONTENT_TYPE] else "";
    if !Contains(Lower(contentType), "application/json") {
      ReplaceWithError(codec, resp, FORBIDDEN, "non-JSON response cannot be filtered");
      return;
    }
    var filterErr := ReadAndReplaceBody(codec, resp, rule.value.responseFilter.value);
    if filterErr.Some? {
      ReplaceWithError(codec, resp, INTERNAL_ERROR, filterErr.value);
    }
  }
}
