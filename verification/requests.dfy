/** `Request` and its subclasses: the headers every call carries, the method
    and body each request kind fixes, and `OnCompleted`, which turns one
    response into callback invocations. Sending, the engine's completion
    event and the body's UTF-8 encoding are not modelled: a completion is an
    input, the outcome of parsing its body. */
module Requests {
  import opened Common
  import opened Json
  import opened Query

  /** Which delegate a callback slot holds; delegates are compared by identity. */
  type HandlerId = nat

  /** The two callback slots; `None` is a null delegate. */
  datatype Callbacks = Callbacks(onCompleted: Option<HandlerId>, onError: Option<HandlerId>)

  const Cleared := Callbacks(None, None)

  /** What the engine is asked to send. */
  datatype WebRequest = WebRequest(verb: string, url: string, headers: map<string, string>, body: Option<string>)

  /** A request in flight: what was sent and the callbacks still armed. */
  datatype Request = Request(web: WebRequest, callbacks: Callbacks)

  /** `AddHeaders`: sets the bearer token, the client id and, when asked, the
      JSON content type on top of the headers already set. Null token and
      client id print as empty text. */
  function AddHeaders(headers: map<string, string>, token: NStr, clientId: NStr, includeContentType: bool)
    : (r: map<string, string>)
    ensures "Authorization" in r && r["Authorization"] == "Bearer " + Text(token)
    ensures "Client-Id" in r && r["Client-Id"] == Text(clientId)
    ensures includeContentType ==> "Content-Type" in r && r["Content-Type"] == "application/json"
    ensures "Content-Type" in r <==> includeContentType || "Content-Type" in headers
    ensures r.Keys == headers.Keys + {"Authorization", "Client-Id"} + (if includeContentType then {"Content-Type"} else {})
    ensures forall h :: h in headers && h != "Authorization" && h != "Client-Id" && (includeContentType ==> h != "Content-Type") ==>
      r[h] == headers[h]
  {
    var auth := headers["Authorization" := "Bearer " + Text(token)]["Client-Id" := Text(clientId)];
    if includeContentType then auth["Content-Type" := "application/json"] else auth
  }

  /** `new PostRequest(client, url, contents, ...)`: a POST carrying the
      contents as its body and the JSON content type. */
  function NewPostRequest(
    token: NStr, clientId: NStr, url: string, contents: string,
    onCompleted: Option<HandlerId>, onError: Option<HandlerId>,
    ps: Option<seq<Param>>, escape: string -> string): (r: Request)
    ensures r.web.verb == "POST"
    ensures r.web.body == Some(contents)
    ensures r.web.url == AddQueryParameters(url, ps, escape)
    ensures r.web.headers.Keys == {"Authorization", "Client-Id", "Content-Type"}
    ensures r.web.headers["Content-Type"] == "application/json"
    ensures r.web.headers["Authorization"] == "Bearer " + Text(token)
    ensures r.web.headers["Client-Id"] == Text(clientId)
    ensures r.callbacks == Callbacks(onCompleted, onError)
  {
    Request(
      WebRequest("POST", AddQueryParameters(url, ps, escape), AddHeaders(map[], token, clientId, true), Some(contents)),
      Callbacks(onCompleted, onError))
  }

  /** `new SimpleRequest(client, url, ..., verb, ...)`: a body-less request
      of the given verb without a content type. */
  function NewSimpleRequest(
    token: NStr, clientId: NStr, url: string,
    onCompleted: Option<HandlerId>, onError: Option<HandlerId>, verb: string,
    ps: Option<seq<Param>>, escape: string -> string): (r: Request)
    ensures r.web.verb == verb
    ensures r.web.body.None?
    ensures r.web.url == AddQueryParameters(url, ps, escape)
    ensures r.web.headers.Keys == {"Authorization", "Client-Id"}
    ensures r.web.headers["Authorization"] == "Bearer " + Text(token)
    ensures r.web.headers["Client-Id"] == Text(clientId)
    ensures r.callbacks == Callbacks(onCompleted, onError)
  {
    Request(
      WebRequest(verb, AddQueryParameters(url, ps, escape), AddHeaders(map[], token, clientId, false), None),
      Callbacks(onCompleted, onError))
  }

  /** The two subclasses of `SimpleRequest`, each fixing its verb. */
  datatype SimpleKind = GetRequest | PatchRequest

  /** `new GetRequest(...)` and `new PatchRequest(...)`: `GET` and `PATCH`
      requests without body or content type. */
  function NewKindRequest(
    kind: SimpleKind, token: NStr, clientId: NStr, url: string,
    onCompleted: Option<HandlerId>, onError: Option<HandlerId>,
    ps: Option<seq<Param>>, escape: string -> string): (r: Request)
    ensures kind.GetRequest? ==> r.web.verb == "GET"
    ensures kind.PatchRequest? ==> r.web.verb == "PATCH"
    ensures r.web.body.None? && "Content-Type" !in r.web.headers
    ensures r.web.headers.Keys == {"Authorization", "Client-Id"}
    ensures r.web.headers["Authorization"] == "Bearer " + Text(token)
    ensures r.web.headers["Client-Id"] == Text(clientId)
    ensures r.web.url == AddQueryParameters(url, ps, escape)
    ensures r.callbacks == Callbacks(onCompleted, onError)
  {
    var verb := match kind case GetRequest => "GET" case PatchRequest => "PATCH";
    NewSimpleRequest(token, clientId, url, onCompleted, onError, verb, ps, escape)
  }

  /** The result of `JSONObject.Create` on the downloaded text: a tree, or a
      failure (an exception inside the outer `try`). */
  datatype ParseOutcome = Parsed(json: Json) | Unparseable

  /** Whether each callback invocation throws. `onError` may be invoked with
      the error payload and then with null, so it has one flag per argument. */
  datatype Faults = Faults(completedThrows: bool, errorThrowsOnPayload: bool, errorThrowsOnNull: bool)

  /** One callback invocation; `ErrorCall(h, None)` is `onError(null)`. */
  datatype Invocation =
    | CompletedCall(handler: HandlerId, arg: Json)
    | ErrorCall(handler: HandlerId, errArg: Option<Json>)

  /** What one completion did: the invocations in order, the callbacks left
      armed, and whether an exception escaped `OnCompleted`. */
  datatype Dispatched = Dispatched(trace: seq<Invocation>, after: Callbacks, escaped: bool)

  /** The response body marks an API error. */
  predicate IsApiError(j: Json)
  {
    HasField(j, "error")
  }

  /** `OnCompleted`. The body of the outer `try` either finishes or raises;
      an exception from `onCompleted` is caught by the inner `catch` and only
      logged. The outer `catch` invokes `onError(null)`; if that throws too,
      the exception leaves the method before the callbacks are cleared. */
  function OnCompleted(cb: Callbacks, outcome: ParseOutcome, faults: Faults): (d: Dispatched)
    // a parse failure reaches onError with null, never onCompleted
    ensures outcome.Unparseable? ==>
      d.trace == (if cb.onError.Some? then [ErrorCall(cb.onError.value, None)] else [])
    // an error payload goes to onError first, and never to onCompleted
    ensures outcome.Parsed? && IsApiError(outcome.json) && cb.onError.Some? ==>
      |d.trace| >= 1 && d.trace[0] == ErrorCall(cb.onError.value, Some(outcome.json))
    ensures outcome.Parsed? && IsApiError(outcome.json) ==>
      forall i :: 0 <= i < |d.trace| ==> d.trace[i].ErrorCall?
    // a success payload goes to onCompleted only, whether or not it throws
    ensures outcome.Parsed? && !IsApiError(outcome.json) ==>
      d.trace == (if cb.onCompleted.Some? then [CompletedCall(cb.onCompleted.value, outcome.json)] else [])
    // onError sees the payload and then null exactly when it throws on the payload
    ensures |d.trace| <= 2
    ensures |d.trace| == 2 <==>
      outcome.Parsed? && IsApiError(outcome.json) && cb.onError.Some? && faults.errorThrowsOnPayload
    ensures |d.trace| == 2 ==> d.trace[1] == ErrorCall(cb.onError.value, None)
    // callbacks are cleared unless onError(null) threw out of the method
    ensures d.escaped <==>
      cb.onError.Some? && faults.errorThrowsOnNull &&
      (outcome.Unparseable? || (IsApiError(outcome.json) && faults.errorThrowsOnPayload))
    ensures d.after == (if d.escaped then cb else Cleared)
    // only armed callbacks run: a null slot is never invoked
    ensures forall i :: 0 <= i < |d.trace| && d.trace[i].ErrorCall? ==> cb.onError == Some(d.trace[i].handler)
    ensures forall i :: 0 <= i < |d.trace| && d.trace[i].CompletedCall? ==> cb.onCompleted == Some(d.trace[i].handler)
  {
    var (inner, raised) :=
      match outcome
      case Unparseable => ([], true)
      case Parsed(json) =>
        if IsApiError(json) then
          match cb.onError
          case None => ([], false)
          case Some(h) => ([ErrorCall(h, Some(json))], faults.errorThrowsOnPayload)
        else
          match cb.onCompleted
          case None => ([], false)
          case Some(h) => ([CompletedCall(h, json)], false);
    if !raised then Dispatched(inner, Cleared, false)
    else
      match cb.onError
      case None => Dispatched(inner, Cleared, false)
      case Some(h) =>
        var escaped := faults.errorThrowsOnNull;
        Dispatched(inner + [ErrorCall(h, None)], if escaped then cb else Cleared, escaped)
  }

  /** Whether `onCompleted` throws changes nothing observable: its exception
      is swallowed and never reaches `onError`. */
  lemma CompletedFaultIsSwallowed(cb: Callbacks, outcome: ParseOutcome, faults: Faults)
    ensures OnCompleted(cb, outcome, faults)
         == OnCompleted(cb, outcome, faults.(completedThrows := !faults.completedThrows))
  {
  }

  /** Once a completion has cleared the callbacks, any later completion
      invokes nothing. */
  lemma LaterCompletionSilent(cb: Callbacks, o1: ParseOutcome, f1: Faults, o2: ParseOutcome, f2: Faults)
    requires !OnCompleted(cb, o1, f1).escaped
    ensures OnCompleted(OnCompleted(cb, o1, f1).after, o2, f2).trace == []
  {
  }

  /** `onError` is not guaranteed to fire once: a handler that throws on the
      error payload is invoked again with null. */
  lemma ErrorHandlerCanFireTwice()
    ensures OnCompleted(Callbacks(Some(1), Some(2)), Parsed(JObj([("error", JStr("Unauthorized"))])), Faults(false, true, false)).trace
         == [ErrorCall(2, Some(JObj([("error", JStr("Unauthorized"))]))), ErrorCall(2, None)]
  {
    var body := JObj([("error", JStr("Unauthorized"))]);
    assert body.fields[0].0 == "error";
  }

  /** Number of `onCompleted` invocations in a trace. */
  function CompletedCount(trace: seq<Invocation>): nat
  {
    if |trace| == 0 then 0
    else (if trace[0].CompletedCall? then 1 else 0) + CompletedCount(trace[1..])
  }

  lemma {:induction false} CompletedCountAppend(a: seq<Invocation>, b: seq<Invocation>)
    ensures CompletedCount(a + b) == CompletedCount(a) + CompletedCount(b)
  {
    if |a| > 0 {
      assert (a + b)[0] == a[0];
      assert (a + b)[1..] == a[1..] + b;
      CompletedCountAppend(a[1..], b);
    } else {
      assert a + b == b;
    }
  }

  /** One completion in a run of completions of a request. The source
      subscribes `OnCompleted` once per request; the run states what any
      further completion would do. */
  datatype Completion = Completion(outcome: ParseOutcome, faults: Faults)

  /** The completion, met with callbacks `cb`, throws out of `OnCompleted`. */
  predicate Escapes(cb: Callbacks, c: Completion)
  {
    OnCompleted(cb, c.outcome, c.faults).escaped
  }

  /** All invocations a sequence of completions causes, and the callbacks left. */
  function CompleteAll(cb: Callbacks, cs: seq<Completion>): (r: (seq<Invocation>, Callbacks))
    // onCompleted fires at most once over the request's life
    ensures CompletedCount(r.0) <= 1
    // a completion that does not escape ends the request's callbacks
    ensures |cs| > 0 && !Escapes(cb, cs[0]) ==>
      r.0 == OnCompleted(cb, cs[0].outcome, cs[0].faults).trace
    // callbacks survive exactly when every completion escaped
    ensures r.1 == (if forall j :: 0 <= j < |cs| ==> Escapes(cb, cs[j]) then cb else Cleared)
    decreases |cs|
  {
    if |cs| == 0 then ([], cb)
    else
      var d := OnCompleted(cb, cs[0].outcome, cs[0].faults);
      var rest := CompleteAll(d.after, cs[1..]);
      CompletedCountAppend(d.trace, rest.0);
      assert d.escaped ==> CompletedCount(d.trace) == 0 by {
        if d.escaped { NoCompletedCalls(d.trace); }
      }
      assert forall j :: 1 <= j < |cs| ==> cs[j] == cs[1..][j - 1];
      (d.trace + rest.0, rest.1)
  }

  /** The first completion that does not escape is the last to do anything:
      the run invokes what the completions up to it invoke, and ends with the
      callbacks cleared. */
  lemma {:induction false} CompleteAllStopsAt(cb: Callbacks, cs: seq<Completion>, k: nat)
    requires k < |cs|
    requires forall j :: 0 <= j < k ==> Escapes(cb, cs[j])
    requires !Escapes(cb, cs[k])
    ensures CompleteAll(cb, cs) == CompleteAll(cb, cs[..k + 1])
    ensures CompleteAll(cb, cs).1 == Cleared
  {
    if k > 0 {
      assert Escapes(cb, cs[0]);
      assert cs[..k + 1][0] == cs[0];
      assert cs[..k + 1][1..] == cs[1..][..k];
      forall j | 0 <= j < k - 1
        ensures Escapes(cb, cs[1..][j])
      {
        assert cs[1..][j] == cs[j + 1];
      }
      CompleteAllStopsAt(cb, cs[1..], k - 1);
    }
  }

  lemma {:induction false} NoCompletedCalls(trace: seq<Invocation>)
    requires forall i :: 0 <= i < |trace| ==> trace[i].ErrorCall?
    ensures CompletedCount(trace) == 0
  {
    if |trace| > 0 {
      NoCompletedCalls(trace[1..]);
    }
  }
}
