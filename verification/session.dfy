/** `Client` and `User`: the session's credentials, token and broadcaster
    identity, the user record's JSON form, and the save string that lets a
    client be rebuilt. The OAuth listener that produces tokens is not part of
    this model; a token arrives as an event. */
module Session {
  import opened Common
  import opened Json
  import opened Requests

  /** The broadcaster identity; each field is a possibly-null C# string. */
  datatype User = User(id: NStr, login: NStr, displayName: NStr, broadcasterType: NStr)

  /** `new User()`: every field null. */
  const NewUser := User(None, None, None, None)

  /** The keys of one entry of the users payload. */
  const UserKeys: set<string> := {"id", "login", "display_name", "broadcaster_type"}

  /** `GetField("data").list[0]`: null data or a leaf has no list (null
      reference); an empty list has no first element. */
  function FirstEntry(obj: Json): (r: Result<Json, Exception>)
    ensures !HasField(obj, "data") ==> r == Failure(NullReference)
    ensures HasField(obj, "data") && List(Field(obj, "data").value).None? ==> r == Failure(NullReference)
    ensures HasField(obj, "data") && List(Field(obj, "data").value).Some? ==>
      var items := List(Field(obj, "data").value).value;
      r == if |items| == 0 then Failure(ArgumentOutOfRange) else Success(items[0])
    ensures r.Success? ==>
      && HasField(obj, "data")
      && List(Field(obj, "data").value).Some?
      && |List(Field(obj, "data").value).value| > 0
      && r.value == List(Field(obj, "data").value).value[0]
  {
    match Field(obj, "data")
    case None => Failure(NullReference)
    case Some(data) =>
      match List(data)
      case None => Failure(NullReference)
      case Some(list) => if |list| == 0 then Failure(ArgumentOutOfRange) else Success(list[0])
  }

  /** `User.ParseJSON`, applied to the user `prev` it updates: reads only the
      first entry of `data`; a missing id, login or display name keeps the
      previous value, a missing broadcaster type becomes empty text. */
  function ParseUser(prev: User, obj: Json): (r: Result<User, Exception>)
    ensures FirstEntry(obj).Failure? ==> r == Failure(FirstEntry(obj).error)
    ensures FirstEntry(obj).Success? ==> r.Success?
    ensures r.Success? ==>
      var d := FirstEntry(obj).value;
      && (HasField(d, "id") ==> r.value.id == Str(Field(d, "id").value))
      && (!HasField(d, "id") ==> r.value.id == prev.id)
      && (HasField(d, "login") ==> r.value.login == Str(Field(d, "login").value))
      && (!HasField(d, "login") ==> r.value.login == prev.login)
      && (HasField(d, "display_name") ==> r.value.displayName == Str(Field(d, "display_name").value))
      && (!HasField(d, "display_name") ==> r.value.displayName == prev.displayName)
      && (HasField(d, "broadcaster_type") ==> r.value.broadcasterType == Str(Field(d, "broadcaster_type").value))
      && (!HasField(d, "broadcaster_type") ==> r.value.broadcasterType == Some(""))
  {
    match FirstEntry(obj)
    case Failure(e) => Failure(e)
    case Success(d) =>
      Success(User(
        GetString(d, "id", prev.id),
        GetString(d, "login", prev.login),
        GetString(d, "display_name", prev.displayName),
        GetString(d, "broadcaster_type", Some(""))))
  }

  /** `User.ToJSON`: `{data: [{id, login, display_name, broadcaster_type}]}`;
      `ParseUser` reads it back to the same user, whatever user it updates. */
  function ToJson(u: User): (j: Json)
    ensures HasField(j, "data") && Field(j, "data").value.JArr?
    ensures |Field(j, "data").value.items| == 1
    ensures forall k :: k in UserKeys ==> HasField(Field(j, "data").value.items[0], k)
    ensures forall prev :: ParseUser(prev, j) == Success(u)
  {
    var entry := JObj([
      ("id", FromNStr(u.id)),
      ("login", FromNStr(u.login)),
      ("display_name", FromNStr(u.displayName)),
      ("broadcaster_type", FromNStr(u.broadcasterType))]);
    assert entry.fields[0].0 == "id" && entry.fields[1].0 == "login";
    assert entry.fields[2].0 == "display_name" && entry.fields[3].0 == "broadcaster_type";
    var j := JObj([("data", JArr([entry]))]);
    assert j.fields[0].0 == "data";
    j
  }

  /** The client: readonly application credentials, the user's token and
      the broadcaster identity, each of which may be null. */
  datatype Client = Client(clientId: NStr, clientSecret: NStr, token: NStr, identity: Option<User>)

  /** `bHasOAuth`. */
  predicate HasOAuth(c: Client)
  {
    c.token.Some?
  }

  /** `bHasBroadcasterInfos`. */
  predicate HasBroadcasterInfos(c: Client)
  {
    c.identity.Some?
  }

  /** `new Client(id, secret)`: no token and no identity yet. */
  function NewClient(id: NStr, secret: NStr): (c: Client)
    ensures c.clientId == id && c.clientSecret == secret
    ensures !HasOAuth(c) && !HasBroadcasterInfos(c)
  {
    Client(id, secret, None, None)
  }

  /** `new Client(id, secret, oauth)`: the token given, no identity yet. */
  function NewClientWithToken(id: NStr, secret: NStr, token: NStr): (c: Client)
    ensures c.clientId == id && c.clientSecret == secret && c.token == token
    ensures HasOAuth(c) <==> token.Some?
    ensures !HasBroadcasterInfos(c)
  {
    NewClient(id, secret).(token := token)
  }

  /** The part of the OAuth listener's token response the client reads. */
  datatype TokenResponse = TokenResponse(accessToken: NStr)

  /** `OnOAuthTokenRecieved`: the token becomes the response's access token;
      nothing else changes. */
  function OnOAuthTokenReceived(c: Client, response: TokenResponse): (r: Client)
    ensures r.token == response.accessToken
    ensures HasOAuth(r) <==> response.accessToken.Some?
    ensures r.clientId == c.clientId && r.clientSecret == c.clientSecret && r.identity == c.identity
  {
    c.(token := response.accessToken)
  }

  const UsersEndpoint := "https://api.twitch.tv/helix/users"

  /** The delegate `GetClientUserInfos` hands to its GET request. */
  const UserInfosHandler: HandlerId := 0

  /** `GetBroadcasterInfos`: drops the identity, then sends an authorized GET
      to the users endpoint whose only callback is the user-infos handler. */
  function GetBroadcasterInfos(c: Client): (r: (Client, Request))
    ensures !HasBroadcasterInfos(r.0)
    ensures r.0.clientId == c.clientId && r.0.clientSecret == c.clientSecret && r.0.token == c.token
    ensures r.1.web.verb == "GET" && r.1.web.url == UsersEndpoint && r.1.web.body.None?
    ensures r.1.web.headers.Keys == {"Authorization", "Client-Id"}
    ensures r.1.web.headers["Authorization"] == "Bearer " + Text(c.token)
    ensures r.1.web.headers["Client-Id"] == Text(c.clientId)
    ensures r.1.callbacks == Callbacks(Some(UserInfosHandler), None)
  {
    (c.(identity := None),
     NewSimpleRequest(c.token, c.clientId, UsersEndpoint, Some(UserInfosHandler), None, "GET", None, s => s))
  }

  /** `OnBroadcasterInfosGet`: the fetched user replaces the identity wholesale. */
  function OnBroadcasterInfosGet(c: Client, u: User): (r: Client)
    ensures r.identity == Some(u) && HasBroadcasterInfos(r)
    ensures r.clientId == c.clientId && r.clientSecret == c.clientSecret && r.token == c.token
  {
    c.(identity := Some(u))
  }

  /** The identity request's onCompleted delivers a successful payload. */
  predicate DeliversUser(cb: Callbacks, outcome: ParseOutcome)
  {
    cb.onCompleted == Some(UserInfosHandler) && outcome.Parsed? && !IsApiError(outcome.json)
  }

  /** One completion of the identity request, with callbacks `cb`: the
      handler parses a fresh `User` from the payload and stores it; if
      parsing throws, `OnCompleted` swallows the exception. Any error
      handler is taken not to throw. */
  function ReceiveUserInfos(c: Client, cb: Callbacks, outcome: ParseOutcome): (r: (Client, Callbacks))
    ensures DeliversUser(cb, outcome) && ParseUser(NewUser, outcome.json).Success? ==>
      r.0 == OnBroadcasterInfosGet(c, ParseUser(NewUser, outcome.json).value)
    ensures !(DeliversUser(cb, outcome) && ParseUser(NewUser, outcome.json).Success?) ==> r.0 == c
    ensures r.1 == Cleared
  {
    var fetched := if outcome.Parsed? then ParseUser(NewUser, outcome.json) else Failure(NullReference);
    var d := OnCompleted(cb, outcome, Faults(fetched.Failure?, false, false));
    var delivered := outcome.Parsed? && CompletedCall(UserInfosHandler, outcome.json) in d.trace;
    if delivered && fetched.Success? then (OnBroadcasterInfosGet(c, fetched.value), d.after)
    else (c, d.after)
  }

  /** Fetching the identity end to end: the client holds an identity after
      the response exactly when the payload was a success that parsed, that
      identity is the parsed user, and a later response changes nothing. */
  lemma FetchIdentity(c: Client, outcome: ParseOutcome, later: ParseOutcome)
    ensures
      var (c1, req) := GetBroadcasterInfos(c);
      var (c2, cb2) := ReceiveUserInfos(c1, req.callbacks, outcome);
      && (HasBroadcasterInfos(c2) <==>
            outcome.Parsed? && !IsApiError(outcome.json) && ParseUser(NewUser, outcome.json).Success?)
      && (HasBroadcasterInfos(c2) ==> c2.identity.value == ParseUser(NewUser, outcome.json).value)
      && c2.token == c.token && c2.clientId == c.clientId
      && ReceiveUserInfos(c2, cb2, later).0 == c2
  {
  }

  /** `GetSaveString`: `{soauth, uinfo}`; a client without identity throws.
      Loading the save with any credentials gives back the token and identity. */
  function GetSaveString(c: Client): (r: Result<Json, Exception>)
    ensures r.Failure? <==> !HasBroadcasterInfos(c)
    ensures r.Failure? ==> r.error == NullReference
    ensures r.Success? ==> HasField(r.value, "soauth") && HasField(r.value, "uinfo")
    ensures r.Success? ==> forall id, secret :: LoadFromSave(id, secret, r.value) == Success(Client(id, secret, c.token, c.identity))
  {
    match c.identity
    case None => Failure(NullReference)
    case Some(u) =>
      var save := JObj([("soauth", FromNStr(c.token)), ("uinfo", ToJson(u))]);
      assert save.fields[0].0 == "soauth" && save.fields[1].0 == "uinfo";
      Success(save)
  }

  /** `new Client(id, secret, save, true)`: the credentials come from the
      arguments, the token from `soauth` (null when absent) and the identity
      from parsing `uinfo` into a fresh user; a missing `uinfo` throws. */
  function LoadFromSave(id: NStr, secret: NStr, save: Json): (r: Result<Client, Exception>)
    ensures !HasField(save, "uinfo") ==> r == Failure(NullReference)
    ensures HasField(save, "uinfo") ==>
      (r.Success? <==> ParseUser(NewUser, Field(save, "uinfo").value).Success?)
    ensures r.Failure? && HasField(save, "uinfo") ==>
      r.error == ParseUser(NewUser, Field(save, "uinfo").value).error
    ensures r.Success? ==> r.value.clientId == id && r.value.clientSecret == secret
    ensures r.Success? ==> r.value.identity == Some(ParseUser(NewUser, Field(save, "uinfo").value).value)
    ensures r.Success? && !HasField(save, "soauth") ==> !HasOAuth(r.value)
    ensures r.Success? && HasField(save, "soauth") ==> r.value.token == Str(Field(save, "soauth").value)
  {
    var token := GetString(save, "soauth", None);
    match Field(save, "uinfo")
    case None => Failure(NullReference)
    case Some(info) =>
      match ParseUser(NewUser, info)
      case Failure(e) => Failure(e)
      case Success(u) => Success(Client(id, secret, token, Some(u)))
  }

  /** What can happen to a live client. */
  datatype Event =
    | TokenArrived(response: TokenResponse)
    | IdentityRequested
    | IdentityArrived(user: User)

  function Apply(c: Client, e: Event): Client
  {
    match e
    case TokenArrived(response) => OnOAuthTokenReceived(c, response)
    case IdentityRequested => GetBroadcasterInfos(c).0
    case IdentityArrived(u) => OnBroadcasterInfosGet(c, u)
  }

  /** The token after `events`, read from the end: the access token of the
      last arrival, or `init` when none arrived. */
  function LastToken(init: NStr, events: seq<Event>): NStr
    decreases |events|
  {
    if |events| == 0 then init
    else
      var e := events[|events| - 1];
      if e.TokenArrived? then e.response.accessToken else LastToken(init, events[..|events| - 1])
  }

  /** The identity after `events`, read from the end: the last request drops
      it, the last arrival sets it, and token arrivals do not touch it. */
  function LastIdentity(init: Option<User>, events: seq<Event>): Option<User>
    decreases |events|
  {
    if |events| == 0 then init
    else
      var e := events[|events| - 1];
      match e
      case IdentityRequested => None
      case IdentityArrived(u) => Some(u)
      case TokenArrived(_) => LastIdentity(init, events[..|events| - 1])
  }

  /** Reading from the end agrees with applying the first event and reading
      the rest from the end. */
  lemma {:induction false} LastOfCons(c: Client, e: Event, rest: seq<Event>)
    ensures LastToken(c.token, [e] + rest) == LastToken(Apply(c, e).token, rest)
    ensures LastIdentity(c.identity, [e] + rest) == LastIdentity(Apply(c, e).identity, rest)
    decreases |rest|
  {
    var all := [e] + rest;
    if |rest| == 0 {
      assert all[..0] == [];
    } else {
      var front := rest[..|rest| - 1];
      assert all[|all| - 1] == rest[|rest| - 1];
      assert all[..|all| - 1] == [e] + front;
      LastOfCons(c, e, front);
    }
  }

  /** A client's life as a sequence of events: the credentials never change,
      the token is the last one that arrived, and the identity is decided by
      the last identity request (absent) or arrival (the user that arrived). */
  function Replay(c: Client, events: seq<Event>): (r: Client)
    ensures r.clientId == c.clientId && r.clientSecret == c.clientSecret
    ensures r.token == LastToken(c.token, events)
    ensures r.identity == LastIdentity(c.identity, events)
    decreases |events|
  {
    if |events| == 0 then c
    else
      var r := Replay(Apply(c, events[0]), events[1..]);
      LastOfCons(c, events[0], events[1..]);
      assert events == [events[0]] + events[1..];
      r
  }

  /** Two consequences for any history: a token that arrived and was not
      followed by another is the client's token, and an identity request
      not followed by an arrival leaves the client without identity. */
  lemma {:induction false} ReplayLastEvents(c: Client, before: seq<Event>, e: Event, after: seq<Event>)
    ensures e.TokenArrived? && (forall i :: 0 <= i < |after| ==> !after[i].TokenArrived?) ==>
      Replay(c, before + [e] + after).token == e.response.accessToken
    ensures e.IdentityRequested? && (forall i :: 0 <= i < |after| ==> !after[i].IdentityArrived?) ==>
      !HasBroadcasterInfos(Replay(c, before + [e] + after))
    decreases |after|
  {
    var all := before + [e] + after;
    if |after| == 0 {
      assert all == before + [e];
      assert all[..|all| - 1] == before;
      assert LastToken(c.token, all) == (if e.TokenArrived? then e.response.accessToken else LastToken(c.token, before));
    } else {
      var front := after[..|after| - 1];
      assert all[..|all| - 1] == before + [e] + front;
      assert all[|all| - 1] == after[|after| - 1];
      ReplayLastEvents(c, before, e, front);
    }
  }
}
