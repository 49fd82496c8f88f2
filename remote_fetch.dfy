/**
 * The module loader's fetch hook and the remote fetch client
 * (index.js:143-163, 176-181): addresses of the l2l scheme are fetched
 * from the session that owns them, everything else goes to the default
 * loader.
 */
module RemoteFetch {
  import opened Wrappers
  import opened Strings
  import opened JsValues
  import opened L2lAddress
  import opened Answers

  const FetchAction: string := "l2l-modules.fetch"

  /** The two fields of a loader record the hook reads; either may be absent. */
  datatype Load = Load(address: Option<string>, name: Option<string>)

  /** `load.address || load.name || ""`. */
  function LoadAddress(load: Load): string {
    if Present(load.address) then load.address.value
    else if Present(load.name) then load.name.value
    else ""
  }

  /** The decision of the l2lFetch hook. */
  datatype FetchRoute = Proceed | Remote(address: string, sessionId: string, path: string)

  /**
   * l2lFetch (index.js:177-181): a load goes remote exactly when its
   * address matches `^l2l:\/\/([^\/]+)\/(.*)`, and then with the captures
   * of that match.
   */
  function RouteFetch(load: Load): (r: FetchRoute)
    ensures r.Remote? <==> MatchL2l(LoadAddress(load)).Some?
    ensures r.Remote? ==> r.address == LoadAddress(load) && RegexMatches(r.address, r.sessionId, r.path)
    ensures r.Proceed? ==> forall sid, path :: !RegexMatches(LoadAddress(load), sid, path)
  {
    var address := LoadAddress(load);
    match MatchL2l(address)
    case None =>
      assert forall sid, path :: !RegexMatches(address, sid, path) by {
        forall sid, path ensures !RegexMatches(address, sid, path) { MatchL2lNone(address, sid, path); }
      }
      Proceed
    case Some(Captures(sid, path)) => Remote(address, sid, path)
  }

  /** The request doL2lFetch sends: to the un-escaped session id, with the URL and the path. */
  function FetchRequest(url: string, targetSessionId: string, path: string): Request {
    Request(UnescapeSession(targetSessionId), FetchAction,
            Obj(map["url" := Str(url), "path" := Str(path)]))
  }

  /** How doL2lFetch settles on the peer's answer: the reported error, or else the payload's `source`. */
  function FetchAnswer(answer: Value): Result<Value, Error> {
    Unwrap(answer, "source")
  }

  /** One round trip of doL2lFetch: the request sent and how the promise settles. */
  datatype FetchOutcome = FetchOutcome(request: Request, result: Result<Value, Error>)

  /**
   * doL2lFetch (index.js:143-163) once the session is online, with the
   * peer's answer as input.
   */
  function DoL2lFetch(url: string, targetSessionId: string, path: string, answer: Value): (r: FetchOutcome)
    ensures r.request.target == UnescapeSession(targetSessionId) && r.request.action == FetchAction
    ensures r.request.data == Obj(map["url" := Str(url), "path" := Str(path)])
    ensures AnswerError(answer).Ok? && Truthy(AnswerError(answer).value) ==>
      r.result == Err(Rejected(AnswerError(answer).value))
    ensures AnswerError(answer).Ok? && !Truthy(AnswerError(answer).value) ==>
      r.result == GetProp(GetProp(answer, "data").value, "source")
    ensures AnswerError(answer).Err? ==> r.result == Err(AnswerError(answer).error)
  {
    FetchOutcome(FetchRequest(url, targetSessionId, path), FetchAnswer(answer))
  }

  /** The fetch hook: None means `proceed(load)`, the default loader. */
  function L2lFetchHook(load: Load, answer: Value): (r: Option<FetchOutcome>)
    ensures r.None? <==> MatchL2l(LoadAddress(load)).None?
    ensures r.Some? ==>
      var captures := MatchL2l(LoadAddress(load)).value;
      && r.value.request.target == UnescapeSession(captures.sessionId)
      && r.value.request.action == FetchAction
      && r.value.request.data == Obj(map["url" := Str(LoadAddress(load)), "path" := Str(captures.path)])
      && r.value.result == FetchAnswer(answer)
  {
    match RouteFetch(load)
    case Proceed => None
    case Remote(address, sid, path) => Some(DoL2lFetch(address, sid, path, answer))
  }

  /**
   * The whole path of an address through the normalize hook (fixL2lURL)
   * and the fetch hook: the request goes to the session named in the
   * original address, provided the part of the session id before its
   * first colon holds no `__COLON`.
   */
  lemma NormalizedFetchReachesOwner(before: string, after: string, path: string, answer: Value)
    requires ':' !in before && !Contains(before, "__COLON")
    requires '/' !in before && '/' !in after && NoLineTerminator(path)
    ensures var normalized := FixL2lURL(Scheme + (before + ":" + after) + "/" + path);
      var hooked := L2lFetchHook(Load(Some(normalized), None), answer);
      && hooked.Some?
      && hooked.value.request.target == before + ":" + after
      && hooked.value.request.action == FetchAction
      && hooked.value.request.data == Obj(map["url" := Str(normalized), "path" := Str(path)])
  {
    var sid := before + ":" + after;
    NoCharInParts(before, ":", after, '/');
    FixL2lURLOfBuilt(sid, path);
    var normalized := Scheme + EscapeSession(sid) + "/" + path;
    EscapeSessionShape(sid);
    MatchOfBuilt(EscapeSession(sid), path);
    UnescapeEscapeSession(before, after);
  }

  /** A colon-free session id needs no escaping and reaches its owner as well. */
  lemma NormalizedFetchReachesColonFreeOwner(sessionId: string, path: string, answer: Value)
    requires sessionId != [] && ':' !in sessionId && '/' !in sessionId && !Contains(sessionId, ColonToken)
    requires NoLineTerminator(path)
    ensures var hooked := L2lFetchHook(Load(Some(FixL2lURL(Scheme + sessionId + "/" + path)), None), answer);
      hooked.Some? && hooked.value.request.target == sessionId
  {
    FixL2lURLOfBuilt(sessionId, path);
    EscapeSessionColonFree(sessionId);
    MatchOfBuilt(sessionId, path);
    UnescapeEscapeColonFree(sessionId);
  }

  /** A load whose address is not of the l2l scheme is left to the default loader. */
  lemma NonL2lLoadProceeds(load: Load, answer: Value)
    requires !StartsWith(LoadAddress(load), Scheme)
    ensures L2lFetchHook(load, answer).None?
  {
  }
}
