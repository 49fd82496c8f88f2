/**
 * The `l2l-modules.fetch` service (index.js:255-287): while it resolves a
 * module source for a peer, the system's package table and module map
 * are swapped for copies without l2l entries, and the originals are put
 * back whether the resolution succeeds or fails.
 */
module FetchService {
  import opened Wrappers
  import opened Strings
  import opened JsValues
  import opened L2lAddress
  import opened Answers
  import opened MessageData
  import opened RemoteFetch

  type Table = map<string, Value>

  /** A package entry to hide: its name is an l2l address (index.js:278-279). */
  predicate L2lPackage(name: string, entry: Value) {
    StartsWith(name, Scheme)
  }

  /**
   * A map entry to hide: the string form of its target is an l2l address
   * (index.js:280-281). Among the values modelled here only a string can
   * qualify: undefined, null, booleans, numbers and plain objects render
   * as "undefined", "null", "true"/"false", digits and "[object Object]".
   * Arrays, whose string form joins their elements, are not modelled.
   */
  predicate L2lTarget(name: string, target: Value) {
    target.Str? && StartsWith(target.s, Scheme)
  }

  /** The entries of `table` that `doomed` does not select. */
  function Without(table: Table, doomed: (string, Value) -> bool): (r: Table)
    ensures forall k :: k in r <==> k in table && !doomed(k, table[k])
    ensures forall k :: k in r ==> r[k] == table[k]
  {
    map k | k in table && !doomed(k, table[k]) :: table[k]
  }

  /** Removing the same entries again removes nothing. */
  lemma WithoutIdempotent(table: Table, doomed: (string, Value) -> bool)
    ensures Without(Without(table, doomed), doomed) == Without(table, doomed)
  {
  }

  /**
   * A shallow copy of `table` from which a loop over its keys deletes
   * every entry `doomed` selects.
   */
  method DeleteWhere(table: Table, doomed: (string, Value) -> bool) returns (r: Table)
    ensures r == Without(table, doomed)
  {
    r := table;
    var todo := table.Keys;
    while todo != {}
      invariant todo <= table.Keys
      invariant forall k :: k in r <==> k in table && (k in todo || !doomed(k, table[k]))
      invariant forall k :: k in r ==> r[k] == table[k]
      decreases |todo|
    {
      var name :| name in todo;
      if doomed(name, table[name]) {
        r := r - {name};
      }
      todo := todo - {name};
    }
    assert r.Keys == Without(table, doomed).Keys;
  }

  /** The two tables of a module system that normalization consults. */
  class ModuleSystem {
    var packages: Table
    var moduleMap: Table

    constructor (packages: Table, moduleMap: Table)
      ensures this.packages == packages && this.moduleMap == moduleMap
    {
      this.packages := packages;
      this.moduleMap := moduleMap;
    }

    /** prepareSystem (index.js:269-284): hides l2l entries and returns the originals. */
    method PrepareSystem() returns (savedPackages: Table, savedMap: Table)
      modifies this
      ensures savedPackages == old(packages) && savedMap == old(moduleMap)
      ensures packages == Without(old(packages), L2lPackage)
      ensures moduleMap == Without(old(moduleMap), L2lTarget)
    {
      savedPackages := packages;
      savedMap := moduleMap;
      var nonL2lPackages := DeleteWhere(packages, L2lPackage);
      var nonL2lMap := DeleteWhere(moduleMap, L2lTarget);
      packages := nonL2lPackages;
      moduleMap := nonL2lMap;
    }

    /** resetSystem (index.js:286). */
    method ResetSystem(savedPackages: Table, savedMap: Table)
      modifies this
      ensures packages == savedPackages && moduleMap == savedMap
    {
      packages := savedPackages;
      moduleMap := savedMap;
    }
  }

  /** While the service runs, no package name and no map target is an l2l address. */
  lemma PreparedTablesHaveNoL2lEntries(packages: Table, moduleMap: Table)
    ensures forall name :: name in Without(packages, L2lPackage) ==> !StartsWith(name, Scheme)
    ensures forall name :: name in Without(moduleMap, L2lTarget) ==>
      !(moduleMap[name].Str? && StartsWith(moduleMap[name].s, Scheme))
  {
  }

  /**
   * The module system's source lookup as seen by the service: the source
   * it resolves the path (relative to the parent) to under the given
   * tables, or the string form of the error it rejects with.
   */
  type SourceOf = (Table, Table, Value, Value) -> Result<Value, string>

  /** The two payloads the service answers with. */
  datatype FetchReply = SourceReply(source: Value) | ErrorReply(error: string)

  function ReplyPayload(reply: FetchReply): map<string, Value> {
    match reply
    case SourceReply(source) => map["source" := source]
    case ErrorReply(error) => map["error" := Str(error)]
  }

  /**
   * The string form (its stack, where the runtime records one) of an Error
   * with a given message, as the runtime renders it.
   */
  type ErrorText = string -> string

  /**
   * The reply to a fetch request with `data`, given the tables in force
   * while the source is resolved: expectData's rejection is answered with
   * the string form of its Error, and the outcome of resolving the path
   * (with the parent, when there is one) otherwise.
   */
  function FetchReplyFor(packages: Table, moduleMap: Table, data: Data, sourceOf: SourceOf,
                         errorText: ErrorText): (r: FetchReply)
    ensures "path" !in data ==> r == ErrorReply(errorText(MissingPropertyMessage(FetchAction, "path")))
    ensures "path" in data ==>
      var parent := if "parent" in data then data["parent"] else Undefined;
      r == match sourceOf(packages, moduleMap, data["path"], parent)
           case Ok(source) => SourceReply(source)
           case Err(text) => ErrorReply(text)
  {
    match Expected(["path"], FetchAction, data)
    case Err(message) => ErrorReply(errorText(message))
    case Ok(d) =>
      assert ["path"][0] in d;
      var parent := if "parent" in d then d["parent"] else Undefined;
      match sourceOf(packages, moduleMap, d["path"], parent)
      case Ok(source) => SourceReply(source)
      case Err(text) => ErrorReply(text)
  }

  /**
   * The service handler on the system `S` it was asked about: the reply is
   * computed under the tables without l2l entries, and the tables are
   * restored afterwards on either outcome.
   */
  method HandleFetch(S: ModuleSystem, data: Data, sourceOf: SourceOf, errorText: ErrorText)
    returns (reply: FetchReply)
    modifies S
    ensures S.packages == old(S.packages) && S.moduleMap == old(S.moduleMap)
    ensures reply == FetchReplyFor(Without(old(S.packages), L2lPackage),
                                   Without(old(S.moduleMap), L2lTarget), data, sourceOf, errorText)
  {
    var packages, moduleMap := S.PrepareSystem();
    var checked := ExpectData(["path"], FetchAction, data);
    match checked
    case Err(message) =>
      S.ResetSystem(packages, moduleMap);
      reply := ErrorReply(errorText(message));
    case Ok(d) =>
      assert ["path"][0] in d;
      var parent := if "parent" in d then d["parent"] else Undefined;
      var resolved := sourceOf(S.packages, S.moduleMap, d["path"], parent);
      S.ResetSystem(packages, moduleMap);
      match resolved
      case Ok(source) =>
        reply := SourceReply(source);
      case Err(text) =>
        reply := ErrorReply(text);
  }

  /**
   * The fetch round trip: doL2lFetch resolves with the source the service
   * answered, and rejects with the error text the service answered,
   * unless that text is empty (then it resolves with undefined).
   */
  lemma FetchRoundTrip(reply: FetchReply)
    ensures reply.SourceReply? ==> FetchAnswer(AnswerOf(Obj(ReplyPayload(reply)))) == Ok(reply.source)
    ensures reply.ErrorReply? && reply.error != "" ==>
      FetchAnswer(AnswerOf(Obj(ReplyPayload(reply)))) == Err(Rejected(Str(reply.error)))
    ensures reply.ErrorReply? && reply.error == "" ==>
      FetchAnswer(AnswerOf(Obj(ReplyPayload(reply)))) == Ok(Undefined)
  {
    UnwrapAnswerOf(ReplyPayload(reply), "source");
  }

  /**
   * A fetch request without `path` rejects on the client with the string
   * form of expectData's Error, which for an Error is never empty.
   */
  lemma FetchWithoutPathRejects(packages: Table, moduleMap: Table, data: Data, sourceOf: SourceOf,
                                errorText: ErrorText)
    requires "path" !in data && errorText(MissingPropertyMessage(FetchAction, "path")) != ""
    ensures FetchAnswer(AnswerOf(Obj(ReplyPayload(FetchReplyFor(packages, moduleMap, data, sourceOf, errorText))))) ==
      Err(Rejected(Str(errorText(MissingPropertyMessage(FetchAction, "path")))))
  {
    FetchRoundTrip(FetchReplyFor(packages, moduleMap, data, sourceOf, errorText));
  }
}
