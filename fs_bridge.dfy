/**
 * The file-system bridge (index.js:193-235, 312-376): fsRequest turns an
 * l2l URL and a method name into a request on the local session, and the
 * `l2l-modules.fs.*` services answer it from a shell. Shell commands are
 * inputs of the model: their exit codes, errors and output are parameters.
 */
module FsBridge {
  import opened Wrappers
  import opened Strings
  import opened JsValues
  import opened L2lAddress
  import opened Answers
  import opened MessageData

  /** The five methods fsRequest accepts. */
  datatype FsOp = Exists | Mkdir | Rm | Read | Write

  /** The lower-case name of a method. */
  function OpName(op: FsOp): string {
    match op
    case Exists => "exists"
    case Mkdir => "mkdir"
    case Rm => "rm"
    case Read => "read"
    case Write => "write"
  }

  /** The method a name selects, ignoring ASCII case. */
  function ParseMethod(methodName: string): (r: Option<FsOp>)
    ensures r.Some? ==> ToLower(methodName) == OpName(r.value)
    ensures r.None? ==> forall op: FsOp :: ToLower(methodName) != OpName(op)
  {
    match ToLower(methodName)
    case "exists" => Some(Exists)
    case "mkdir" => Some(Mkdir)
    case "rm" => Some(Rm)
    case "read" => Some(Read)
    case "write" => Some(Write)
    case _ => None
  }

  /** Every method is recognised from its own name and from that name in any ASCII case. */
  lemma ParseMethodOfName(op: FsOp, methodName: string)
    requires ToLower(methodName) == OpName(op)
    ensures ParseMethod(methodName) == Some(op)
  {
  }

  /** The action each method is sent as. */
  function Selector(op: FsOp): (r: string)
    ensures r == "l2l-modules.fs." + OpName(op)
  {
    match op
    case Exists => "l2l-modules.fs.exists"
    case Mkdir => "l2l-modules.fs.mkdir"
    case Rm => "l2l-modules.fs.rm"
    case Read => "l2l-modules.fs.read"
    case Write => "l2l-modules.fs.write"
  }

  /** Distinct methods are sent as distinct actions. */
  lemma SelectorInjective(a: FsOp, b: FsOp)
    requires Selector(a) == Selector(b)
    ensures a == b
  {
    var prefix := "l2l-modules.fs.";
    assert (prefix + OpName(a))[|prefix|..] == OpName(a);
    assert (prefix + OpName(b))[|prefix|..] == OpName(b);
  }

  /** The payload property the requester reads for each method. */
  function ResultField(op: FsOp): string {
    match op
    case Exists => "exists"
    case Mkdir => "status"
    case Rm => "status"
    case Read => "content"
    case Write => "status"
  }

  /** The Error a rejection message stands for, as a value. */
  function ErrorObject(message: string): Value {
    Obj(map["message" := Str(message)])
  }

  /**
   * The sending half of fsRequest (index.js:203-221): the URL is parsed
   * first (an unparsable URL throws), then the method is selected (an
   * unknown one rejects without sending), and the request goes to the
   * local session with `path` and `cwd` merged under the options.
   */
  function FsRequest(localSession: string, url: string, methodName: string, options: Value)
    : (r: Result<(Request, FsOp), Error>)
    ensures ParseURL(url).Err? ==> r == Err(TypeError)
    ensures ParseURL(url).Ok? && ParseMethod(methodName).None? ==>
      r == Err(Failed("unknown l2l fs request method " + methodName))
    ensures r.Ok? <==> ParseURL(url).Ok? && ParseMethod(methodName).Some?
    ensures r.Ok? ==>
      r.value == (FsMessage(localSession, ParseURL(url).value.path, ParseMethod(methodName).value, options),
                  ParseMethod(methodName).value)
  {
    var target :- ParseURL(url);
    match ParseMethod(methodName)
    case None => Err(Failed("unknown l2l fs request method " + methodName))
    case Some(op) => Ok((FsMessage(localSession, target.path, op, options), op))
  }

  /**
   * The message fsRequest sends for `op` on `path` (index.js:206, 220): to
   * the own session, under the operation's selector, with `path` and an
   * undefined `cwd` that the options' own properties override.
   */
  function FsMessage(localSession: string, path: string, op: FsOp, options: Value): (r: Request)
    ensures r.target == localSession && r.action == Selector(op)
    ensures r.data.Obj? && r.data.fields.Keys == {"path", "cwd"} + OwnProps(options).Keys
    ensures "path" !in OwnProps(options) ==> r.data.fields["path"] == Str(path)
    ensures "cwd" !in OwnProps(options) ==> r.data.fields["cwd"] == Undefined
    ensures forall k :: k in OwnProps(options) ==> r.data.fields[k] == OwnProps(options)[k]
  {
    Request(localSession, Selector(op), Obj(Merge(map["path" := Str(path), "cwd" := Undefined], options)))
  }

  /**
   * The settling half of fsRequest (index.js:222-234): a property read on a
   * missing answer fails, a truthy error of the answer or of its payload
   * rejects, and otherwise the payload's field for the operation is the
   * result.
   */
  function FsSettle(op: FsOp, answer: Value): (r: Result<Value, Error>)
    ensures AnswerError(answer).Err? ==> r == Err(TypeError)
    ensures AnswerError(answer).Ok? && Truthy(AnswerError(answer).value) ==>
      r == Err(Rejected(AnswerError(answer).value))
    ensures AnswerError(answer).Ok? && !Truthy(AnswerError(answer).value) ==>
      r.Ok? && r == GetProp(GetProp(answer, "data").value, ResultField(op))
  {
    Unwrap(answer, ResultField(op))
  }

  /** What an fs service answers with. */
  datatype FsReply =
    | ExistsReply(found: bool)
    | StatusReply(status: string)
    | ContentReply(content: string)
    | ErrorReply(error: Value)

  function FsPayload(reply: FsReply): map<string, Value> {
    match reply
    case ExistsReply(b) => map["exists" := Bool(b)]
    case StatusReply(s) => map["status" := Str(s)]
    case ContentReply(c) => map["content" := Str(c)]
    case ErrorReply(e) => map["error" := e]
  }

  /** The success reply each method's service gives, and the value the requester takes from it. */
  predicate ReplyFits(op: FsOp, reply: FsReply) {
    match op
    case Exists => reply.ExistsReply?
    case Read => reply.ContentReply?
    case _ => reply.StatusReply?
  }

  function ReplyValue(reply: FsReply): Value {
    match reply
    case ExistsReply(b) => Bool(b)
    case StatusReply(s) => Str(s)
    case ContentReply(c) => Str(c)
    case ErrorReply(e) => e
  }

  /**
   * The fs round trip: a success reply of the method's kind settles
   * fsRequest with its value, and an error reply with a truthy error
   * rejects it with that error.
   */
  lemma FsRoundTrip(op: FsOp, reply: FsReply)
    ensures ReplyFits(op, reply) ==> FsSettle(op, AnswerOf(Obj(FsPayload(reply)))) == Ok(ReplyValue(reply))
    ensures reply.ErrorReply? && Truthy(reply.error) ==>
      FsSettle(op, AnswerOf(Obj(FsPayload(reply)))) == Err(Rejected(reply.error))
  {
    UnwrapAnswerOf(FsPayload(reply), ResultField(op));
  }

  /** The `l2l-modules.fs.exists` service: the shell test for a directory or file at the path exits with `testCode`. */
  function ExistsService(data: Data, testCode: int): (r: FsReply)
    ensures "path" in data ==> r == ExistsReply(testCode == 0)
    ensures "path" !in data ==> r == ErrorReply(ErrorObject(MissingPropertyMessage(Selector(Exists), "path")))
  {
    match Expected(["path"], Selector(Exists), data)
    case Err(message) => ErrorReply(ErrorObject(message))
    case Ok(_) => ExistsReply(testCode == 0)
  }

  /** The `l2l-modules.fs.mkdir` service: `mkdir -p path` reports `shellError`. */
  function MkdirService(data: Data, shellError: Value): (r: FsReply)
    ensures "path" in data ==> r == if Truthy(shellError) then ErrorReply(shellError) else StatusReply("created")
    ensures "path" !in data ==> r == ErrorReply(ErrorObject(MissingPropertyMessage(Selector(Mkdir), "path")))
  {
    match Expected(["path"], Selector(Mkdir), data)
    case Err(message) => ErrorReply(ErrorObject(message))
    case Ok(_) => if Truthy(shellError) then ErrorReply(shellError) else StatusReply("created")
  }

  /** The `l2l-modules.fs.rm` service: `lively.shell.rm(path)` reports `shellError`. */
  function RmService(data: Data, shellError: Value): (r: FsReply)
    ensures "path" in data ==> r == if Truthy(shellError) then ErrorReply(shellError) else StatusReply("removed")
    ensures "path" !in data ==> r == ErrorReply(ErrorObject(MissingPropertyMessage(Selector(Rm), "path")))
  {
    match Expected(["path"], Selector(Rm), data)
    case Err(message) => ErrorReply(ErrorObject(message))
    case Ok(_) => if Truthy(shellError) then ErrorReply(shellError) else StatusReply("removed")
  }

  /** The `l2l-modules.fs.read` service: `lively.shell.cat(path)` reports `shellError` or `content`. */
  function ReadService(data: Data, shellError: Value, content: string): (r: FsReply)
    ensures "path" in data ==> r == if Truthy(shellError) then ErrorReply(shellError) else ContentReply(content)
    ensures "path" !in data ==> r == ErrorReply(ErrorObject(MissingPropertyMessage(Selector(Read), "path")))
  {
    match Expected(["path"], Selector(Read), data)
    case Err(message) => ErrorReply(ErrorObject(message))
    case Ok(_) => if Truthy(shellError) then ErrorReply(shellError) else ContentReply(content)
  }

  /** `data.options` of a write request (undefined when absent). */
  function WriteOptions(data: Data): Value {
    if "options" in data then data["options"] else Undefined
  }

  /** Whether the write overwrites: the `overwrite` option, true unless the options override it. */
  predicate Overwrite(data: Data) {
    Truthy(Merge(map["overwrite" := Bool(true)], WriteOptions(data))["overwrite"])
  }

  /** Without an `overwrite` option a write overwrites. */
  lemma OverwriteByDefault(data: Data)
    requires "overwrite" !in OwnProps(WriteOptions(data))
    ensures Overwrite(data)
  {
  }

  /** One run of the write service: whether it ran `test -f`, whether it wrote, and its reply. */
  datatype WriteRun = WriteRun(checkedExistence: bool, wrote: bool, reply: FsReply)

  /**
   * The `l2l-modules.fs.write` service (index.js:343-366): `test -f path`
   * exits with `testCode` (run only when not overwriting), and the write
   * exits with `writeCode` and prints `writeOutput`.
   */
  function WriteService(data: Data, testCode: int, writeCode: int, writeOutput: string): (w: WriteRun)
    ensures !("path" in data && "content" in data) ==>
      && !w.checkedExistence && !w.wrote
      && w.reply == ErrorReply(ErrorObject(MissingPropertyMessage(Selector(Write),
                                                                  if "path" !in data then "path" else "content")))
    ensures "path" in data && "content" in data ==>
      && (w.checkedExistence <==> !Overwrite(data))
      && (w.reply == StatusReply("not overwritten") <==> w.checkedExistence && testCode == 0)
      && (w.wrote <==> !(w.checkedExistence && testCode == 0))
      && (w.wrote ==> w.reply == if writeCode != 0 then ErrorReply(Str(writeOutput)) else StatusReply("created"))
  {
    var required := ["path", "content"];
    assert required[0] == "path" && required[1] == "content";
    match Expected(required, Selector(Write), data)
    case Err(message) => WriteRun(false, false, ErrorReply(ErrorObject(message)))
    case Ok(d) =>
      var overwrite := Overwrite(d);
      // `exists` (here `existed`) is undefined when the test is skipped
      var existed := if overwrite then Undefined else Bool(testCode == 0);
      if !overwrite && Truthy(existed) then WriteRun(true, false, StatusReply("not overwritten"))
      else if writeCode != 0 then WriteRun(!overwrite, true, ErrorReply(Str(writeOutput)))
      else WriteRun(!overwrite, true, StatusReply(if Truthy(existed) then "overwritten" else "created"))
  }

  /**
   * The status "overwritten" is never reported: when overwriting, the
   * existence test is skipped, and when not, an existing file is left alone.
   */
  lemma WriteNeverReportsOverwritten(data: Data, testCode: int, writeCode: int, writeOutput: string)
    ensures WriteService(data, testCode, writeCode, writeOutput).reply != StatusReply("overwritten")
  {
  }

  /**
   * A write request without content never reaches the shell, and
   * fsRequest rejects with expectData's Error naming `content`.
   */
  lemma WriteWithoutContentRejects(path: string, testCode: int, writeCode: int, writeOutput: string)
    ensures var w := WriteService(map["path" := Str(path)], testCode, writeCode, writeOutput);
      && !w.checkedExistence && !w.wrote
      && FsSettle(Write, AnswerOf(Obj(FsPayload(w.reply)))) ==
           Err(Rejected(ErrorObject(MissingPropertyMessage(Selector(Write), "content"))))
  {
    var w := WriteService(map["path" := Str(path)], testCode, writeCode, writeOutput);
    FsRoundTrip(Write, w.reply);
  }

  /** With `overwrite: false` an existing file is left alone and reported "not overwritten". */
  lemma NoOverwriteKeepsExisting(data: Data, writeCode: int, writeOutput: string)
    requires "path" in data && "content" in data
    requires "options" in data && data["options"] == Obj(map["overwrite" := Bool(false)])
    ensures var w := WriteService(data, 0, writeCode, writeOutput);
      w.checkedExistence && !w.wrote && w.reply == StatusReply("not overwritten")
  {
    assert !Overwrite(data);
  }

  /** fsRequest with the method "write", in any ASCII case, sends the write message for the URL's path. */
  lemma WriteRequest(localSession: string, url: string, methodName: string, options: Value)
    requires ParseURL(url).Ok? && ToLower(methodName) == OpName(Write)
    ensures FsRequest(localSession, url, methodName, options) ==
      Ok((FsMessage(localSession, ParseURL(url).value.path, Write, options), Write))
  {
    ParseMethodOfName(Write, methodName);
  }

  /** A write request with content and no options writes without testing for the file. */
  lemma DefaultWrite(data: Data, testCode: int, writeCode: int, writeOutput: string)
    requires "path" in data && "content" in data && "options" !in data
    ensures var w := WriteService(data, testCode, writeCode, writeOutput);
      && !w.checkedExistence && w.wrote
      && w.reply == if writeCode != 0 then ErrorReply(Str(writeOutput)) else StatusReply("created")
  {
    OverwriteByDefault(data);
  }

  /** How fsRequest settles on the two replies of a write that ran. */
  lemma SettleWrite(writeCode: int, writeOutput: string)
    ensures var reply := if writeCode != 0 then ErrorReply(Str(writeOutput)) else StatusReply("created");
      && (writeCode == 0 ==> FsSettle(Write, AnswerOf(Obj(FsPayload(reply)))) == Ok(Str("created")))
      && (writeCode != 0 && writeOutput != "" ==>
            FsSettle(Write, AnswerOf(Obj(FsPayload(reply)))) == Err(Rejected(Str(writeOutput))))
  {
    FsRoundTrip(Write, if writeCode != 0 then ErrorReply(Str(writeOutput)) else StatusReply("created"));
  }

  /**
   * A write message with content and no `options` property, through the
   * service and back: the service writes without testing for the file,
   * and fsRequest settles with "created", or rejects with the write's
   * output when the write fails.
   */
  lemma WriteRoundTrip(localSession: string, path: string, options: map<string, Value>,
                       testCode: int, writeCode: int, writeOutput: string)
    requires "content" in options && "options" !in options
    ensures var message := FsMessage(localSession, path, Write, Obj(options));
      var w := WriteService(message.data.fields, testCode, writeCode, writeOutput);
      && message.target == localSession
      && message.action == "l2l-modules.fs.write"
      && !w.checkedExistence && w.wrote
      && (writeCode == 0 ==> FsSettle(Write, AnswerOf(Obj(FsPayload(w.reply)))) == Ok(Str("created")))
      && (writeCode != 0 && writeOutput != "" ==>
            FsSettle(Write, AnswerOf(Obj(FsPayload(w.reply)))) == Err(Rejected(Str(writeOutput))))
  {
    var data := FsMessage(localSession, path, Write, Obj(options)).data.fields;
    assert "path" in data && "content" in data && "options" !in data;
    DefaultWrite(data, testCode, writeCode, writeOutput);
    SettleWrite(writeCode, writeOutput);
  }
}
