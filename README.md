# l2l-modules in Dafny

l2l-modules lets a lively.modules module system load sources from other
sessions of a lively-2-lively (l2l) network. It also offers those sessions
file-system access and module notifications. Everything happens in
`index.js`, and this project models it:

- **Addresses.** Fetch addresses have the form `l2l://<session-id>/<path>`.
  Session ids may contain a colon. In a URL authority a colon separates the
  port, and `new URL` fails on a port that is not numeric, so `fixL2lURL`
  escapes the first colon as `__COLON__`. The fetch client
  un-escapes it before addressing a peer. `parseURL` splits an address.
  `_localToL2lAddress` turns a local module address into an l2l address of
  the own session. The regular expression `^l2l:\/\/([^\/]+)\/(.*)` is
  modelled exactly, including that `.` stops at line terminators.
- **Fetch routing and the fetch client.** The fetch hook sends l2l
  addresses to `doL2lFetch` and everything else to the default loader.
  It matches `load.address`, or `load.name` when the address is absent,
  or "" (which never matches) when both are.
  The client settles on the peer's answer: a truthy error on the answer,
  or else on its payload, rejects.
- **The fetch service.** While resolving a source for a peer, it hides
  the l2l entries of `System.packages` and `System.map` and restores them
  afterwards.
- **The subscriber registry.** This is the `addSubscriber` and
  `removeSubscriber` services, over one global dictionary. Membership is
  tested with `in`, which also finds names inherited from
  `Object.prototype`.
- **Remote notifications.** A filter drops events about l2l modules.
  `_makeSendable` stamps a shallow copy of an event and rewrites its
  addresses. `informRemoteSubscribers` sends that copy to every subscriber.
- **The fs bridge.** `fsRequest` builds a request and settles on its
  answer. The `l2l-modules.fs.*` services answer it, including the rule
  that decides the status of writes. `expectData` checks the required
  properties of every service message.

JavaScript values are a small `Value` datatype. It models truthiness,
property reads (a read on `undefined` or `null` is a `TypeError`),
`lively.lang.obj.merge` and `clone` explicitly. State that the source
updates in place is modelled with classes:

- the module system's two tables (`FetchService.ModuleSystem`),
- the subscriber dictionary (`Subscribers.Registry`),
- events and their options (`ModuleEvents.ModuleEvent`, `ModuleEvents.EventOptions`).

The source's loops are a `for` loop in `expectData` and a `forEach`
over the keys of each table in `prepareSystem`. They are modelled as
`while` loops, each proved against a specification function.
`FetchService.DeleteWhere`, used for both tables, deletes keys from a
copy of a table (a `map` value). `MessageData.ExpectData` checks the
required property names of `expectData`, a `seq`.

The model follows what the code does, including these behaviours:

- **`parseURL` escapes a second time.** At index.js:67 it applies the
  same first-colon replacement as `fixL2lURL` (index.js:56) to the id it
  extracts from the already normalised address. The only un-escaping in
  the file is in `doL2lFetch` (index.js:144). So the `sessionId` that
  `parseURL` returns is the escaped id (`L2lAddress.ParseURL`).
- **`path` is not URL-decoded.** `parseURL` returns the captured text as it is.
- **A write never reports "overwritten".** The status "overwritten" at
  index.js:361 needs a truthy `exists`. The existence test that yields
  it runs only when not overwriting (index.js:349-353). In that case a
  truthy `exists` has already taken the "not overwritten" branch at
  index.js:357 (`FsBridge.WriteNeverReportsOverwritten`).
- **Escaping is not always undone.** Un-escaping restores a session id
  when the part before its first colon contains no `__COLON`
  (`L2lAddress.UnescapeEscapeSession`). Colons after the first one do not
  matter, so `a:b:c` comes back. This condition is sufficient, not
  necessary: `__COLONx:b` comes back too. The id `__COLON:b` has one colon
  and no `__COLON__`, yet it comes back as `:COLON__b`
  (`L2lAddress.EmbeddedTokenExample`).
- **A second normalisation can change the address.** `fixL2lURL` returns
  its own result unchanged when the id has at most one colon
  (`L2lAddress.FixL2lURLIdempotent`). With two colons, a second
  normalisation escapes the second one
  (`L2lAddress.FixL2lURLNotIdempotentForTwoColons`).

## Model

| member | source | states |
|---|---|---|
| L2lAddress.MatchL2l | index.js:54 | a match yields captures that satisfy the regular expression: scheme, then a non-empty slash-free session id, a slash, and a path up to the first line terminator |
| L2lAddress.MatchL2lComplete | index.js:54 | whenever the regular expression matches with some captures, the match returns exactly those (the captures are unique) |
| L2lAddress.MatchL2lNone | index.js:54 | when there is no match, no captures satisfy the regular expression |
| L2lAddress.EscapeSessionSplit | index.js:56 | only the first colon is replaced by `__COLON__`, and exactly one colon disappears |
| L2lAddress.EscapeSessionColonFree | index.js:56 | a colon-free session id is not changed by escaping |
| L2lAddress.EscapeSessionShape | index.js:56 | escaping keeps the id non-empty and slash-free, and leaves no colon when there was at most one |
| L2lAddress.FixL2lURL | index.js:52-59 | a non-matching address is returned as it is; a matching one becomes an address that matches with the escaped session id and the same path |
| L2lAddress.FixL2lURLOfMatching | index.js:52-59 | a matching address is rebuilt as `l2l://` + escaped id + `/` + captured path, so any text after a line terminator is dropped |
| L2lAddress.FixL2lURLOfBuilt | index.js:52-59 | an address built from a slash-free id and a terminator-free path normalises to the same address with the id escaped |
| L2lAddress.MatchOfBuilt | index.js:54 | an address built from a slash-free id and a terminator-free path matches with exactly that id and path |
| Strings.ReplaceFirst | index.js:56 | a string without the pattern is unchanged; otherwise the first occurrence of the pattern, and only it, is replaced |
| L2lAddress.EscapeSession | index.js:56 | a colon-free id is unchanged; otherwise the first colon becomes `__COLON__` and everything around it is kept |
| L2lAddress.UnescapeSession | index.js:144 | an id without `__COLON__` is unchanged; otherwise its first `__COLON__` becomes a colon and everything around it is kept |
| L2lAddress.FixL2lURLIdempotent | index.js:52-59 | normalising twice equals normalising once when the session id has at most one colon |
| L2lAddress.FixL2lURLNotIdempotentForTwoColons | index.js:56 | for any id with two or more colons (including one that starts with a colon), a second normalisation escapes the second colon, so the address changes |
| L2lAddress.UnescapeEscapeSession | index.js:144 | un-escaping (first `__COLON__` back to a colon) undoes escaping when the part before the first colon has no `__COLON` |
| L2lAddress.UnescapeEscapeColonFree | index.js:144 | a colon-free id without `__COLON__` survives escaping and un-escaping |
| L2lAddress.UnescapeMisreadsEmbeddedToken | index.js:144 | an id starting with `__COLON:` comes back as `:COLON__` + rest, not as itself |
| L2lAddress.EmbeddedTokenExample | index.js:144 | `__COLON:b` has one colon and no `__COLON__`, yet it is un-escaped to `:COLON__b` |
| L2lAddress.ParseURL | index.js:61-74 | fails with a TypeError exactly when the address has no l2l match; otherwise gives the normalised URL and the path captured from the original |
| L2lAddress.ParseURLOfMatching | index.js:61-74 | for an id with at most one colon, the parsed session id is the escaped id (escaped again, not un-escaped) and the path is the capture |
| L2lAddress.LocalToL2lAddress | index.js:96-100 | an address outside the base URL is returned as it is; one inside becomes an address of the own session |
| L2lAddress.StripLeadingSlash | index.js:98 | the relative path loses one leading slash, if it has one, and is otherwise kept |
| L2lAddress.LocalToL2lOfBased | index.js:96-100 | base + rest becomes `l2l://` + own session + `/` + rest without one leading slash |
| L2lAddress.LocalToL2lRoutesBack | index.js:96-100 | a rewritten address matches with the own session id and the relative path, so a peer's fetch routes back to this session |
| Answers.AnswerError | index.js:155 | a read of `error` on a missing answer is a TypeError; a truthy answer error is the error; otherwise the payload's `error` is read, which is a TypeError when `data` is missing; the result is falsy exactly when both reads succeed and both values are falsy |
| Answers.AnswerOfHasNoError | index.js:155 | an answer whose payload has no `error` reports none |
| Answers.AnswerOfCarriesError | index.js:155 | an answer whose payload has a truthy `error` reports that error |
| Answers.Unwrap | index.js:154-158 | a failed read fails the same way; a truthy error rejects with that error; a falsy one resolves with the requested payload property |
| Answers.UnwrapAnswerOf | index.js:154-158 | for a responder's payload: a truthy `error` rejects the requester with it; otherwise the requester gets the payload's property, or undefined |
| RemoteFetch.LoadAddress | index.js:178 | the address the hook matches: the load's address if truthy, else its name if truthy, else "" |
| RemoteFetch.FetchRequest | index.js:144-153 | the fetch request goes to the session id with its first `__COLON__` un-escaped, as `l2l-modules.fetch`, with data `{url, path}` |
| RemoteFetch.FetchAnswer | index.js:154-158 | the fetch settles on the answer as `Unwrap` does, with the payload's `source` as the result |
| RemoteFetch.RouteFetch | index.js:177-181 | a load goes remote exactly when the address (or else the name, or else "") matches, with its captures; otherwise nothing matches and the default loader proceeds |
| RemoteFetch.DoL2lFetch | index.js:143-163 | the request goes to the un-escaped session id as `l2l-modules.fetch` with the URL and path; the fetch fails on a failed read, rejects with a truthy error, and otherwise resolves with the payload's `source` |
| RemoteFetch.L2lFetchHook | index.js:177-181 | the hook fetches remotely exactly when the load's address matches; the request then carries the un-escaped captured id, the address and the captured path, and settles on the answer |
| RemoteFetch.NormalizedFetchReachesOwner | index.js:176-181 | an address whose session id has a colon and no `__COLON` before its first colon, normalised and then fetched, sends `l2l-modules.fetch` with the URL and path to the original session id |
| RemoteFetch.NormalizedFetchReachesColonFreeOwner | index.js:176-181 | a session id with no colon and no `__COLON__` reaches its owner by the same route (an id containing `__COLON__` is un-escaped and does not) |
| RemoteFetch.NonL2lLoadProceeds | index.js:180 | a load whose address is not of the l2l scheme goes to the default loader |
| Subscribers.Subscribe | index.js:296-302 | afterwards the sender is an own key (for `__proto__`, nothing changes) and no other key changes; the status is "already subscribed" exactly when `in` found the sender, as an own key or an inherited name |
| Subscribers.Unsubscribe | index.js:304-310 | afterwards the sender is no own key and no other key changes; a sender that is no own key changes nothing; the status is "unsubscribed" exactly when `in` found the sender |
| Subscribers.Registered | index.js:299 | the `in` test: the sender is an own key of the dictionary or a name inherited from `Object.prototype` |
| Subscribers.Registry.constructor | index.js:91-94 | the dictionary starts empty |
| Subscribers.Registry.AddSubscriber | index.js:296-302 | the registry and status move as `Subscribe` says |
| Subscribers.Registry.RemoveSubscriber | index.js:304-310 | the registry and status move as `Unsubscribe` says |
| Subscribers.Registry.SessionIds | index.js:120 | the sessions an event is relayed to are the dictionary's own keys |
| Subscribers.SubscribeTwice | index.js:299-301 | subscribing twice answers "subscribed", then "already subscribed", and registers once |
| Subscribers.SubscribeThenUnsubscribe | index.js:296-310 | unsubscribing a newly subscribed sender restores the registry |
| Subscribers.UnsubscribeTwice | index.js:304-310 | for a name not inherited from `Object.prototype`, a second unsubscribe answers "not subscribed" and changes nothing |
| Subscribers.InheritedNameIsAlwaysFound | index.js:296-310 | an inherited name such as `toString` is "already subscribed" to an empty registry, and "unsubscribed" from it without any change |
| ModuleEvents.Decide | index.js:82-88 | an event throws exactly when it has no subject; it is skipped exactly when its subject starts with `l2l:` |
| ModuleEvents.RewrittenAddressIsRemote | index.js:86 | a rewritten local address starts with `l2l:`, so the filter recognises it |
| ModuleEvents.Subject | index.js:83-84 | a truthy target module of existing options takes precedence; otherwise the event's module |
| ModuleEvents.RewriteProperty | index.js:113-114 | only a non-empty address is rewritten; a local one then becomes an address of the own session |
| ModuleEvents.EventOptions.Clone | index.js:110 | the clone has the same target module and other properties |
| ModuleEvents.ModuleEvent.Clone | index.js:103 | the clone has the same properties and shares the original's options object |
| ModuleEvents.SendableOptions | index.js:109-112 | options with a truthy target module are replaced by a fresh clone with the target rewritten; other options stay shared; the original is not changed |
| ModuleEvents.MakeSendable | index.js:102-117 | the copy is fresh and marked remote with the own session; `doitresult` results are inspected; the module and a truthy target are rewritten (in fresh options); everything else is carried over; the original event and its options are unchanged |
| ModuleEvents.SendableSubjectIsRewritten | index.js:82-117 | the copy's subject is the rewritten subject of the original, so a copy about a local module is skipped by the filter when it comes back |
| ModuleEvents.SendableModuleAddress | index.js:96-117 | an event about base + rest goes out about `l2l://` + own session + `/` + rest without one leading slash |
| ModuleEvents.InformRemoteSubscribers | index.js:119-127 | the recipients are exactly the registered sessions, the action is `l2l-modules.onModuleEvent`, and every one gets the same fresh copy with everything `MakeSendable` promises about it |
| ModuleEvents.OnLocalModuleEvent | index.js:82-88 | an event is relayed exactly when the filter says so and skipped exactly when its subject is remote; a relayed event goes to all registered sessions under `l2l-modules.onModuleEvent` as the copy `MakeSendable` describes |
| MessageData.FirstMissing | index.js:243-247 | gives the first position whose field is not an own property of the data, or none when all are present |
| MessageData.MissingPropertyMessage | index.js:246 | the rejection message names the action and the missing property |
| MessageData.Expected | index.js:241-250 | resolves with the data exactly when every field is present; otherwise rejects with the message naming the first missing field and the action |
| MessageData.ExpectData | index.js:241-250 | the loop settles as `Expected` says |
| MessageData.FirstMissingAt | index.js:243-247 | when the fields before `i` are present and field `i` is not, `i` is the first missing field |
| FetchService.Without | index.js:276-281 | keeps exactly the entries not selected, with their values |
| FetchService.DeleteWhere | index.js:276-281 | the clone-and-delete loop over the keys leaves exactly `Without` |
| FetchService.WithoutIdempotent | index.js:278-281 | deleting the same entries again deletes nothing |
| FetchService.L2lPackage | index.js:278-279 | a package is hidden exactly when its name starts with `l2l://`, whatever its entry |
| FetchService.L2lTarget | index.js:280-281 | a map entry is hidden exactly when its target is a string starting with `l2l://` |
| FetchService.ModuleSystem.constructor | index.js:274-275 | the system holds the given package table and module map |
| FetchService.ModuleSystem.PrepareSystem | index.js:269-284 | returns the original tables, and installs copies without l2l package names and l2l map targets |
| FetchService.ModuleSystem.ResetSystem | index.js:286 | reinstalls the saved tables |
| FetchService.PreparedTablesHaveNoL2lEntries | index.js:269-284 | while the service runs, no package name and no map target is an l2l address |
| FetchService.FetchReplyFor | index.js:262-265 | a request without `path` is answered with the string form of expectData's Error; otherwise with the source resolved for the path and parent, or the rejection text |
| FetchService.HandleFetch | index.js:255-287 | the reply is computed under the l2l-free tables; both tables are restored on success and on failure |
| FetchService.FetchRoundTrip | index.js:262-265 | the fetch client resolves with the source the service answered, and rejects with a non-empty error text |
| FetchService.FetchWithoutPathRejects | index.js:262-265 | a fetch without `path` rejects on the client with the non-empty string form of expectData's Error |
| FsBridge.ParseMethod | index.js:209-218 | a method name is recognised exactly when its lower-case form is one of the five names |
| FsBridge.ParseMethodOfName | index.js:209 | a method name is recognised in any ASCII case |
| FsBridge.Selector | index.js:210-214 | every method is sent as `l2l-modules.fs.` + its name |
| FsBridge.SelectorInjective | index.js:210-214 | distinct methods are sent as distinct actions |
| FsBridge.ResultField | index.js:225-230 | the payload property each method settles with: `exists` for exists, `content` for read, `status` for mkdir, rm and write |
| FsBridge.FsRequest | index.js:203-221 | an unparsable URL throws before the method is looked at; an unknown method rejects without sending; otherwise the request is the message for the URL's path and the selected method |
| FsBridge.FsMessage | index.js:206-220 | the message goes to the own session under the method's selector; its data has `path` and an undefined `cwd`, overridden by the options' own properties |
| FsBridge.FsSettle | index.js:222-234 | a failed read is a TypeError; a truthy error rejects with it; otherwise the payload's field for the method is the result |
| FsBridge.FsRoundTrip | index.js:222-234 | a success reply of the method's kind settles fsRequest with its value; a truthy error rejects it |
| FsBridge.ExistsService | index.js:312-321 | answers whether the test exited with 0, or the expectData error |
| FsBridge.MkdirService | index.js:323-331 | answers "created", the shell error, or the expectData error |
| FsBridge.RmService | index.js:333-341 | answers "removed", the shell error, or the expectData error |
| FsBridge.ReadService | index.js:368-376 | answers the content, the shell error, or the expectData error |
| FsBridge.OverwriteByDefault | index.js:346 | without an `overwrite` option a write overwrites |
| FsBridge.Overwrite | index.js:346-349 | a write overwrites when the `overwrite` option, defaulting to true, is truthy |
| FsBridge.WriteService | index.js:343-366 | a request missing `path` or `content` runs nothing and is answered with expectData's error naming the first missing one; otherwise the existence test runs exactly when not overwriting; "not overwritten" exactly when it found the file; otherwise the file is written, giving "created" or the write's output as error |
| FsBridge.WriteWithoutContentRejects | index.js:344-365 | a write without content runs no shell command, and fsRequest rejects with the Error naming `content` |
| FsBridge.WriteNeverReportsOverwritten | index.js:357-361 | no write reports "overwritten" |
| FsBridge.NoOverwriteKeepsExisting | index.js:349-357 | with `overwrite: false` and an existing file: tested, not written, "not overwritten" |
| FsBridge.WriteRequest | index.js:203-221 | fsRequest with "write" in any case sends the write message for the URL's path |
| FsBridge.DefaultWrite | index.js:346-361 | a write with content and no options writes without testing, giving "created" or the write's output |
| FsBridge.SettleWrite | index.js:222-230 | fsRequest settles with "created", or rejects with a non-empty write output |
| FsBridge.WriteRoundTrip | index.js:195-235 | a write message with content and no options, through the service and back, settles with "created" or rejects with the write's output |

## Left out

- Waiting for the session to come online, and the 3000 ms timeout (index.js:145-150, 196-201): these are clocks and callbacks. The model starts once the session is online.
- The transport (`sendTo`, `session.answer`, `addActions`): peers' answers are inputs of the model.
- Shell commands (`lively.shell.run`, `rm`, `cat`, `writeFile`): their exit codes, errors and output are parameters, so there is no model of an actual file system.
- Write-then-read consistency: it depends on the shell, so it is outside the model.
- `modules.sourceOf`: it is the parameter `sourceOf` of `HandleFetch`. The model assumes the system it consults is the system `S` the service prepared.
- FetchService.FetchReplyFor: the string form of expectData's Error (its `stack`, which holds a runtime-dependent trace) is the parameter `errorText`, also of FetchService.HandleFetch. The model does not fix its text. Only that it is not empty is used, as a hypothesis of FetchService.FetchWithoutPathRejects.
- L2lAddress.ParseURL: `new URL(url)` is not modelled. It can reject addresses the regular expression accepts. The realistic case is a session id with two colons. `fixL2lURL` escapes only the first, so the authority still holds a colon followed by a non-numeric port, and `new URL` throws where the model returns Ok. This is why `L2lAddress.ParseURLOfMatching` requires at most one colon. Characters a URL host forbids are another case. The protocol check guarded by `!realURL.protocol === "l2l:"` is always false, so it never throws.
- `lively.morphic.printInspect`: it is the parameter `inspect` of `MakeSendable`.
- Installing hooks (`installHook`, `isHookInstalled`), `initialize`, and the normalize hooks' plumbing (index.js:42-46, 165-187): only the functions the hooks apply are modelled.
- `recordModuleEvent`, the `l2l-modules.onModuleEvent` service, `subscribeRemote` and `unsubscribeRemote`: these are calls into lively.modules and the transport, which are not part of this model.
- The `show` logging of failed fetches.
- The concurrency race of index.js:260-261: another normalisation can run while the tables are swapped. The model runs the service atomically.
- The `msg.data.System` selection: the system is a parameter. The registry ignores it, as the source does.
- FsBridge.ParseMethod: `toLowerCase` is modelled for ASCII letters only.
- FetchService.L2lTarget: `Value` has no arrays (and no functions). An array target such as `["l2l://p/x"]` has a string form that starts with `l2l://`, so the source hides it, but the model cannot express it.
- Subscribers.Inherited: the inherited names are those of a standard `Object.prototype`. Names added to the prototype by other code are not modelled.
- JsValues.Merge: a non-object `options` contributes no properties.
- Numbers are integers, so NaN and fractions do not arise in truthiness.
