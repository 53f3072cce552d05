# login-demo: webview message dispatch and project-root resolution in Dafny

This project models the two pieces of logic in the `login-demo` VS Code
extension that sit behind host calls:

- **Project-root resolution** (`util.getProjectPath`, `extension/views/util.ts`).
  It decides which workspace folder holds a file. A single workspace folder
  equal to `rootPath` is expanded into its directory entries, leaving out
  those whose name starts with `.`. The candidates are then scanned in
  order, and the last one the file path starts with wins. When there is no
  document, or no candidate matches, the result is `''` and one error
  notification is shown. The first-letter helpers `upperFirstLetter` and
  `lowerFirstLetter` live in the same file and are modelled too.
- **Webview message dispatch** (`extension/views/helper.ts`). This covers the
  reply helper `invokeCallback`, the five-entry `messageHandler` table
  (`getConfig`, `setConfig`, `hello`, `hello2`, `hello3`) and the body of the
  `onDidReceiveMessage` callback.

The files:

- `host.dfy` (module `Host`) holds JavaScript values as they cross the channel:
  truthiness, `typeof`, property access on `null`/`undefined`, and the
  loose `>=`/`<` on numbers. It also holds the notices that `showError` and
  `showInfo` raise.
- `util.dfy` (module `Util`) holds `getProjectPath` and its parts. `LastMatch`
  is the specification of the scan. It looks from the end for the last
  candidate that `indexOf(...) === 0` accepts. `ScanFolders` is the source's
  forward `forEach` loop, proved equal to it. `GetProjectPath` is the whole
  operation. Host inputs are parameters: the document's path, the active
  editor's path, the workspace folders, `rootPath` and the directory listing.
  The notices it shows are returned.
- `helper.dfy` (module `WebviewHelper`) holds the dispatch. Everything the
  extension makes visible in answer to a message is one ordered trace of
  effects: a message posted to the webview, or a notification shown. The
  outbox and the notification list are projections of that trace (`Posts`,
  `Shown`), so "the error notification comes before the reply" can be
  stated. The configuration section `login-demo` is a map. Pure step
  functions (`CallbackStep`, `HandlerStep`, `DispatchStep`) say what one call
  does. The class `WebviewHost` holds the trace and the configuration, and
  its methods (one per handler, plus `InvokeCallback` and
  `OnDidReceiveMessage`) are proved to perform exactly those steps.
  `OnDidReceiveMessage` also keeps an invariant over a ghost log of the
  received messages: no callback id is replied to more often than a
  `getConfig` message carried it.

Modelling choices that follow the code:

- `typeof null == 'object'`, so `invokeCallback` with a `null` result
  throws a TypeError at `resp.code`. Nothing is shown or posted. A
  `getConfig` whose stored value is `null` therefore ends with the outcome
  `Thrown` and no reply.
- The prefix test is `indexOf(folder) === 0`, a raw string prefix. Folder
  `/w/app` is therefore the root of `/w/app2/x.ts`. An empty candidate
  matches every file, but a later candidate that matches overwrites it.
  Only when no later candidate matches is the empty string the result, and
  then it is rejected as falsy: `''` and one error notification.
- `setConfig` posts nothing, even when the message carries a `cbid`.
  `hello2` and `hello3` delegate to `hello`, so the push they post carries
  their own type.
- `invokeCallback` posts its reply whether or not `cbid` is present.

## Model

| member | source | states |
|---|---|---|
| `Host.Truthy` | extension/views/helper.ts:14 | `undefined` and `null` are never truthy; arrays and objects always are |
| `Host.Typeof` | extension/views/helper.ts:14 | `typeof` is "object" exactly for `null`, arrays and objects, and "undefined" exactly for `undefined` |
| `Host.GetProperty` | extension/views/helper.ts:14-15 | for the two field names read there, `code` and `message`, reading the property throws exactly on `null` or `undefined`, and a defined result is an own field of an object |
| `Host.AtLeast` | extension/views/helper.ts:14 | for number operands, `resp.code >= 400` is the number comparison, and a number that passes it is truthy; any other operand compares false here |
| `Host.Below` | extension/views/helper.ts:14 | for number operands, `resp.code < 600` holds exactly when `>= 600` does not; any other operand compares false here under both comparisons |
| `Util.IndexOf` | extension/views/util.ts:30 | `currentFile.indexOf(folder)` is -1 exactly when `folder` occurs nowhere in the path, and otherwise the first position at which it occurs |
| `Util.IndexOfFrom` | extension/views/util.ts:30 | `indexOf` from a position returns -1 when there is no occurrence; otherwise it returns the first position at which the string occurs |
| `Util.IndexOfZeroIsPrefix` | extension/views/util.ts:30 | `currentFile.indexOf(folder) === 0` holds exactly when `folder` is a raw prefix of `currentFile` |
| `Util.IsHidden` | extension/views/util.ts:27 | `/^\./` matches exactly the names that start with `.` |
| `Util.Resolve` | extension/views/util.ts:27 | the joined path starts with the root and a separator, and ends with the entry name |
| `Util.VisibleEntries` | extension/views/util.ts:26-27 | the expansion has at most as many candidates as the listing has entries, and every candidate lies under the root |
| `Util.VisibleEntriesMembers` | extension/views/util.ts:27 | a path is an expanded candidate exactly when it is the root joined to an entry of the listing that does not start with `.`; plain files are kept |
| `Util.VisibleEntriesAppend` | extension/views/util.ts:27 | the expansion keeps listing order: it distributes over concatenation of listings |
| `Util.Candidates` | extension/views/util.ts:23-28 | no workspace folders gives no candidates; every candidate is a workspace folder, or, when there is exactly one folder, a path under it |
| `Util.CandidatesExpansion` | extension/views/util.ts:23-28 | with exactly one folder equal to `rootPath`, the candidates are exactly the visible entries joined to it; otherwise the folder list (empty when none is configured) is used unchanged |
| `Util.LastMatch` | extension/views/util.ts:29-33 | what the scan settles on is one of the candidates and a prefix of the file path |
| `Util.LastMatchNone` | extension/views/util.ts:29-34 | the scan finds nothing exactly when no candidate is a prefix of the file path |
| `Util.LastMatchIsLastPrefix` | extension/views/util.ts:29-33 | what the scan finds is a candidate that is a prefix of the file path, and no later candidate is one: the last match wins |
| `Util.ScanFolders` | extension/views/util.ts:29-33 | the forward `forEach` that overwrites `projectPath` on each match ends with the last match |
| `Util.GetProjectPath` | extension/views/util.ts:12-39 | no document and no active editor gives `''` and exactly one "no editor" error; otherwise the result is the last matching candidate; no match, or an empty match, gives `''` and exactly one "no project root" error; a non-empty result is a candidate and a prefix of the file; `''` comes with exactly one notice and any other result with none |
| `Util.RawPrefixMatchesSibling` | extension/views/util.ts:30 | folder `/w/app` matches file `/w/app2/x.ts`: no path-component check |
| `Util.SingleRootResolvesVisibleChild` | extension/views/util.ts:23-33 | a single ambiguous root `/r` with entries `.git` and `proj` resolves `/r/proj/src/a.ts` to `/r/proj` |
| `Util.IsWordChar` | extension/views/util.ts:52-59 | the `\w` of `/^\w/` accepts only ASCII characters, and every ASCII letter |
| `Util.WordCharClass` | extension/views/util.ts:52-59 | the `\w` of `/^\w/` matches exactly the members of `[A-Za-z0-9_]`, so it decides which first characters are converted |
| `Util.AsciiToUpper` | extension/views/util.ts:52 | `toUpperCase` on a `\w` character: an ASCII lowercase letter becomes the uppercase letter 32 code points below, anything else is unchanged |
| `Util.AsciiToLower` | extension/views/util.ts:59 | `toLowerCase` on a `\w` character: an ASCII uppercase letter becomes the lowercase letter 32 code points above, anything else is unchanged |
| `Util.ReplaceLeadingWordChar` | extension/views/util.ts:52 | `replace(/^\w/, f)` keeps the length and every character after the first, and converts the first character only when it is a word character |
| `Util.OrEmpty` | extension/views/util.ts:52 | `word \|\| ''` is the word when there is one, and a non-empty result is the word |
| `Util.UpperFirstLetter` | extension/views/util.ts:51-53 | null gives `''`; the length is kept; every character from index 1 is unchanged; the first character becomes upper case exactly when it is an ASCII lowercase letter and is otherwise untouched |
| `Util.LowerFirstLetter` | extension/views/util.ts:58-60 | the same, from ASCII uppercase to lowercase |
| `Util.UpperFirstLetterIdempotent` | extension/views/util.ts:51-53 | applying `upperFirstLetter` twice is the same as once |
| `Util.LowerFirstLetterIdempotent` | extension/views/util.ts:58-60 | applying `lowerFirstLetter` twice is the same as once |
| `Util.LowerUndoesUpper` | extension/views/util.ts:51-60 | for a word starting with an ASCII lowercase letter, lowering after raising gives the word back |
| `Util.UpperUndoesLower` | extension/views/util.ts:51-60 | for a word starting with an ASCII uppercase letter, raising after lowering gives the word back |
| `WebviewHelper.ReadConfig` | extension/views/helper.ts:25 | `get(key)` gives `undefined` for a key that is not set, and a defined value is the one stored under the key |
| `WebviewHelper.HasErrorCode` | extension/views/helper.ts:14 | an error result has `typeof` "object", and reading its `code` does not throw and gives a truthy value |
| `WebviewHelper.ClassifyResult` | extension/views/helper.ts:14 | the error test throws exactly on `null`; otherwise it holds exactly for an object whose `code` is a number in [400, 600) |
| `WebviewHelper.ErrorCodeBoundaries` | extension/views/helper.ts:14 | codes 400 and 599 are error results, 399 and 600 are not |
| `WebviewHelper.ErrorText` | extension/views/helper.ts:15 | the error notice's text is truthy: `resp.message` when truthy, else the generic unknown-error text |
| `WebviewHelper.CallbackStep` | extension/views/helper.ts:11-18 | `null` throws and has no effect; otherwise exactly one reply `{cmd:'vscodeCallback', cbid, data}` is posted, with `data` the result unmodified, as the last effect; an error notice is shown exactly when the result is an error result; the configuration is unchanged |
| `WebviewHelper.Lookup` | extension/views/helper.ts:69 | a handler is found exactly for the five keys of the table, and the handler found has the looked-up key as its name |
| `WebviewHelper.HandlerStep` | extension/views/helper.ts:23-45 | only `setConfig` changes the configuration, writing `value` under `key`; only `getConfig` can throw, and then it has no effect; no entry but `getConfig` posts a reply, and none but it can throw |
| `WebviewHelper.HelloStep` | extension/views/helper.ts:35-38 | `hello` shows exactly one info notice, `message.data`, posts exactly one push `{type, data: now}` and no reply, and leaves the configuration alone |
| `WebviewHelper.DispatchStep` | extension/views/helper.ts:56-74 | a dispatch that throws has no effect and changes no configuration; an unknown type posts nothing and changes no configuration |
| `WebviewHelper.UnknownHandlerMessage` | extension/views/helper.ts:72 | the error text starts with "未找到名为 " and is as long as that prefix, the type and " 回调方法!" together |
| `WebviewHelper.HandlerName` | extension/views/helper.ts:23-45 | every handler's key is one of the five keys of `messageHandler`, and it starts with "hello" exactly for `hello`, `hello2` and `hello3` |
| `WebviewHelper.LookupInvertsName` | extension/views/helper.ts:23-45 | every handler is found under its own key and under no other |
| `WebviewHelper.DispatchPosts` | extension/views/helper.ts:23-73 | one message posts: for `getConfig`, one reply with the message's `cbid` and the stored value, unless that value is `null`; for `hello`, `hello2` and `hello3`, one push of the message's own type and the time, with no `cbid`; for `setConfig` or an unknown type, nothing |
| `WebviewHelper.DispatchNotices` | extension/views/helper.ts:23-73 | one message shows: for `getConfig`, an error notice exactly when the stored value is an error result; for `setConfig`, one info notice "修改配置成功！"; for the `hello` family, one info notice with `message.data`; for an unknown type, one error notice naming the type |
| `WebviewHelper.DispatchConfig` | extension/views/helper.ts:24-73 | only `setConfig` changes the configuration, writing `value` under `key`; dispatch throws exactly for `getConfig` on a stored `null`, and then has no effect |
| `WebviewHelper.UnknownMessageNamesType` | extension/views/helper.ts:72 | the error shown for an unknown type contains that type |
| `WebviewHelper.DispatchReplyIds` | extension/views/helper.ts:11-73 | one message yields exactly one reply, carrying its `cbid`, when it is a `getConfig` that does not throw, and no reply otherwise, whatever `cbid` it carries |
| `WebviewHelper.SetThenGet` | extension/views/helper.ts:24-31 | after `setConfig` writes a non-null value, `getConfig` on the same key replies with exactly that value |
| `WebviewHelper.NoRepliesKeepRequested` | extension/views/helper.ts:28-38 | appending effects that post no reply keeps every reply requested |
| `WebviewHelper.DispatchKeepsRepliesRequested` | extension/views/helper.ts:55-74 | dispatching a message keeps every callback id replied to at most as often as `getConfig` messages carried it |
| `WebviewHelper.WebviewHost.InvokeCallback` | extension/views/helper.ts:11-18 | a step inside a handler run: the trace grows by exactly the callback step's effects; configuration unchanged |
| `WebviewHelper.WebviewHost.GetConfig` | extension/views/helper.ts:24-27 | a step inside a dispatch: reads the configuration under `key` and replies through `invokeCallback` |
| `WebviewHelper.WebviewHost.SetConfig` | extension/views/helper.ts:28-34 | writes `value` under `key`, shows one info notice, and posts nothing; the reply invariant is kept |
| `WebviewHelper.WebviewHost.Hello` | extension/views/helper.ts:35-38 | shows `data` as info, then posts `{type, data: now}`; the reply invariant is kept |
| `WebviewHelper.WebviewHost.Hello2` | extension/views/helper.ts:39-41 | does exactly what `hello` does with the same message; the reply invariant is kept |
| `WebviewHelper.WebviewHost.Hello3` | extension/views/helper.ts:42-44 | does exactly what `hello` does with the same message; the reply invariant is kept |
| `WebviewHelper.WebviewHost.RunHandler` | extension/views/helper.ts:70 | a step inside a dispatch: running a table entry performs exactly that entry's step, and keeps the reply invariant for every entry but `getConfig`, whose reply the dispatch accounts for |
| `WebviewHelper.WebviewHost.OnDidReceiveMessage` | extension/views/helper.ts:56-74 | a known type runs exactly its handler once; an unknown type adds one error notice and posts nothing; the outbox and the notifications grow by exactly that step's posts and notices; the reply invariant is kept |

## Left out

- `setupHtml` and `__getWebviewHtml__`: these are a build-injected global and an environment variable, with no logic.
- The `onDidReceiveMessage` subscription and the `disposables` wiring: event plumbing. Only the callback body is modelled.
- `console.log`, `util.log` and `util.error`: console output only.
- `showError` and `showInfo` are modelled as appends to the notifications. The host's rendering of them is not modelled.
- The directory read, the workspace folders, `rootPath`, the active editor and `Date.now()` are parameters. `readdirSync` failing on a missing root is not modelled.
- `path.resolve(root, name)` is modelled as `root + "/" + name`. Normalisation of `.`, `..` and trailing separators is not modelled.
- A document whose path is empty or missing is not modelled. The model assumes that a present document or editor has a path.
- The configuration store is one map for the `login-demo` section. `update` writes it at once, although the source does not await it. Workspace-scope overrides, defaults and persistence are not modelled.
- `findStrInFile` and `getStrRangeInFile`: they read a file and build a regular expression from an arbitrary string, so their behaviour depends on the regex engine.
- `openUrlInBrowser`, `getProjectName` and `jsonEquals`: thin wrappers over a shell, `path.basename` and `JSON.stringify`.
- `dynamicRequire` and `clearRequireCache`: they mutate Node's module cache, which is foreign runtime state.
- WebviewHelper.Lookup: only the table's five own keys are handlers. In the source, inherited keys such as `toString` also resolve to functions.
- Host.AtLeast: only number operands are compared. JavaScript's `>=` coerces a numeric string such as `"450"`, or an array like `[450]`, to a number, so `"450" >= 400` is true in the source and false here.
- Host.Below: only number operands are compared. JavaScript's `<` coerces a numeric string such as `"450"`, or an array like `[450]`, to a number, so `"450" < 600` is true in the source and false here.
- WebviewHelper.ClassifyResult: a `code` that is not a number compares false. In the source, a numeric string such as `"450"` (or an array like `[450]`) is coerced by `>=` and `<`, and counts as an error.
- Host.Value: JavaScript numbers are modelled as reals, without NaN, infinities or -0.
- WebviewHelper.Message: `type` and `key` are modelled as strings. A message whose `type` or `key` is missing or not a string is not modelled.
- Concurrency: the source handles one message per callback call and has no correlation bookkeeping, so nothing more is modelled.
