# Chat backend memory and tool registry, in Dafny

This project models the two stateful services of the chat backend:

- **MemoryService** is an in-memory, per-user conversation log. A JavaScript
  `Map` takes each user id to that user's list of saved interactions, oldest
  first. `saveInteraction` appends one entry `{id: Date.now(), ...interaction}`.
  `getConversationHistory` returns `history.slice(-limit)` (default limit 50).
  `searchMemory` keeps the entries whose lower-cased `JSON.stringify` form
  includes the lower-cased query and cuts the result with `slice(0, limit)`
  (default limit 10).
- **MCPServerManager** is the tool registry. An insertion-ordered `Map` takes
  a group key to a list of tool descriptors `{server, name, description,
  inputSchema}`. `initializeAllServers` installs two mock tools under `mock`.
  `getAvailableTools` flattens all groups, in order, with two nested loops.
  `callTool` dispatches on the tool name alone.

Both services are Dafny classes. Their fields are the JavaScript fields, and
the methods that change them carry `modifies` clauses. The JavaScript pieces
the services rely on are modelled in their own modules, each with its edge
cases:

- `wrappers.dfy`: `Option` and `Result`.
- `js_array.dfy`: `Array.prototype.slice`, including negative arguments and
  `-0 == 0`, and `filter`.
- `js_string.dfy`: `toLowerCase` (ASCII only), `includes`, and the decimal
  rendering of integers.
- `json.dfy`: JavaScript values and objects as ordered property lists, object
  spread, property reads, `String(v)`, and `JSON.stringify`.
- `js_map.dfy`: `Map` with its key insertion order.
- `memory_service.dfy` and `mcp_server_manager.dfy`: the two services.

`Date.now()` becomes a parameter `now` of `SaveInteraction`. The JavaScript
default arguments become Dafny default parameter values.

Search returns matches in history order, oldest first. `Map.set` overwrites
an existing tool group rather than refusing it.

## Model

| member | source | states |
|---|---|---|
| `MemoryService.MemoryService.constructor` | backend/src/services/MemoryService.js:2-5 | a new service has an empty conversation map |
| `MemoryService.MemoryService.SaveInteraction` | backend/src/services/MemoryService.js:7-18 | the user's list grows by exactly the stamped entry at the end and earlier entries are unchanged; a missing user gets a list of length 1; every other user's list is unchanged; the user id is appended to the key order only if it was new |
| `MemoryService.StampEntry` | backend/src/services/MemoryService.js:14-17 | the stored object always has `id` as its first property |
| `MemoryService.StampedEntryShape` | backend/src/services/MemoryService.js:14-17 | the stored entry is `id` followed by the interaction's other properties in order; its `id` is `now` unless the interaction has its own `id`, which wins |
| `MemoryService.MemoryService.GetConversationHistory` | backend/src/services/MemoryService.js:20-25 | an unknown user gets `[]`; a limit `n >= 1` gives the last `min(n, |h|)` entries in order; limit 0 gives the whole history; limit `-k` gives `h[min(k, |h|)..]` |
| `MemoryService.MemoryService.SearchMemory` | backend/src/services/MemoryService.js:27-34 | the result is a subsequence of the user's history; every returned entry matches the query; for a limit `n >= 0` it is the first `min(n, #matches)` matches, so at most `n`; for a limit `-k` it is all matches but the last `k` |
| `MemoryService.MatchingEntriesSound` | backend/src/services/MemoryService.js:30-32 | the matches are a subsequence of the history, in history order, and every one of them matches the query |
| `MemoryService.MatchingEntriesAppend` | backend/src/services/MemoryService.js:10-32 | after a save, the matches are the old matches plus the new entry exactly when the new entry matches |
| `MemoryService.EmptyQueryMatchesAll` | backend/src/services/MemoryService.js:31-32 | the empty query matches every entry, so it filters nothing out |
| `MemoryService.MatchesIgnoresQueryCase` | backend/src/services/MemoryService.js:32 | the match is case-insensitive in the query: a query and its lower-cased form match the same entries |
| `MemoryService.UnknownUserIsEmpty` | backend/src/services/MemoryService.js:23-31 | a user with no saved entries gets an empty history and empty search results for every limit |
| `MemoryService.SaveThenFetchLatest` | backend/src/services/MemoryService.js:7-25 | saving an interaction and then asking for a history window of 1 gives exactly the new, stamped entry |
| `MemoryService.Matches` | backend/src/services/MemoryService.js:32 | an entry matches exactly when the lower-cased query occurs at some position of the entry's lower-cased `JSON.stringify` text |
| `MemoryService.MatchingEntries` | backend/src/services/MemoryService.js:31-32 | the filter keeps exactly the history entries that match, and never more entries than the history has |
| `MemoryService.MemoryService.History` | backend/src/services/MemoryService.js:23 | the stored list of a known user (`get`), and the empty list for an unknown one (the `[]` fallback) |
| `McpServerManager.MCPServerManager.constructor` | backend/src/services/MCPServerManager.js:2-6 | a new manager has empty `servers`, `tools` and `resources` maps |
| `McpServerManager.MCPServerManager.InitializeAllServers` | backend/src/services/MCPServerManager.js:8-44 | `tools` becomes the old map with `mock` set to the two mock tools, and the method returns that same list; `servers` and `resources` are untouched |
| `McpServerManager.MockTools` | backend/src/services/MCPServerManager.js:14-38 | the mock list is `store_memory` of `memory`, then `search_web` of `web_search` |
| `McpServerManager.MCPServerManager.GetAvailableTools` | backend/src/services/MCPServerManager.js:63-76 | the result is the concatenation of every group's tools, groups in key insertion order, and its length is the sum of the group lengths; the call changes nothing |
| `McpServerManager.FlattenLength` | backend/src/services/MCPServerManager.js:63-76 | the flattened list has as many tools as all groups together |
| `McpServerManager.FlattenConcat` | backend/src/services/MCPServerManager.js:63-76 | flattening two runs of groups gives the two flattened lists one after the other |
| `McpServerManager.FlattenMembership` | backend/src/services/MCPServerManager.js:63-76 | a tool is listed exactly when some group holds it |
| `McpServerManager.ToolsAfterInitialize` | backend/src/services/MCPServerManager.js:40-76 | on an empty map, or one whose only group is `mock`, initialising leaves one group, and the listing is exactly the two mock tools |
| `McpServerManager.StartUp` | backend/src/services/MCPServerManager.js:2-76 | a new manager, once initialised, lists exactly the two mock tools, `(memory, store_memory)` then `(web_search, search_web)`; a second initialisation followed by a second listing gives the same list |
| `McpServerManager.MCPServerManager.CallTool` | backend/src/services/MCPServerManager.js:46-61 | it throws only for `search_web` with `null`/`undefined` arguments; it succeeds exactly for `store_memory` and `search_web`; `store_memory` echoes the arguments as `stored`; `search_web` answers one line built from `String(args.query)`; any other name gives the error `Tool not found`; being a function without a `reads` clause, it neither reads nor changes the manager |
| `McpServerManager.CallToolIgnoresServer` | backend/src/services/MCPServerManager.js:46-61 | the outcome never depends on the server name |
| `McpServerManager.CallToolSucceedsForMockTools` | backend/src/services/MCPServerManager.js:14-61 | with readable arguments, a call succeeds exactly when the name is one of the mock tools' names |
| `JsMap.OrderedMap.Has` | backend/src/services/MemoryService.js:10 | `Map.has` holds exactly for the keys in the insertion order |
| `JsMap.OrderedMap.Set` | backend/src/services/MCPServerManager.js:40 | `Map.set`: the key then reads the new value; every other key keeps its presence and value; an existing key keeps its place and a new key goes last |
| `JsMap.OrderedMap.Values` | backend/src/services/MCPServerManager.js:65 | the values are listed in key insertion order |
| `JsMap.Empty` | backend/src/services/MemoryService.js:4 | `new Map()` has no keys |
| `JsMap.SetIdempotent` | backend/src/services/MCPServerManager.js:40 | setting the same key to the same value twice equals setting it once |
| `JsMap.SetPresentValues` | backend/src/services/MCPServerManager.js:40 | overwriting a present key replaces only that key's value and keeps the order |
| `JsMap.SetAbsentValues` | backend/src/services/MemoryService.js:11 | setting a new key appends its value after all the others |
| `JsArray.Slice` | backend/src/services/MemoryService.js:33 | `slice(start, end)` is the segment between the clamped relative start and end, or empty when they cross |
| `JsArray.SliceFrom` | backend/src/services/MemoryService.js:24 | `slice(start)` is the suffix from the clamped relative start |
| `JsArray.SliceLast` | backend/src/services/MemoryService.js:24 | `slice(-n)` with `n >= 1` is the last `min(n, |s|)` elements |
| `JsArray.SliceFirst` | backend/src/services/MemoryService.js:33 | `slice(0, n)` with `n >= 0` is the first `min(n, |s|)` elements, so at most `n` |
| `JsArray.Filter` | backend/src/services/MemoryService.js:31-32 | `filter` keeps exactly the elements satisfying the predicate and never grows the list |
| `JsArray.FilterConcat` | backend/src/services/MemoryService.js:31-32 | filtering distributes over concatenation, so order is preserved |
| `JsArray.FilterIsSubsequence` | backend/src/services/MemoryService.js:31-32 | the filtered list is a subsequence of the input |
| `JsArray.PrefixIsSubsequence` | backend/src/services/MemoryService.js:33 | cutting a subsequence with `slice(0, n)` keeps it a subsequence |
| `JsString.ToLowerCase` | backend/src/services/MemoryService.js:32 | lower-casing keeps the length, maps each letter A-Z to a-z, and leaves no upper-case ASCII letter |
| `JsString.Includes` | backend/src/services/MemoryService.js:32 | `includes` holds exactly when the text occurs at some position |
| `JsString.IncludesEmpty` | backend/src/services/MemoryService.js:32 | every string includes the empty string |
| `JsString.NatToDecimal` | backend/src/services/MemoryService.js:15 | a number is written as decimal digits without leading zeros |
| `JsString.DecimalRoundTrip` | backend/src/services/MemoryService.js:15 | reading the written digits back gives the number |
| `JsString.IntToDecimal` | backend/src/services/MemoryService.js:15 | a negative number is written with a leading minus sign and no other number is; the rest is decimal digits that read back as the number's magnitude |
| `Json.Lookup` | backend/src/services/MCPServerManager.js:56 | a property read finds a value exactly when the object has that property |
| `Json.PutSemantics` | backend/src/services/MemoryService.js:14-17 | assigning a property makes it read the new value, leaves other properties alone, and never moves a property; a new property goes last |
| `Json.SpreadSemantics` | backend/src/services/MemoryService.js:16 | `...source` makes each property of `source` read its `source` value, leaves every other property's value alone, and keeps the target's properties in their places |
| `Json.SpreadFresh` | backend/src/services/MemoryService.js:14-17 | spreading properties that the target lacks appends them in order |
| `Json.SpreadConcat` | backend/src/services/MemoryService.js:14-17 | spreading two runs of properties equals spreading one run, then the other |
| `Json.SpreadAfterLeading` | backend/src/services/MemoryService.js:14-17 | `{k: v, ...source}` keeps `k` first, with `source`'s own `k` winning, and the rest in `source`'s order |
| `Json.GetNamedProperty` | backend/src/services/MCPServerManager.js:56 | reading a property throws exactly on `null`/`undefined`; on an object it gives that object's own property value, or `undefined` when there is none |
| `Json.ToDisplayString` | backend/src/services/MCPServerManager.js:56 | a template literal inserts a string unchanged |
| `Json.Stringify` | backend/src/services/MemoryService.js:32 | `JSON.stringify` gives no text exactly for `undefined`, and writes an object in braces and an array in brackets |

## Left out

- Asynchrony: every modelled service method except `getAvailableTools` is `async`, but none awaits anything. The model runs each call to completion, in order.
- Logging: the `console.log` calls are not modelled. `MCPServerManager.cleanup` only logs, so it has no model.
- Clock: `Date.now()` is the parameter `now`. Nothing relates two calls' clock values, so ids may repeat, as they can in the source.
- Aliasing: the model returns values, not shared arrays and objects. It does not capture that the list `initializeAllServers` returns is the same array stored under `mock`. Nor does it capture that the tools from `getAvailableTools` share their `inputSchema` objects with the registry, or that search results are the stored entry objects themselves. A caller that mutates any of these would change the stored state in JavaScript.
- `MemoryService.MemoryService.SearchMemory`: lower-casing covers ASCII only; full Unicode case mapping, which can change a string's length, is not modelled.
- `Json.Stringify`: its contract states only the kind of text produced; the body follows `JSON.stringify` for integers, strings (with the standard escapes), booleans, `null`, `undefined`, arrays and plain objects. Non-integer numbers, `-0`, numbers beyond 2^53 and exponent notation are not modelled, and neither are `toJSON` (such as that of `Date`: a timestamp is passed as its ISO string), functions, symbols or cycles.
- Object property order: integer-like keys, which JavaScript lists first in ascending order, are treated like any other key.
- Property reads look only at own properties, which is exact for the one key read (`query`). The prototype chain is not modelled.
- Value types: user ids, queries and tool names are strings, and limits are integers. JavaScript's coercion of other argument types is not modelled, such as a non-integer `limit` or a non-string key to `Map`.
- `servers` and `resources` are never written by the code. The model gives them JSON values as a stand-in value type.
- The rest of the repository is not part of this model: the HTTP routes and upload handling, the stubbed LLM orchestrator, the stubbed authentication middleware, the file service, the Azure function and the frontend.
