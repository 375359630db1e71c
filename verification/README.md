# artbot core, modelled in Dafny

This project models the sequential logic at the heart of the Art Blocks Discord
bot. The network, timers, randomness and Discord are abstracted away as
function parameters. Each module follows one source file:

| module | file | what it models |
|---|---|---|
| `Common` | `common.dfy` | `undefined`/`null` (`Option`), a thrown await (`Result`), `Array.prototype.filter` |
| `Strings` | `strings.dfy` | `toLowerCase` (ASCII letters), `\s`, `[a-z0-9]/i`, `indexOf`, `split`, `replace` with a string pattern, numbers in template literals |
| `Pagination` | `pagination.dfy` | the `first`/`skip` page loop shared by the subgraph fetches, and the page-length count |
| `ArtBlocksApi` | `artblocks_api.dfy` | `Utils/parseArtBlocksAPI.js`: per-contract fetches, `getArtBlocksProject`, flattening in `getContractsProjects`, the null-curation-status workaround and its cache, `getProjectsBirthdays` |
| `ArtIndexer` | `art_indexer.dfy` | `Classes/ArtIndexerBot.js`: `toProjectKey`, `buildProjectBots`, `handleNumberMessage` dispatch, the two bounded random samplers, the birthday year filter |
| `ReservoirList` | `reservoir_list.dfy` | `Classes/APIBots/ReservoirListBot.js`: the `lastUpdatedTime` watermark, and the token id, token URL, marketplace and ban check of a listing message |
| `NameCache` | `name_cache.dfy` | `Classes/APIBots/utils.js`: the ENS and OpenSea name caches |

The remote parts are modelled as follows:

- **Subgraph collections.** A remote collection is a fixed list of rows served
  slice by slice (`Pagination.Remote`). It has a set of offsets at which a
  request throws. This lets the model prove that a successful paginated fetch
  returns the whole list.
- **Other remote calls.** The token-API status lookup, the ENS provider and
  the OpenSea request are each a function from the key to a reply or an
  error.
- **Randomness and dates.** `Math.random()` becomes a function from the
  attempt number to the drawn index. `Date.parse` becomes a partial function,
  where `None` stands for NaN.
- **Outside libraries.** `lodash.deburr` is an uninterpreted
  `string -> string`. The ban set is a `set<string>`.
- **State.** Mutable state is passed in and returned explicitly: the two
  index maps, the watermark, the curation-status cache and the two name
  caches.
- **`Promise.all`.** In the curation-status lookups every callback tests the
  cache before any request settles, so every project whose number was not
  cached when the call began is requested, duplicates included, and every
  answer is written back even when another request rejects. The per-contract
  fetches of `getContractsProjects` are independent, so only their positions
  in the result matter.

The code does the following, and the model follows it:

- **No atomic swap.** `buildProjectBots` assigns into `this.projects` and
  `this.birthdays` in place. It never swaps in a fresh pair. A list element
  that is `undefined` throws in mid-loop and leaves a partial update
  (`ArtIndexer.BuildStopsAtUndefined`).
- **Birthday lists are never cleared.** Each rebuild appends to them again
  (see Findings).
- **A failed contract does not fail the rebuild.** In `getContractsProjects`
  it becomes one `undefined` element of the flattened list. The rebuild then
  stops at that element rather than discarding the whole pass.
- **A cached `''` is a miss.** The ENS cache checks truthiness, so a cached
  empty name is looked up again on every call.
- **A failing ENS lookup propagates.** It throws to the caller rather than
  answering `''`. Only `getOSName` turns failures into `''`.
- **Message length is in UTF-16 units.** A single character beyond U+FFFF
  has length 2, so it is not rejected as too short.
- **The index is a plain object.** A key with no own entry can still find a
  member inherited from `Object.prototype`; `constructor` is the only one a
  key can name, and handing it the message throws
  (`ArtIndexer.InheritedKeyCrashes`).
- **A negative watermark is raised to 0.** `maxTime` starts at 0, so even an
  empty batch does this. An empty batch leaves the watermark unchanged only
  when it is non-negative.

## Model

| member | source | states |
|---|---|---|
| Pagination.FetchAll | Utils/parseArtBlocksAPI.js:280-302 | the paginated fetch succeeds exactly when every request of the run is answered; then it returns the whole collection, after ⌊n/1000⌋+1 requests |
| Pagination.FetchAllRequests | Utils/parseArtBlocksAPI.js:284-298 | the k-th request asks for 1000 records at skip 1000·k, which is the number gathered so far; the result is the concatenation of the pages; every page but the last is full, and the last holds n mod 1000 records (an empty final page when n is a multiple of 1000) |
| Pagination.CrawlOutcome | Utils/parseArtBlocksAPI.js:285-298 | continued from any state where all pages so far were full, the loop succeeds iff every remaining offset is answered, and it ends holding exactly the collection |
| Pagination.CountAll | Utils/parseArtBlocksAPI.js:139-163 | the page-length count is defined exactly when the full fetch succeeds and equals the length of what that fetch returns |
| ArtBlocksApi.ContractProjects | Utils/parseArtBlocksAPI.js:280-302 | `_getContractProjects` returns every project of the contract, in order, or `undefined` (never a partial list) when some request throws |
| ArtBlocksApi.ContractOpenProjects | Utils/parseArtBlocksAPI.js:305-328 | the result is `undefined` exactly when some page request throws; otherwise it is exactly the contract's unpaused, active, incomplete projects, in the contract's order |
| ArtBlocksApi.ContractFactoryProjects | Utils/parseArtBlocksAPI.js:249-273 | the result is `undefined` exactly when some page request throws; otherwise it is exactly the contract's active factory projects, in the contract's order |
| ArtBlocksApi.ContractProjectCount | Utils/parseArtBlocksAPI.js:139-163 | the count is the number of the contract's projects, defined exactly when the full fetch is |
| ArtBlocksApi.ContractProject | Utils/parseArtBlocksAPI.js:186-201 | the single-project query returns `undefined` iff it throws, `null` iff the contract has no project with that number, and otherwise a project of the contract with that number |
| ArtBlocksApi.FirstFound | Utils/parseArtBlocksAPI.js:235-237 | `find` returns the first element that is neither null nor undefined, and `undefined` when there is none |
| ArtBlocksApi.ArtBlocksProject | Utils/parseArtBlocksAPI.js:229-242 | `getArtBlocksProject` returns the project found by the first contract, in contract order, whose lookup found one; contracts whose lookup threw or found nothing are skipped |
| ArtBlocksApi.FlatKeepsFailures | Utils/parseArtBlocksAPI.js:418-428 | after `flat()`, each list that could not be fetched is exactly one `undefined` element, and the defined elements are the fetched records in order |
| ArtBlocksApi.ContractsProjects | Utils/parseArtBlocksAPI.js:418-428 | `getContractsProjects` keeps one hole per failed contract and every fetched project in order; when every contract answers, it is all projects of all contracts with no hole |
| ArtBlocksApi.ContractsOpenProjects | Utils/parseArtBlocksAPI.js:430-440 | `getContractsOpenProjects` keeps one `undefined` element per contract whose open-project fetch threw, and every fetched open project in contract order; every defined element is an open project; when every contract answers, it is all open projects of all contracts with no hole |
| ArtBlocksApi.ContractsProjectsAppend | Utils/parseArtBlocksAPI.js:418-425 | the flattened fetches of two runs of contracts are those of the first followed by those of the second, so every contract's elements sit at that contract's place |
| ArtBlocksApi.ContractsProjectsOne | Utils/parseArtBlocksAPI.js:418-425 | one contract contributes all its projects, or a single `undefined` element at its place when its fetch throws |
| ArtBlocksApi.ContractsOpenProjectsAppend | Utils/parseArtBlocksAPI.js:430-437 | the open-project list of two runs of contracts is that of the first followed by that of the second |
| ArtBlocksApi.ContractsOpenProjectsOne | Utils/parseArtBlocksAPI.js:430-437 | one contract contributes its open projects, or a single `undefined` element at its place when its fetch throws |
| ArtBlocksApi.ResolveStatuses | Utils/parseArtBlocksAPI.js:355-369 | each project whose number was not cached when the call began is requested, and no cached number is; cached statuses are kept; every new cache entry is the token API's answer for a requested number, and every answered request is written back; the call succeeds exactly when every such request answers, and then the i-th status is the cached status of the i-th project's number, or else the token API's answer |
| ArtBlocksApi.SharedNumberRequestedTwice | Utils/parseArtBlocksAPI.js:356-367 | two projects sharing an uncached number both request it, because both callbacks test the cache before either answer is written |
| ArtBlocksApi.KeepFactoryFilters | Utils/parseArtBlocksAPI.js:370-372 | the index-wise `filter` keeps exactly the projects whose status is `factory`, in order |
| ArtBlocksApi.ResolvedFactory | Utils/parseArtBlocksAPI.js:355-372 | after successful lookups the kept projects are those whose status as the call saw it is `factory`, which is also their status in the cache afterwards |
| ArtBlocksApi.FactoryAmong | Utils/parseArtBlocksAPI.js:355-373 | the filtered list is defined exactly when every uncached number's request answers, and then it is the projects whose status, cached or answered, is `factory`, in order; the cache keeps old entries and gains only answers |
| ArtBlocksApi.ContractNullFactoryProjects | Utils/parseArtBlocksAPI.js:336-378 | the result is defined exactly when every page request of the null-status query and every uncached number's status request answer; then it is the active null-status projects whose status is `factory`, where a cached status wins over the token API, in order; cached numbers are never requested and cached statuses never change; every new cache entry is the token API's answer; a failed page fetch leaves the cache untouched and requests nothing |
| ArtBlocksApi.AssignAllLastWins | Utils/parseArtBlocksAPI.js:530-533 | in the `forEach` assignment, each id maps to the start time of its last row, and other keys are untouched |
| ArtBlocksApi.ProjectsBirthdays | Utils/parseArtBlocksAPI.js:504-539 | `getProjectsBirthdays` maps each id to its last row's `start_datetime`, and is the empty map when any request throws |
| Strings.IndexOf | Classes/ArtIndexerBot.js:96 | `indexOf(' ')` is the first position of the character, or -1 exactly when it is absent |
| Strings.ReplaceFirst | Classes/ArtIndexerBot.js:96 | `replace('?details', '')` removes the first occurrence (no occurrence starts earlier), and leaves a text without one unchanged |
| Strings.Utf16Length | Classes/ArtIndexerBot.js:88 | `content.length` counts UTF-16 code units: one per character below U+10000, two for any other: between the character count and twice it, equal to the character count when no character is astral and larger when one is |
| Strings.Utf16Append | Classes/ArtIndexerBot.js:88 | the UTF-16 length of a concatenation is the sum of the parts' lengths |
| Strings.Utf16OfChar | Classes/ArtIndexerBot.js:88 | one character counts 1 below U+10000 and 2 beyond it |
| Strings.ToLower | Classes/ArtIndexerBot.js:116 | lower-casing keeps the length and leaves no upper-case letter; a text without upper-case letters is unchanged |
| Strings.SplitJoin | Classes/ArtIndexerBot.js:74 | splitting fields that do not contain the separator, after joining them with it, gives the fields back |
| Strings.JoinSplit | Classes/ArtIndexerBot.js:74 | joining the parts of a split with the separator gives back the text |
| ArtIndexer.ProjectKeyShape | Classes/ArtIndexerBot.js:114-125 | a key holds no upper-case letter and no whitespace; it is empty exactly when the folded name is all whitespace; when the name has a letter or digit the key is non-empty and made of letters and digits only, and otherwise it holds none |
| ArtIndexer.ProjectKeyIsStable | Classes/ArtIndexerBot.js:114-125 | normalising a key again gives the same key |
| ArtIndexer.ProjectKeyOfTitle | Classes/ArtIndexerBot.js:115-117 | "Ringers #2" has the key "ringers2" |
| ArtIndexer.ProjectKeyOfRandomRequest | Classes/ArtIndexerBot.js:119-122 | "#?" has no letter or digit and keeps the key "#?" |
| ArtIndexer.MonthDayOfIso | Classes/ArtIndexerBot.js:74-75 | the birthday key of `Y-M-DTrest` is `M-D`, and its year field is `Y` |
| ArtIndexer.BuildProjectBots | Classes/ArtIndexerBot.js:53-83 | a fetch that is not a list leaves both maps unchanged; otherwise keys are only added and birthday lists only extended |
| ArtIndexer.BuildProjectsMap | Classes/ArtIndexerBot.js:57-72 | after a rebuild, each produced key holds the bot of the last project in fetch order with that key; every other key is untouched |
| ArtIndexer.BuildBirthdays | Classes/ArtIndexerBot.js:73-78 | each day's list gains, at its end and in fetch order, the bots of the projects with a truthy birthday on that day; other days are unchanged |
| ArtIndexer.BuildStopsAtUndefined | Classes/ArtIndexerBot.js:57-82 | an `undefined` element stops the loop, and the maps keep exactly the updates made by the projects before it |
| ArtIndexer.RebuildStopsAtFailedContract | Classes/ArtIndexerBot.js:57-61 | over `getContractsProjects`, the projects a rebuild reaches are exactly those of the contracts before the first whose fetch threw, in contract order |
| ArtIndexer.OpenListStopsAtFailedContract | Utils/parseArtBlocksAPI.js:430-437 | the defined prefix of the open-project list is the open projects of the contracts before the first whose fetch threw |
| ArtIndexer.RebuildDuplicatesBirthdays | Classes/ArtIndexerBot.js:73-78 | as written, two rebuilds from the same one-project fetch list the project twice on its day; the corrected rebuild lists it once |
| ArtIndexer.DuplicateGreetings | Classes/ArtIndexerBot.js:155-165 | as written, after two rebuilds the birthday routine greets the same project twice |
| ArtIndexer.Rebuild | Classes/ArtIndexerBot.js:53-83 | the corrected rebuild: each day's list is exactly the current fetch's bots born that day, in order |
| ArtIndexer.RebuildIsIdempotent | Classes/ArtIndexerBot.js:53-83 | the corrected rebuild, applied twice to the same fetch, gives the same index as applying it once |
| ArtIndexer.RebuildKeepsLookups | Classes/ArtIndexerBot.js:57-72 | the corrected rebuild leaves the projects map the same as the rebuild as written |
| ArtIndexer.HandleNumberMessage | Classes/ArtIndexerBot.js:85-112 | content of at most one UTF-16 unit is rejected; otherwise the key of the text after the first space, with its first `?details` removed, selects the random sampler exactly when it is "#?", the open-project sampler exactly when it is "open", a crash exactly when it is neither, is not an own key of the index and names an inherited `Object.prototype` member; otherwise a lookup of that key, which finds a bot exactly when the key is in the index, and then that key's bot |
| ArtIndexer.RandomRequest | Classes/ArtIndexerBot.js:99-101 | the message "#?" goes to the random-project sampler |
| ArtIndexer.HashWordQueriesWord | Classes/ArtIndexerBot.js:88-97 | `#<word>` of lower-case letters and digits is not rejected and its key is the word |
| ArtIndexer.OpenRequest | Classes/ArtIndexerBot.js:102-104 | the message "#open" goes to the open-project sampler |
| ArtIndexer.InheritedKeyCrashes | Classes/ArtIndexerBot.js:107-111 | "#constructor" with no such project reaches the inherited `Object` constructor, and calling its handler throws |
| ArtIndexer.OnlyConstructorIsReachable | Classes/ArtIndexerBot.js:107 | of the inherited members, a key can only name `constructor` |
| ArtIndexer.AstralCharIsQueried | Classes/ArtIndexerBot.js:88 | a single astral character has length 2 and is not rejected |
| ArtIndexer.NamedMessageLooksUpKey | Classes/ArtIndexerBot.js:95-111 | `<command> <name>` queries the name with its first `?details` removed, and, when that key is not reserved and names no inherited member, looks it up |
| ArtIndexer.MessageAfterBuild | Classes/ArtIndexerBot.js:95-111 | after a rebuild, naming a fetched project reaches the bot of the last fetched project with the same key |
| ArtIndexer.SendRandomProject | Classes/ArtIndexerBot.js:171-185 | at most 10 probes; the first probe that finds an active bot with more than one edition gets the message exactly `numMessages` times; nothing is sent iff none of the 10 probes qualifies; `keys` are the index's own keys, each once, and a sent bot is the one under the drawn key |
| ArtIndexer.SamplerReadsTenDraws | Classes/ArtIndexerBot.js:172-175 | the outcome depends only on the first ten random draws |
| ArtIndexer.SendRandomOpenProject | Classes/ArtIndexerBot.js:189-203 | at most 10 attempts; the first attempt whose drawn project's key names an active bot with more than one edition sends once to `projects[key]`; an attempt whose draw lands outside the list or on an `undefined` element throws; every attempt before a send or throw drew a project that did not qualify; nothing is sent exactly when all 10 attempts drew such a project |
| ArtIndexer.BirthdayGreetings | Classes/ArtIndexerBot.js:155-165 | of today's "MM-DD" list, exactly the bots whose start year differs from the current one are greeted, in list order (each greeted bot is picked from a later list position than the one before), each as many times as it is listed |
| Common.FilterIndexes | Classes/ArtIndexerBot.js:157-163 | the positions a `filter` keeps strictly increase, pick out exactly the result, and include every position whose element passes |
| ReservoirList.BatchMax | Classes/APIBots/ReservoirListBot.js:31-43 | `maxTime` ends as the largest parsed time of the batch, or 0 when that is larger or nothing parses |
| ReservoirList.Forwarded | Classes/APIBots/ReservoirListBot.js:32-37 | an order is forwarded iff its time parses and is strictly after the watermark held before the batch; each such order is forwarded as many times as it occurs in the batch (once for a distinct order), and the forwarded orders keep their batch order |
| ReservoirList.Advance | Classes/APIBots/ReservoirListBot.js:45-48 | the new watermark is the larger of the old watermark and the batch maximum, so it never decreases |
| ReservoirList.HandleAPIResponse | Classes/APIBots/ReservoirListBot.js:30-49 | the loop forwards exactly the newer orders and leaves the watermark at max(old, batch maximum); orders with equal parsed times are treated alike |
| ReservoirList.ReplayForwardsNothing | Classes/APIBots/ReservoirListBot.js:35-48 | handling the same batch again right after forwards nothing and keeps the watermark |
| ReservoirList.StaleBatchChangesNothing | Classes/APIBots/ReservoirListBot.js:31-48 | a batch with no time after a non-negative watermark (an empty batch in particular) forwards nothing and keeps the watermark |
| ReservoirList.UnparsableOrderIgnored | Classes/APIBots/ReservoirListBot.js:33-43 | an order whose time is NaN changes neither the forwarded orders nor the watermark, wherever it sits |
| ReservoirList.WatermarkGrows | Classes/APIBots/ReservoirListBot.js:46-48 | across successive polls the watermark never decreases |
| ReservoirList.SeenNeverResent | Classes/APIBots/ReservoirListBot.js:30-49 | an order with a parsable time seen in one poll is never forwarded by a later poll |
| ReservoirList.MarketOf | Classes/APIBots/ReservoirListBot.js:99-113 | the marketplace is OpenSea, LooksRare or X2Y2 exactly when the lower-cased source name is "opensea", "looksrare" or "x2y2" |
| ReservoirList.MarketOfMixedCase | Classes/APIBots/ReservoirListBot.js:100-101 | "OpenSea" selects the OpenSea link |
| ReservoirList.PlanListing | Classes/APIBots/ReservoirListBot.js:56-85 | a banned maker produces no message; otherwise the seller profile is the Art Blocks user page of the maker, with the token id, token URL and marketplace as above |
| ReservoirList.TokenIdOfSetId | Classes/APIBots/ReservoirListBot.js:61 | the token id of `token:<contract>:<id>` is `<id>` |
| ReservoirList.TokenUrlReadsBack | Classes/APIBots/ReservoirListBot.js:82-85 | the token URL is the host followed by `<id>` when no contract is configured, and by `<contract>/<id>` otherwise |
| NameCache.GetENSName | Classes/APIBots/utils.js:10-20 | a truthy cached name is returned without a lookup; on a miss the lookup's name (null becoming '') is cached and returned; a failing lookup propagates and writes nothing; only this address's entry can change |
| NameCache.EnsOrAddress | Classes/APIBots/utils.js:22-25 | when the lookup answers `n`, the result is `n` if it is non-empty and the address otherwise; a truthy cached name is returned as is; failures propagate; the cache changes exactly as in `getENSName` |
| NameCache.EnsMemoizes | Classes/APIBots/utils.js:12-18 | once a non-empty name is found, later calls return it without asking the provider, whatever it would now answer |
| NameCache.EnsEmptyNameAskedAgain | Classes/APIBots/utils.js:12-17 | an address without a name is cached as '', and the next call asks the provider again |
| NameCache.EnsRunKeepsNames | Classes/APIBots/utils.js:10-20 | over any sequence of lookups, non-empty cached names are never lost or changed, and every address asked about ends up cached |
| NameCache.GetOSName | Classes/APIBots/utils.js:27-55 | a truthy cached name is returned without a request; a response without a truthy `detail` caches and returns `username ?? ''`; any failure returns '' and leaves the cache unchanged |
| NameCache.OsRetryAfterFailure | Classes/APIBots/utils.js:29-51 | a failed request is not cached, so a retry that gets "alice" caches it, and a third call answers "alice" from the cache |

## Left out

- Timers (`setInterval` in `init`, `startRandomRoutine`, `startBirthdayRoutine`) and the hour and minute matching: clock behaviour. The birthday filter takes the current ISO date and a year function as inputs.
- Local time versus UTC in `getFullYear`: `yearOf` is an uninterpreted function.
- GraphQL query text, the urql and Hasura clients, `node-fetch` and environment configuration: transport. Each page or lookup is an oracle.
- `lodash.deburr`, ethers, Web3 and Discord `MessageEmbed`: foreign libraries. `deburr` is a parameter.
- Strings.ToLower: models `toLowerCase` on the ASCII letters only. Non-ASCII letters are left unchanged, because full Unicode case mapping is outside the model.
- The sends themselves are left out: `sendEmbedToListChannels`, `sendBirthdayMessage` and `ProjectBot.handleNumberMessage` are I/O. The model records which bot receives the message and how many times.
- The metadata fetch in `buildDiscordMessage`: network I/O. This covers the image, the title, the external URL used for the default market link, and the `collection_name` gate on sending. `ReservoirList.ArtBlocksPage` stands for that external URL.
- `ensOrAddress` inside `buildDiscordMessage`: the seller text is modelled by `NameCache.EnsOrAddress` on its own.
- `ProjectBot` and `APIPollBot` are not part of this model. The initial watermark is a parameter, so the constructor's `toFixed()` rounding is not modelled.
- The status cache is shared by concurrent `_getContractNullFactoryProjects` calls for different contracts in `getArtBlocksFactoryProjects`: each call is modelled against the cache it starts with.
- `getArtBlocksProjectCount` (a `reduce` with no initial value), `getArtBlocksFactoryProjects`, `getArtBlocksXPaceProjects`, `getPBABProjects`, `_getPBABContracts` and `getContractProject`: not part of the modelled core.
- ArtBlocksApi.ContractData: one fault set per contract is shared by all of its paginated queries. Failures that differ between the open, factory and null-status queries at the same offset are not distinguished.
- NameCache.OsReply: a `detail` field is modelled as a string. A non-string `detail` is not modelled.

## Findings

| source | as written | input that shows it | evidently intended | confidence | as-written member | corrected member |
|---|---|---|---|---|---|---|
| Classes/ArtIndexerBot.js:73-78 | every `buildProjectBots` pass pushes each bot with a birthday onto `this.birthdays[MM-DD]`, which is never cleared | one project with a truthy birthday, fetched by the initial build and again by the first refresh tick | each project appears once in its day's list, so the birthday routine greets it once | high (not executed) | ArtIndexer.RebuildDuplicatesBirthdays | ArtIndexer.Rebuild |
