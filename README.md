# hiveraBot account cycle — a Dafny model

hiveraBot is a polling client. It reads a list of account credentials and an
optional list of proxies from text files. For each account it fetches the
username and the `POWER` balance from a fixed remote service. While that
balance is above 500 it submits "contribute" requests, pausing 30 seconds
after each one that succeeds. It then cools down for an hour, and the whole
pass repeats forever.

This project models the logic of that program and proves properties of it:

- `line_lists.dfy` (module `LineLists`): the parser shared by `users.txt`
  and `proxies.txt`, which is split on line feeds, then trim, then drop
  empty pieces. JavaScript's `trim` is modelled with the ECMAScript
  whitespace and line-terminator code points.
- `proxy_binding.dfy` (module `ProxyBinding`): the account-to-proxy choice
  `proxyList[index % proxyList.length]` and the agent built from it.
- `payloads.dfy` (module `Payloads`): the contribution request body.
- `mining.dfy` (module `Mining`): `processUser`. It covers the defaults
  taken from optional reply fields, and a method whose `while` loop runs the
  mining phase. The method is proved against the recursive specification
  `Mine`. It records what the cycle does as a list of events: the three
  fetches, each contribution attempt, and each sleep.
- `options.dfy` (module `Options`): the `Option` type used for absent
  fields and `null` results.

The remote calls are not modelled. Their results are parameters: `None` for
the `null` that the fetch helpers return on any error. The contribution
replies are a finite sequence, and the loop uses one reply per attempt.
If the replies run out while the power is still above 500, the model stops
there and reports that no cool-down happened. The program itself would go
on contributing.

## Model

| member | source | states |
|---|---|---|
| `LineLists.TrimStart` | main.js:12 | the leading half of `trim()`: the result is a suffix of the line, everything cut off is whitespace, and it does not start with whitespace |
| `LineLists.TrimEnd` | main.js:12 | the trailing half of `trim()`: the result is a prefix of the line, everything cut off is whitespace, and it does not end with whitespace |
| `LineLists.Trim` | main.js:12 | `line.trim()` never lengthens a line and leaves no whitespace at either end |
| `LineLists.TrimSlice` | main.js:12 | the trimmed line is a slice of the input whose cut-off margins are all whitespace |
| `LineLists.TrimUnique` | main.js:12 | that slice is unique: any whitespace-margined slice with non-whitespace ends is the trimmed line |
| `LineLists.TrimTrimmed` | main.js:12 | a line without edge whitespace is left unchanged by trim |
| `LineLists.TrimIdempotent` | main.js:12 | trimming twice is the same as trimming once |
| `LineLists.TrimEmptyIffWhitespace` | main.js:12 | a line trims to empty (and is then dropped by the filter) exactly when it is all whitespace |
| `LineLists.TrimNoNewline` | main.js:12 | trimming a line without line feeds gives a string without line feeds |
| `LineLists.TrimStartAt` | main.js:12 | stripping leading whitespace stops exactly at the first non-whitespace character |
| `LineLists.TrimEndAt` | main.js:12 | stripping trailing whitespace stops exactly after the last non-whitespace character |
| `LineLists.TrimBlank` | main.js:12 | an all-whitespace line trims to the empty string |
| `LineLists.TrimNonBlank` | main.js:12 | a line with whitespace margins around a slice with non-whitespace ends trims to that slice |
| `LineLists.TrimEndOfSuffix` | main.js:12 | stripping trailing whitespace from a suffix stops at the same place as in the whole line |
| `LineLists.NewlineIndex` | main.js:12 | the separator `split` cuts at is a line feed with no line feed before it |
| `LineLists.FirstNewline` | main.js:12 | only one position can be the first line feed, so the cut point is determined |
| `LineLists.SplitLines` | main.js:12 | `split('\n')` gives at least one piece, also for the empty text |
| `LineLists.SplitPiecesNoNewline` | main.js:12 | no piece of the split contains a line feed |
| `LineLists.JoinSplit` | main.js:12 | joining the pieces with line feeds gives back the input text |
| `LineLists.SplitJoin` | main.js:12 | splitting line-feed-free lines after joining them gives back the same lines |
| `LineLists.SplitSingle` | main.js:12 | text without a line feed splits into itself alone |
| `LineLists.SplitAppend` | main.js:12 | splitting `a + "\n" + b` gives the pieces of `a` followed by those of `b` |
| `LineLists.Map` | main.js:12 | `.map(line => line.trim())` keeps the length, and element k is the trim of line k |
| `LineLists.Filter` | main.js:12 | `.filter(line => line)` yields only wanted entries, each taken from the input, never more of them |
| `LineLists.FilterMember` | main.js:12 | a value is in the filtered list exactly when it is in the input and is wanted |
| `LineLists.FilterPreserves` | main.js:12 | a property every input element has also holds of every kept element |
| `LineLists.FilterAll` | main.js:12 | the filter leaves a list alone when it wants every element (a list of non-empty strings, say) |
| `LineLists.MapAppend` | main.js:12 | mapping commutes with list concatenation |
| `LineLists.FilterAppend` | main.js:12 | filtering commutes with list concatenation, so the order of entries is kept |
| `LineLists.ParseLines` | main.js:12 | every entry of the parsed list is non-empty and has no leading or trailing whitespace |
| `LineLists.ParsedEntriesAreSingleLines` | main.js:12 | no parsed entry contains a line feed |
| `LineLists.ParseSingleLine` | main.js:12 | one line yields `[trim(line)]`, or nothing when it is blank |
| `LineLists.ParseAppend` | main.js:12 | the entries of `a + "\n" + b` are those of `a` followed by those of `b`, in input order |
| `LineLists.ParseEmpty` | main.js:12 | an empty file has no entries |
| `LineLists.TrimAllTrimmed` | main.js:12 | trimming each line of a list of already trimmed lines changes nothing |
| `LineLists.ReparseClean` | main.js:12 | a list of clean entries written one per line parses back to itself |
| `LineLists.ParseIsFixedPoint` | main.js:12 | writing the parsed entries back one per line and parsing again gives the same entries |
| `LineLists.ReadLineFile` | main.js:9-34 | `readUserFile` and `readProxyFile` use the same rule; a read error gives the empty list, and any text gives clean entries without failing |
| `ProxyBinding.ProxyFor` | main.js:166 | no proxy exactly when the list is empty; otherwise the choice is one of the listed proxies |
| `ProxyBinding.ProxyIndex` | main.js:166 | the first `n` accounts get the proxy at their own position |
| `ProxyBinding.ProxyPeriodic` | main.js:166 | accounts `i` and `i + k*n` get the same proxy (also when the list is empty) |
| `ProxyBinding.SharedProxyIff` | main.js:166 | with distinct proxies, two accounts share a proxy exactly when their positions agree modulo `n` |
| `ProxyBinding.Assignments` | main.js:165-168 | one pass pairs every credential, in order, with the proxy `ProxyFor` picks for its position: none when the list is empty, a listed proxy otherwise |
| `ProxyBinding.EveryProxyUsed` | main.js:165-166 | with at least as many accounts as proxies, every proxy is assigned to some account |
| `ProxyBinding.CreateProxyAgent` | main.js:38-42 | a missing or empty proxy URL gives a direct connection; otherwise the agent uses exactly that URL, or construction fails |
| `ProxyBinding.ParsedProxiesNeverDirect` | main.js:26 | entries of a non-empty parsed proxy file are never empty, so every account goes through a proxy |
| `Payloads.GeneratePayload` | main.js:86-94 | the payload carries the given time, `times == 10`, and a quality in [65, 93] that is the draw plus 65 |
| `Payloads.EveryQualityReachable` | main.js:88 | every quality in [65, 93] comes from exactly one draw in [0, 29) |
| `Payloads.BoundsReached` | main.js:88 | draws 0 and 28 give the bounds 65 and 93 |
| `Mining.ReportedUsername` | main.js:122 | `profile?.result?.username` is present exactly when every level of the auth reply is, and is then the reply's username |
| `Mining.ReportedProfile` | main.js:125-136 | `?.result?.profile` is present exactly when every level of the reply is, and is then the reply's profile |
| `Mining.Username` | main.js:122 | the username is the reply's username when non-empty, and otherwise `'Unknown'`; it is never empty |
| `Mining.Hivera` | main.js:125 | `HIVERA` is taken from the reply when present, and is 0 when any level of the reply is missing |
| `Mining.Power` | main.js:126 | `POWER` is taken from the reply when present, and is 0 when any level of the reply is missing |
| `Mining.NextPower` | main.js:133-136 | a non-null contribution reply replaces the power by its `POWER` (or 0); a null reply leaves it unchanged |
| `Mining.AttemptEvents` | main.js:133-138 | no contract; the events of one turn of the loop, whose shape `AttemptShape` states |
| `Mining.AttemptShape` | main.js:133-138 | one turn starts with a contribution that succeeds exactly when the reply is non-null; only a success is followed by the 30 s pause |
| `Mining.Mine` | main.js:131-140 | the loop is entered iff power > 500 and a reply is available; when it stops before the replies run out, power <= 500 |
| `Mining.MineEvents` | main.js:131-138 | the loop only contributes and pauses for 30 s, and its first event is the first contribution |
| `Mining.MineStep` | main.js:131-139 | one turn of the loop: the rest of the run starts from the power after this contribution, on the remaining replies |
| `Mining.StrictThreshold` | main.js:131 | power 500 does not mine; power 501 does |
| `Mining.FailuresRetryAtOnce` | main.js:131-140 | failed contributions keep the power unchanged and are retried back to back, without pausing |
| `Mining.HighPowerKeepsMining` | main.js:131-139 | replies that keep reporting power above 500 keep the loop going, alternating contributions and 30 s pauses |
| `Mining.PowerComesFromReplies` | main.js:126-136 | the final power is the fetched one or the `POWER` of a reply the loop consumed; it is never computed locally |
| `Mining.PauseFollowsSuccess` | main.js:133-138 | a 30 s pause comes right after each accepted contribution and nowhere else |
| `Mining.Cycle` | main.js:117-147 | no contract; its properties are the four cycle lemmas `AbortedIff`, `CycleShape`, `AbsentPowerSkipsMining` and `CooldownIffLowPower`, and `ProcessUser` is proved equal to it |
| `Mining.AbortedIff` | main.js:118-119 | the cycle is cut short (caught at line 144) exactly when a non-empty proxy is given and the agent cannot be built |
| `Mining.CycleShape` | main.js:119-143 | the three fetches come first and are never repeated; the cool-down happens at most once, after the loop, as the last step |
| `Mining.AbsentPowerSkipsMining` | main.js:124-131 | with no `POWER` in the reply, power is 0, no contribution is attempted, and the cycle goes straight to the cool-down |
| `Mining.MineLoop` | main.js:131-140 | the `while` loop computes exactly the final power, attempt count and events of the specification `Mine` |
| `Mining.ProcessUser` | main.js:117-147 | the method computes exactly the specified cycle: abort on a failed agent, else three fetches, the mining loop and the cool-down |
| `Mining.CooldownIffLowPower` | main.js:131-143 | a cycle that ran cools down exactly when its final power is <= 500; otherwise it has consumed every reply |

## Left out

- The HTTP calls (`fetchAuthData`, `fetchInfoData`, `fetchPowerData`, `contribute`), URL building and `encodeURIComponent` (main.js:44-115) are network I/O. Their results are parameters: `None` stands for `null`. The info call's result is unused by the cycle, so its missing status check has no effect here.
- `fs.readFile` (main.js:11, 25) is file I/O. The file text is a parameter, and `None` stands for a read error.
- The `HttpsProxyAgent` constructor and its dynamic import (main.js:40-41) are a foreign library. Whether it accepts the URL is a boolean parameter.
- `Date.now()` and `Math.random()` (main.js:87-88) are a clock and a floating-point random source. They become the integer parameters `now` and `draw`. `draw` stands for `Math.floor(Math.random() * 29)`.
- The 30-second and 60-minute `setTimeout` sleeps (main.js:138, 143) are recorded as `Sleep` events with their durations. No time passes in the model.
- The payload each contribution sends is modelled by `Payloads.GeneratePayload` but is not recorded in the mining events.
- `Promise.all` (main.js:165-168) runs the accounts concurrently. Only one sequential pass, `ProxyBinding.Assignments`, is modelled.
- The endless outer `while (true)` loop, `process.exit(0)` on an empty account list, the banner and all logging (main.js:150-177) are orchestration and console output.
- Mining.ProcessUser: the loop also stops when the finite list of replies runs out. It then reports `cooledDown == false`, while the program would keep calling `contribute`.
- Mining.Power, Mining.Hivera and Mining.Username: reply fields are modelled as integers and strings. JSON values of other types (floats, numeric strings, `NaN`) are not modelled.
- Mining.NextPower: any non-null contribution reply counts as a success. A reply body that parses to a falsy JSON value (`0`, `false`, `""`) would count as a failure in the program. The model has no such replies, because a reply is always an object.
- The `catch` at main.js:144 is modelled only for a failing proxy agent. Nothing else in the cycle throws once the fetch helpers have caught their own errors.
