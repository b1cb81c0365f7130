# Verified model of the ABAC proxy

The proxy decides, per request, whether an agent may see an upstream response and which of its fields.
This project models that decision in Dafny and proves what it guarantees:

- **Response filter.** The pattern tokenizer, the include trie on the heap, the recursive projection it
  drives, and the exclude recursion that threads dotted strings. JSON is a tree datatype; `Null` is both the
  JSON null and Go's `nil`. Leaves are counted by path with array positions erased (`JsonTree.Count`), which
  is the multiset of leaves, whatever the order in which Go visits a map. Beside the leaves, both filters are
  described location by location, so that nulls and empty containers are covered.
- **Policy cache.** The TTL cache with its read/write lock as a step system: any number of threads, a clock,
  and a database that changes at any step; taking the lock, deciding, unlocking and returning are separate
  steps. A log records events and is never read by a step. The object with its methods is proved to run that
  step system.
- **Decision pipeline.** Route matching, first-match rules, host resolution, the verdict on a response with
  its in-place rewriting, the policy file loader and the allowlist, put together in `Proxy`: the delivered
  response as a function of policy files, request and upstream response.

How the pieces connect: the heap trie computes `Projection.Project`, a recursion on sets of pattern tails;
the exclude recursion computes `Deletion.Delete` for the criterion "dotted path matches", which equals the
criterion "key list matches" for all fields under an exact condition on the document (`DottedPaths`);
`Complement` puts include and exclude together, again with the exact condition; `Verdicts` carries the leaf
theorems to the delivered response.

Where the code and its documentation differ, the model follows the code:

- A wildcard host entry `*.x` admits every host that ends in `x`, and `x` without its first character
  (`internal/proxy/allowlist/allowlist.go:71-75`), not only subdomains. An entry `*.` would panic there.
- Every action other than `deny` allows (`internal/proxy/interceptor/abac.go:111`), and every filter type
  other than `include_fields` excludes (`internal/policy/filter/filter.go:22-27`).
- `exclude_fields` removes a field by the text of its path, so a key with a dot in it is removed by a pattern
  for a nested field. `DottedPaths.DottedPathsExact` says when this cannot happen.
- Invalidation binds calls that take their lock afterwards: a call that has already read the cache and unlocked
  still returns what it read (`internal/api/db/db.go:53-56`). `CacheTheorems.ReturnsAreFresh` draws the line.

## Model

| member | source | states |
|---|---|---|
| PathPattern.ParsePathPattern | internal/policy/filter/filter.go:238-275 | The byte scanner yields the non-empty pieces between dots once every `[]` is set off by dots; all pieces are segments. |
| PathPattern.TokensAtDot | internal/policy/filter/filter.go:258-263 | A dot separates without context: the segments of `a.b` are those of `a`, then those of `b`. |
| PathPattern.TokensAtMarker | internal/policy/filter/filter.go:247-257 | So does `[]`, and it is a segment itself: the segments of `a[]b` are those of `a`, then `[]`, then those of `b`. |
| PathPattern.TokensOfName | internal/policy/filter/filter.go:264-273 | A text without `.` and `[]` is one segment, or none if it is empty. |
| PathPattern.ParseOfPrint | internal/policy/filter/filter.go:238-275 | Parsing the dot-join of any segments returns them. |
| PathPattern.ParseImage | internal/policy/filter/filter.go:238-275 | The segment lists that some pattern denotes are exactly the lists of `[]` and non-empty, dot-free, `[]`-free names. |
| PathPattern.ParsePrintParse | internal/policy/filter/filter.go:238-275 | Parse after print after parse is parse, for every string. |
| PatternMatch.MatchClosedForm | internal/policy/filter/filter.go:170-203 | The matcher computes the closed form: `[]` counts for nothing, inner `*` is one segment, final `*` one or more; empty patterns and those ending in `[]` match nothing. |
| PatternMatch.KeysMatchNames | internal/policy/filter/filter.go:176-203 | Without `[]`: a pattern matches the key lists of its length that agree with it except at `*`, and, if it ends in `*`, the longer ones too. |
| PatternMatch.KeysMatchMarker | internal/policy/filter/filter.go:185-187 | A `[]` inside a pattern changes nothing; at its end it makes the pattern match nothing. |
| PathTrie.PathNode.constructor | internal/policy/filter/filter.go:210-214 | A new node has no children and is not terminal. |
| PathTrie.Descend | internal/policy/filter/filter.go:223-227 | Stepping to a child creates it if missing, keeps the heap a tree and moves no other node. |
| PathTrie.InsertField | internal/policy/filter/filter.go:219-233 | Inserting a parsed pattern turns the tree of a pattern set into the tree of the set with that pattern. |
| PathTrie.BuildIncludeTree | internal/policy/filter/filter.go:216-236 | The heap is a tree without sharing; a node is reached by a path exactly if it is empty or begins a pattern, and is terminal exactly for a pattern. |
| PathTrie.NextTails | internal/policy/filter/filter.go:49-61 | At a node, the child for a key, else the child for `*`, stands for the pattern tails below it. |
| PathTrie.FilterWithTree | internal/policy/filter/filter.go:34-126 | The trie-driven filter equals the projection on sets of pattern tails, for any visiting order of object keys. |
| PathTrie.FilterFields | internal/policy/filter/filter.go:40-79 | The object case, with its early nil when nothing is kept. |
| PathTrie.FilterMember | internal/policy/filter/filter.go:49-72 | A member at a terminal is kept whole, whatever it is; otherwise it is filtered and kept if not nil. |
| PathTrie.FilterItems | internal/policy/filter/filter.go:81-116 | The array case: items filtered in order, nil ones dropped. |
| PathTrie.ApplyInclude | internal/policy/filter/filter.go:29-32 | The answer is the projection for the set of segment lists of the fields; `IncludeLocations` says what that keeps. |
| IncludeLocations.NamedLocationKept | internal/policy/filter/filter.go:49-51 | Every location that a field names is kept with all that it holds, null, empty objects and empty arrays included, whatever the other fields are. |
| IncludeLocations.PastTerminal | internal/policy/filter/filter.go:49-61 | Where the walk along the keys has met the end of a pattern, the answer holds there exactly what the document holds. |
| IncludeLocations.BeforeTerminal | internal/policy/filter/filter.go:49-72 | Where it has met none, the answer holds the projection for the patterns reached, and nothing if that is null. |
| IncludeLocations.SurvivesExact | internal/policy/filter/filter.go:40-126 | The answer is null iff no location is anchored: no end of a pattern, no array that a pattern goes into, no scalar at the root. |
| IncludeLocations.IncludedKind | internal/policy/filter/filter.go:40-126 | An object in the answer is never empty; an array stays one, even without items, iff a pattern goes on with `[]` or `*`; a scalar is kept as it is, iff a pattern ends there. |
| IncludeLocations.IncludedItems | internal/policy/filter/filter.go:81-116 | The items of an array in the answer are the non-null projections of its items, in order. |
| IncludeLocations.BranchExact | internal/policy/filter/filter.go:49-61 | One step of the walk follows the patterns that name the segment or, only if none does, those that write `*`. |
| IncludeLocations.AcceptsExact | internal/policy/filter/filter.go:34-126 | A leaf path is accepted iff the walk along it meets the end of a pattern after a key, or at its own end. |
| Projection.LeafConservation | internal/policy/filter/filter.go:34-126 | Include keeps exactly the leaves on accepted paths, with multiplicity, with wildcards and shadowing. |
| Projection.ProjectIdempotent | internal/policy/filter/filter.go:34-126 | Including twice is including once. |
| Projection.ProjectEmbeds | internal/policy/filter/filter.go:34-126 | The output is null or the input with fields and items left out. |
| PatternOrder.KeepsMoreExact | internal/policy/filter/filter.go:34-126 | One pattern set keeps at least as much as another on all documents iff a finite walk over both sets at once, along `[]`, `*` and the keys they name, finds the other at least as generous at every step. |
| Projection.IncludeMonotone | internal/policy/filter/filter.go:49-61 | Adding patterns loses no leaf, provided no pattern names a segment where another has `*`. |
| Projection.ShadowingLosesData | internal/policy/filter/filter.go:49-61 | Without that proviso it fails: adding the field `x.b` to `*.a` loses the leaf at `x.a`. |
| Deletion.MatchesExcludePattern | internal/policy/filter/filter.go:170-203 | A path matches iff its dot-separated keys match the segments of the pattern in the closed form. |
| Deletion.ShouldExclude | internal/policy/filter/filter.go:161-168 | True exactly if some pattern matches the path. |
| Deletion.ExcludeRecursive | internal/policy/filter/filter.go:134-159 | The string-threading recursion is the deletion of the members whose dotted path matches; `ExcludedShape` says what is left. |
| Deletion.ApplyExclude | internal/policy/filter/filter.go:128-132 | The same from the root. |
| Deletion.SurvivesAt | internal/policy/filter/filter.go:134-159 | A location survives iff it exists and is not cut off; indices stay, and its value is the deletion of the old one. |
| Deletion.ShapeKept | internal/policy/filter/filter.go:134-159 | What survives keeps kind and shape: an object its other members, even if none is left, an array all its items, null and scalars their value. |
| Deletion.ExcludedShape | internal/policy/filter/filter.go:128-168 | The same for the fields of a filter: members go iff their dotted path matches a field, and nothing else changes. |
| Deletion.RemovedByPrefix | internal/policy/filter/filter.go:138-153 | Cut off means: some beginning of the path ends in a key and has, indices erased, a deleted key list. |
| Deletion.LeafDeletion | internal/policy/filter/filter.go:134-159 | Exclude keeps exactly the leaves on paths that are not cut off, with multiplicity. |
| Deletion.ExcludeComposes | internal/policy/filter/filter.go:128-168 | Excluding F then G is excluding F ++ G, on every document. |
| Deletion.ExcludeByPatterns | internal/policy/filter/filter.go:161-168 | Order, repetition and spelling of the fields are irrelevant. |
| Deletion.ExcludeAntitone | internal/policy/filter/filter.go:128-168 | More patterns never let more leaves through. |
| Deletion.ExcludeIdempotentCommutes | internal/policy/filter/filter.go:128-168 | Idempotence, and two rounds commute. |
| DottedPaths.SplitRecoversKeys | internal/policy/filter/filter.go:139-142 | Splitting the accumulated string recovers the keys when they are dot-free and the first of several is not empty. |
| DottedPaths.ExcludeIsBySegments | internal/policy/filter/filter.go:134-174 | On documents without dots in keys and without a key below an empty root key, exclude deletes exactly the members whose key list matches. |
| DottedPaths.PlainKeysKeptApart | internal/policy/filter/filter.go:139-142 | Such documents meet the exact condition of `DottedPathsExact`. |
| DottedPaths.DottedPathsExact | internal/policy/filter/filter.go:134-174 | For every document: exclude deletes by key lists, whatever the fields, iff at each member the split dotted string and the key list agree wherever a pattern can name a key. |
| Complement.ComplementExact | internal/policy/filter/filter.go:29-203 | For every document and all fields: each leaf is kept by exactly one of include and exclude iff the trie walk accepts a leaf exactly when the string match cuts it off. |
| Complement.IncludeExcludeComplement | internal/policy/filter/filter.go:29-203 | That is so on documents laid out as the patterns say. |
| Complement.UnwrittenArrayLosesLeaf | internal/policy/filter/filter.go:81-118 | An array where the field writes none: with `a.b`, both filters drop the leaf of an array under `a`. |
| Complement.ShadowedKeyLosesLeaf | internal/policy/filter/filter.go:49-61 | A key both named and covered by `*`: with `*.a` and `x.b`, both filters drop the leaf at `x.a`. |
| Complement.TrailingMarkerKeepsLeafTwice | internal/policy/filter/filter.go:120-126 | A field that ends in `[]`: with `a[]`, both filters keep the leaves of the array. |
| Filter.Apply | internal/policy/filter/filter.go:22-27 | Include for `include_fields`, exclude for every other type. |
| Filter.FilteredLeaves | internal/policy/filter/filter.go:22-174 | Either filter passes all leaves of some paths and nothing else. |
| Filter.FilteredTwice | internal/policy/filter/filter.go:22-174 | Filtering a filtered document changes nothing. |
| CacheInvariant.ActKeepsInv | internal/api/db/db.go:45-97 | Every step of every thread, clock tick and database change keeps lock word, cache, thread positions and log consistent. |
| CacheInvariant.RunInv | internal/api/db/db.go:45-97 | The invariant holds in every state of every run; the cache is the latest unremoved store of each hash. |
| CacheTheorems.ReturnedWasDecided | internal/api/db/db.go:45-77 | A call is rejected iff its token cannot be hashed; any other answer is the data of a hit or load, or the error of a failed load, of the same call under one lock, with no other store or removal from lock to unlock. |
| CacheTheorems.StoreBehind | internal/api/db/db.go:51-76 | Provided data comes from a store and its query, with no removal of the hash since that query. |
| CacheTheorems.InvalidationEffective | internal/api/db/db.go:59-97 | Whatever is provided for a hash after its removal comes from a query made after the removal, in every interleaving. |
| CacheTheorems.ReturnsAreFresh | internal/api/db/db.go:45-97 | What a call returns was queried after a removal of its hash iff its deciding lock was taken after the removal; if not, the removal came after its unlock. |
| CacheTheorems.LaterCallsAreFresh | internal/api/db/db.go:45-97 | A call that begins after a removal answers from a query after the removal. |
| StaleReturns.StaleReturn | internal/api/db/db.go:59-91 | The condition on the lock is needed: for every loadable row there is a run in which a call returns its data after another thread has invalidated the token. |
| CacheTheorems.HitAgreesWithLoader | internal/api/db/db.go:51-64 | A hit is the latest unremoved store, and equals what the loader answers for the hit's token on the row of that store's query iff the validator accepts the token. |
| CacheTheorems.RevocationLag | internal/api/db/db.go:51-76 | If the row stops qualifying at r, no hit at r + latency + ttl or later, and no load at r + latency or later. |
| CacheTheorems.SwitchedOffLag | internal/db/downstream_tokens.sql.go:73-77 | In particular for a token that is revoked, or whose policy is inactive, from r on. |
| TtlCache.LoadExact | internal/api/db/db.go:99-141 | A load succeeds iff the query works, the token is not revoked, the policy active, both expiry times ahead, the validator accepts and the rules parse; then the group has the columns of the row. |
| CacheTheorems.SingleFlight | internal/api/db/db.go:51-74 | Two loads of a hash without a removal between: the second was found necessary at least ttl after the first. |
| CacheTheorems.SectionsExclude | internal/api/db/db.go:51-64 | Write sections exclude all others. |
| CacheTheorems.OnlyWriterChangesCache | internal/api/db/db.go:71-97 | The cache changes only under the write lock, by a logged store or removal. |
| CacheTheorems.WaitsEmptyHanded | internal/api/db/db.go:51-60 | Who waits for a lock, is about to return or has returned holds none. |
| CacheTheorems.SomeThreadCanStep | internal/api/db/db.go:51-97 | While a call is unfinished some thread can step, also when readers yield to waiting writers. |
| CacheTheorems.CallsEnd | internal/api/db/db.go:45-97 | Every own step shortens a call and no other action touches it. |
| DbApi.PolicyCache.constructor | internal/api/db/db.go:35-43 | A new cache is empty and a reachable state of the step system. |
| DbApi.PolicyCache.GetPolicyData | internal/api/db/db.go:45-77 | Result and cache after a call, by the two freshness checks and the load; without a fresh entry only a row in force is answered; the call is a run of the step system that ends with this answer. |
| DbApi.BuildPolicyGroup | internal/api/db/db.go:99-141 | The code of the load does exactly that. |
| DbApi.PolicyCache.Load | internal/api/db/db.go:59-77 | The same for the part under the write lock. |
| DbApi.PolicyCache.Invalidate | internal/api/db/db.go:83-91 | Exactly the hash of the token is removed; nothing if hashing fails. |
| DbApi.PolicyCache.InvalidateAll | internal/api/db/db.go:93-97 | The cache is empty. |
| Matcher.NormalizePath | internal/policy/matcher/matcher.go:53-64 | Adds a leading slash, removes one trailing slash. |
| Matcher.Matches | internal/policy/matcher/matcher.go:19-44 | True iff the normal forms have as many segments, and these agree except where the route has `*`; the early equality test is redundant. |
| Matcher.MatchesWithMethod | internal/policy/matcher/matcher.go:46-51 | Additionally the method is empty or equal up to case. |
| Matcher.FiresExact | internal/policy/matcher/matcher.go:19-51 | The same letter by letter: methods agree up to ASCII case, routes segment by segment. |
| Matcher.NormalizeMeans | internal/policy/matcher/matcher.go:53-64 | A missing leading slash is added; a rooted path that does not end in a slash is left alone. |
| Matcher.NormalizeTwiceExact | internal/policy/matcher/matcher.go:60-62 | Normalizing is idempotent on a path iff the path does not end in two slashes or is just these. |
| Matcher.NormalFormReached | internal/policy/matcher/matcher.go:53-64 | Every string with a leading slash is a normal form. |
| Matcher.LiteralExact | internal/policy/matcher/matcher.go:19-44 | A route has no `*` segment iff it matches exactly the paths with its own normal form. |
| Matcher.FindMatchingRule | internal/policy/engine/engine.go:61-69 | The first rule that fires. |
| Matcher.GovernsExact | internal/policy/engine/engine.go:61-69 | The answer is the one rule that fires with none before it firing, or none if none fires. |
| Matcher.DeadRuleExact | internal/policy/engine/engine.go:61-69 | A rule decides no request at all iff a single earlier rule covers it by method and segments. |
| Matcher.DeadRuleRemoval | internal/policy/engine/engine.go:61-69 | Deleting a covered rule changes no decision. |
| Engine.GetPolicyData | internal/policy/engine/engine.go:36-82 | Answers the first policy whose base URL parses to a non-empty host equal to the trimmed request host up to case, with the default action of the group; fails iff there is none. |
| Engine.ResolveExact | internal/policy/engine/engine.go:44-58 | The answer is the first policy that serves the host, with the group's default action; none iff there is none. |
| GoStrings.LowerAgree | internal/policy/engine/engine.go:42-50 | Two hosts fold alike iff they agree letter by letter up to ASCII case. |
| GoStrings.TrimSpaceCuts | internal/policy/engine/engine.go:42 | Trimming cuts white space on either side and nothing else. |
| Interceptor.InterceptRequest | internal/proxy/interceptor/abac.go:28-59 | The context records whether a policy was found, and which. |
| Interceptor.ReplaceWithError | internal/proxy/interceptor/abac.go:199-209 | The response becomes the delivered form of the refusal; `RefusedResponse` says what that holds. |
| Interceptor.ReadAndReplaceBody | internal/proxy/interceptor/abac.go:211-233 | The body is replaced by its filtered form, or the response is left for the caller on an error. |
| Interceptor.InterceptResponse | internal/proxy/interceptor/abac.go:61-183 | The response ends as the verdict on it says. |
| Verdicts.Intercept | internal/proxy/interceptor/abac.go:28-183 | Both halves: the delivered response is a function of group, request, flag and upstream response. |
| Proxy.Exchange | internal/proxy/interceptor/abac.go:28-183 | From the loaded files: the delivered response is a function of files, environment, token, request, flag and upstream response. |
| Proxy.TokenRefusedExact | internal/proxy/interceptor/abac.go:34-75 | Refused for its token iff no policy of a file with the token has a base URL with the requested host, up to case. |
| Proxy.FileVerdictExact | internal/proxy/interceptor/abac.go:61-183 | With the file of the token, its first policy for the host and the first rule that fires, or none: exactly when a response passes, is rewritten (and to what), or is refused as forbidden. |
| Verdicts.RefusedWithoutPolicy | internal/proxy/interceptor/abac.go:34-43 | Refused for its token iff the token has no group or no policy of the group serves the host. |
| Verdicts.VerdictExact | internal/proxy/interceptor/abac.go:61-183 | Given the first policy for the host and the first rule that fires, or none: exactly when a response passes unchanged, is rewritten (and to what), is refused with 403, or fails with 500, and with which message. |
| Verdicts.RefusedResponse | internal/proxy/interceptor/abac.go:199-209 | A refused response has status 403 or 500 with its text, decodes to `{"error": message}` and nothing else, and depends on the upstream response only through its other headers. |
| Verdicts.RefusalHidesLeaves | internal/proxy/interceptor/abac.go:199-209 | The only leaf of a refused response is its message: no upstream leaf gets through. |
| Verdicts.DeliveredOtherwise | internal/proxy/interceptor/abac.go:211-233 | Other responses keep status and headers, but for the length of a rewritten body. |
| GoStrings.DecimalReads | internal/proxy/interceptor/abac.go:208 | The length header is in decimal digits that stand for the length, without a leading zero. |
| Verdicts.DeliveredLeaves | internal/proxy/interceptor/abac.go:139-176 | A rewritten response holds exactly the upstream leaves that the filter of the first matching rule lets through. |
| Verdicts.SecondProxyAddsNothing | internal/proxy/interceptor/abac.go:61-183 | A second pass over a passed or filtered response changes nothing. |
| Verdicts.CoveredRuleIrrelevant | internal/policy/engine/engine.go:61-69 | Deleting a covered rule changes no verdict. |
| Allowlist.FromEntries | internal/proxy/allowlist/allowlist.go:24-39 | Hosts kept in order, missing schemes become `https`, others stay; an empty list is refused. |
| Allowlist.AdmitsExact | internal/proxy/allowlist/allowlist.go:69-79 | An entry without `*.` admits its own name alone, trimmed and folded; a wildcard entry the hosts that end in its suffix and the suffix without its first character. |
| Allowlist.SchemeForExact | internal/proxy/allowlist/allowlist.go:65-82 | A scheme, a panic or nothing: always by the first entry that admits the host or is `*.`. |
| Allowlist.FindHost | internal/proxy/allowlist/allowlist.go:65-82 | For every list: the answer of the first entry that admits the host or is `*.`, a scheme or a panic. |
| PolicyFiles.FileApi.AddPolicy | internal/api/fs/fs.go:61-90 | One policy is loaded, its host listed on first occurrence. |
| PolicyFiles.FileApi.AddPolicies | internal/api/fs/fs.go:60-91 | All policies of a file, or failure exactly if one cannot be loaded. |
| PolicyFiles.FileApi.AddFile | internal/api/fs/fs.go:41-97 | One file extends the loaded files, or fails exactly if the files with it cannot be loaded. |
| PolicyFiles.New | internal/api/fs/fs.go:34-100 | Succeeds iff every file is readable and valid, tokens differ, and every policy has a host and its environment variable; then groups and hosts are those of all files. |
| PolicyFiles.LoadableExact | internal/api/fs/fs.go:41-90 | What can be loaded, on the contents of the files: read, version, own token, policies, base URLs with hosts, environment variables with values. |
| PolicyFiles.LoadedGroupExact | internal/api/fs/fs.go:75-96 | What a file becomes, field by field. |
| PolicyFiles.EntryAt | internal/api/fs/fs.go:62-72 | Every policy contributes its host and scheme, `https` if it has none, in file order. |
| PolicyFiles.FileApi.GetPolicyData | internal/api/fs/fs.go:102-107 | Succeeds iff some loaded file has the token, with the group of that file. |
| PolicyFiles.GroupForExact | internal/api/fs/fs.go:54-97 | Tokens are unique: whichever file has the token, the answer is its group. |
| PolicyFiles.FirstSeenMeans | internal/api/fs/fs.go:67-73 | The host list has every host once, in order and with the scheme of its first occurrence. |
| PolicyFiles.FirstSeenAnswers | internal/api/fs/fs.go:67-73 | The allowlist answers from the host list as it would from the hosts of all policies. |
| PolicyFiles.LoadedHostsAreServed | internal/api/fs/fs.go:34-107 | For every loaded policy and every request host that equals its host up to case and outer white space: the allowlist answers with the scheme of the first policy whose host settles the search (a panic iff that host is `*.`), and the engine resolves it to the first policy of the group with that host. |

## Left out

- HTTP transport, the reverse proxy, upstream credentials on the request and bearer header extraction: library plumbing.
- JSON encoding and decoding, URL parsing, file reading, environment, hashing and validation of tokens: given as function parameters.
- SQL queries: `GetDownstreamTokenByHash` is a function of the database, the hash and the time; proxy and database share one clock.
- The background update of the last use of a token, and logging: no effect on any result.
- Writer preference of Go's RWMutex: readers may always overtake waiting writers in the model, which only adds runs; `CacheTheorems.SomeThreadCanStep` holds either way.
- The `currentPath` and `itemPath` strings of `filterWithTree`: computed but never used for a decision.
- Case folding, white space and decimal lengths: ASCII only; strings are byte strings.
- Canonical header names and repeated headers: a header map has one value per name.
- Error texts of the loader: failure and its exact cause are stated, not the message.
- Reading of policy files one after the other: the loader is given what reading and parsing each file yields.
- The closure passed to `readAndReplaceBody`: its one use, decode, filter and encode, is `Interceptor.FilterBody`.
