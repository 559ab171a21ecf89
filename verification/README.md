# DNS filter: a verified model

The repository filters DNS: a Go proxy forwards queries and adds the client's address, a Python
platform decides each query against lists and online intelligence, and a web service manages
lists and logins. This project models the parts of it that keep state, speak a protocol or parse
input, and proves what they promise over all inputs, all runs and all interleavings.

| files | component |
|---|---|
| `DnsWire`, `EcsWalker`, `EcsRoundTrip`, `EcsInject` | the client-subnet option from the proxy's injection, over the wire (section 4.1 of RFC 1035, section 6.1.2 of RFC 6891, section 6 of RFC 7871), to the platform's raw walker |
| `PtrNames` | reverse names, parsed and printed (section 3.5 of RFC 1035, section 2.5 of RFC 3596) |
| `VerdictCache`, `Fusion`, `ThreatIntel`, `ThreatLaws`, `IntelRuns`, `Keys` | the two verdict caches, the fusion of answers, the queries that use them, what they answer said of the sources, every interleaving of them, and how names become keys |
| `CircuitBreaker`, `BreakerRuns`, `DegradeRuns`, `QueryWorker`, `WorkerRuns`, `Upstream` | circuit breakers and degradation, one call at a time and under every interleaving of workers |
| `ThreatStore`, `DomainList`, `DomainListForms`, `DomainLines`, `ListedLines`, `DomainLookup`, `DomainImport`, `ApiLookup` | the offline lists: parsing, crash-safe import, index and lookup |
| `Decision`, `DecisionLaws`, `ListedQueries`, `Platform`, `PlatformAddresses`, `IpFilter`, `AllowLog`, `Accounting` | the decision pipeline, the intelligence queries inside it, the filter on answer addresses, the sampling of allow rows, and pipeline and counters together |
| `QueryStats`, `LogWriter`, `LogRuns`, `LogBridge`, `FirstSeen`, `FirstSeenRuns`, `FullQueue` | daily counters and the two asynchronous writers |
| `LoginGuard` | the login gates |
| `Common`, `Text` | shared types and the Python string operations |

Objects that the code updates in place are classes whose methods state the whole new state through
a function on values; what every run keeps is then proved about those functions. Time, the
database's success, other parts' answers and the schedule are parameters or steps, so a statement
about "every run" ranges over all of them. Adapter names are unique, as `platform/app/schema.sql:25`
demands.

Where a promise does not hold of the code, the exact condition is proved:

- A client-subnet option with source prefix 0 yields no address although it is present
  (`EcsInject.ExistingSubnetIsKept`; an input: `EcsInject.OptOutIsLost`).
- Reverse names with a leading zero in a decimal label are accepted by the parser and refused by
  the printer (`PtrNames.V4NameRestored`; an input: `PtrNames.LeadingZeroIsRefused`).
- An answer that repeats an address the blacklist leaves open can keep it although one of its
  queries said bad: the last verdict counts (`IpFilter.KeptIsCleanIff`).
- A local-only name behind a star or dot passes normalisation (`DomainList.NormaliseTwice`,
  `DomainList.LocalOnlySlipsThrough`).
- A bracketed address literal keeps its bracket, so the branch that cuts it at "]" can never
  produce an entry, behind a scheme or mark either (`DomainListForms.BracketedIsRejected`).
- A first-seen record dropped by a full queue is not retried while the set remembers the domain:
  what drops it (`FirstSeenRuns.RejectionForgets`), that the domain then stays without a row until
  a clear or restart (`FirstSeenRuns.ForgottenIsNotRetried`), and a run that gets there
  (`FullQueue.FullQueueForgets`).
- A list that parses to nothing is never refused as truncated, so it empties its source
  (`DomainImport.ImportSource`, `DomainImport.EmptyListEmptiesSource`).
- A name that an API list gives with a trailing dot is stored but no lookup ever returns it
  (`ApiLookup.ApiNameIsFound`; an input: `ApiLookup.DottedNameIsLost`).
- An upstream answer that cannot be decoded, or that reports an error, is passed on as it is, so the
  addresses in it are not filtered. `DecisionLaws.AddressesAreVettedExactlyWhen` gives the exact
  condition and `DecisionLaws.UndecodedBringsBlacklisted` an input; the comment at
  `platform/detectors.py:508-509` says this cannot concern address queries.
- The comment at `platform/circuit_breaker.py:23-25` says address queries never degrade; the code at
  `platform/detectors.py:344-353` lets their fail-safe pass in degrade mode, and the model follows
  the code.

## Model

| member | source | states |
|---|---|---|
| `EcsWalker.SkipNameLoop` | platform/dns_server.py:25-35 | the hand-written name skip: stops at a root label, a compression pointer or a bad length, and pays for each label with bytes of the message |
| `EcsWalker.ParseSubnetOption` | platform/dns_server.py:38-57 | on every byte string: an address comes back if and only if the family is 1 or 2 and at least one address octet follows the header; its octets are those sent, in order, padded with 0 and cut to 4 or 16 |
| `EcsWalker.ExtractClientIpLoop` | platform/dns_server.py:60-114 | the raw walker ends on every byte string with the value of its specification, after at most \|data\| + 3 labels, records and options, whatever counts the header claims |
| `EcsWalker.WordAtReadsSlice` | platform/dns_server.py:73-110 | reading a 16-bit word equals decoding the Python slice, short slices past the end included |
| `EcsWalker.SampleIsRead` | platform/dns_server.py:60-114 | on the octets themselves: a query written out octet by octet, with an OPT record of type 41 and option 8, yields the address in it |
| `EcsRoundTrip.SubnetParsed` | platform/dns_server.py:38-57 | parsing inverts the option encoding of section 6 of RFC 7871: the masked address comes back, and none for an empty prefix |
| `EcsRoundTrip.WalkInvertsEncoding` | platform/dns_server.py:60-114 | for every encodable query, any names, records and options, the walker returns the first address-carrying subnet option |
| `EcsInject.Query.InjectEcs` | proxy/ecs.go:32-68 | injection in place: the option goes into the last OPT record or a new one, and a query that has one is untouched |
| `EcsInject.InjectIsIdempotent` | proxy/ecs.go:32-68 | injecting twice equals injecting once, even for another peer |
| `EcsInject.InjectedIsWellFormed` | proxy/ecs.go:32-68 | a query with 35 octets to spare stays encodable after injection |
| `EcsInject.PeerReachesPlatform` | proxy/ecs.go:32-68 | inject, encode, walk: every query without a subnet option that can be encoded with one reaches the platform with exactly the peer's address |
| `EcsInject.V4PeerReachesPlatform` | proxy/ecs.go:32-68 | a client whose connection reports the four octets a, or a in mapped form, is read back by the platform as V4 of exactly those octets |
| `EcsInject.V6PeerReachesPlatform` | proxy/ecs.go:32-68 | a client with any other sixteen octets is read back as V6 of exactly those octets |
| `EcsInject.AddedOption` | proxy/ecs.go:52-68 | what is added: family 1 with source prefix 32, or family 2 with 128, scope 0, and the client's octets |
| `EcsInject.OnlyTheOptionIsAdded` | proxy/ecs.go:32-68 | nothing else changes: every section, record and option of the query stays where it was |
| `EcsInject.ExistingSubnetIsKept` | platform/dns_server.py:38-57 | an option already present is left alone and its zero-padded prefix is returned if and only if its source prefix is not 0 |
| `EcsInject.OptOutIsLost` | platform/dns_server.py:38-57 | the exception is real: an opt-out query, left alone by the proxy, from which no address is read |
| `PtrNames.V4PtrRoundTrip` | platform/app/routers/test.py:47-56 | extracting from the reverse name of any dotted IPv4 address gives that address back |
| `PtrNames.EveryV4AddressIsDottedQuad` | platform/app/routers/test.py:47-56 | the text of any four octets is one of that round trip |
| `PtrNames.EveryDottedQuadIsAnAddress` | platform/app/routers/test.py:47-56 | and every text of that round trip is the text of some four octets |
| `PtrNames.V6PtrRoundTrip` | platform/app/routers/test.py:47-56 | extracting from the reverse name of any sixteen-octet address gives that address back |
| `PtrNames.V4NameRestored` | platform/detectors.py:105-131 | an accepted IPv4 reverse name is printed back, up to case and trailing dots, if and only if no label has a leading zero; otherwise printing refuses |
| `PtrNames.LeadingZeroIsRefused` | platform/detectors.py:105-131 | the refusal is real: an accepted name with the label 01 that printing refuses |
| `PtrNames.V6NameRestored` | platform/detectors.py:105-131 | every accepted IPv6 reverse name is printed back, up to case and trailing dots |
| `PtrNames.ReverseNamesExactly` | platform/detectors.py:105-131 | exactly the names of four octet labels below in-addr.arpa and of 32 hexadecimal digits below ip6.arpa stand for an address |
| `PtrNames.V4NameMeans` | platform/detectors.py:105-131 | d.c.b.a.in-addr.arpa is the address a.b.c.d |
| `PtrNames.V6NameMeans` | platform/detectors.py:105-131 | of the digits below ip6.arpa the last two are the first octet, and so on down |
| `VerdictCache.Cache.Get` | platform/domain_cache.py:56-74 | a read: hit, miss or lazy expiry, and the touched order |
| `VerdictCache.Cache.Put` | platform/domain_cache.py:77-87 | a write: stored under the normalised key, moved to the young end, the oldest evicted when over capacity |
| `VerdictCache.Cache.Clear` | platform/ip_cache.py:88-91 | a clear empties the cache |
| `VerdictCache.RunKeepsSize` | platform/ip_cache.py:75-85 | in every run the order lists exactly the keys, once each, and never more than the capacity |
| `VerdictCache.HitIsLastPut` | platform/domain_cache.py:56-87 | in every run a hit is the last put of that key since the last clear, and not expired |
| `VerdictCache.RecentPutHits` | platform/domain_cache.py:56-87 | after a put of k, while fewer than capacity distinct other keys are touched and before expiry, k hits with that verdict |
| `VerdictCache.RecentHitHits` | platform/ip_cache.py:54-85 | the same guarantee after a hit of k |
| `Keys.DomainKeys` | platform/domain_cache.py:56-60 | blanks around, trailing dots and case never make another key, neither in the domain cache nor in the offline lookup |
| `Keys.IpKeys` | platform/ip_cache.py:54-58 | the address cache drops blanks around and nothing else |
| `Keys.SeenKeys` | platform/ai_collector.py:60-61 | first-seen collection stores a name in lower case without its trailing dots |
| `Keys.ReverseKeys` | platform/detectors.py:105-131 | a reverse name may be written in any case and with trailing dots |
| `Fusion.FusionIsQuota` | platform/adapters/__init__.py:118-134 | each strategy is a quota of malicious votes |
| `Fusion.FusionIgnoresOrder` | platform/adapters/__init__.py:118-134 | the verdict is the same whatever order the answers arrive in |
| `Fusion.StrategiesAreOrdered` | platform/adapters/__init__.py:118-134 | whatever "all" blocks "majority" blocks, and whatever "majority" blocks "any" blocks |
| `Fusion.MaliciousAnswerIsMonotone` | platform/adapters/__init__.py:118-134 | a further malicious answer never clears a malicious verdict |
| `CircuitBreaker.Guard.AllowsSource` | platform/circuit_breaker.py:90-108 | grant or refusal, with an expired window turned half-open for one probe; other sources untouched |
| `CircuitBreaker.Guard.RecordSuccess` | platform/circuit_breaker.py:111-117 | success closes the breaker and clears its count |
| `CircuitBreaker.Guard.RecordFailure` | platform/circuit_breaker.py:120-141 | failure counts, opens at the threshold, and reopens after a failed probe |
| `CircuitBreaker.Guard.UpstreamAllows` | platform/circuit_breaker.py:255-273 | the same machine for the upstream, counting refusals |
| `CircuitBreaker.Guard.UpstreamRecordFailure` | platform/circuit_breaker.py:285-308 | upstream failure, counting openings |
| `BreakerRuns.AskGoesOutExactlyWhen` | platform/circuit_breaker.py:90-108 | a worker is let out exactly when the breaker is closed, or open for at least the timeout |
| `BreakerRuns.NobodyIsShutOut` | platform/circuit_breaker.py:90-141 | in every interleaving, once all results are recorded and the timeout has passed, the next worker that asks is let out |
| `BreakerRuns.HalfOpenHasItsProbe` | platform/circuit_breaker.py:90-141 | in every interleaving, half-open means the worker whose probe caused it still holds that grant |
| `BreakerRuns.QuietMeansNotHalfOpen` | platform/circuit_breaker.py:255-308 | with no grant outstanding no breaker is half-open |
| `BreakerRuns.ProbesAreRare` | platform/circuit_breaker.py:90-141 | in every interleaving, the first and the last of k probes of one breaker lie at least (k - 1) times the timeout apart |
| `BreakerRuns.ClosedExactlyWhileStreakShort` | platform/circuit_breaker.py:120-141 | with a positive threshold a breaker is closed if and only if fewer failures than that were recorded since the last success; with threshold 0 it never opens |
| `DegradeRuns.DegradedExactlyInWindow` | platform/circuit_breaker.py:171-230 | degraded at t if and only if some window opened at s <= t < s + W with no verdict since |
| `DegradeRuns.OpensExactlyAtOpenings` | platform/circuit_breaker.py:182-210 | `record_failsafe` opens a window, and counts it once, exactly at the fail-safe that completes a threshold outside every window |
| `DegradeRuns.WindowsNeverOverlap` | platform/circuit_breaker.py:182-210 | of two openings counted by the code the later comes after the earlier window ran out or a verdict ended it |
| `DegradeRuns.OpeningNeedsThreshold` | platform/circuit_breaker.py:182-210 | each opening counted by the code is the last of a row of at least threshold fail-safes with no verdict or opening between |
| `QueryWorker.QueryIsOneWorker` | platform/detectors.py:237-258 | a query of the code that nobody disturbs is a run of one worker of the interleaved model, with the breakers the code leaves, and it ends holding no grant |
| `QueryWorker.ExchangeIsOneWorker` | platform/detectors.py:433-494 | an undisturbed exchange with the upstream is a run of one worker, with the breaker the code leaves |
| `WorkerRuns.FinishedWorkerRecordedEachGrant` | platform/detectors.py:237-258 | in every interleaving, a finished worker asked once for each of its names, in order, and recorded exactly one result for each grant, in order |
| `Upstream.QueryUpstreamReply` | platform/detectors.py:433-494 | a refused exchange records nothing and answers SERVFAIL; a granted one records exactly one result, whichever resolver answered |
| `Upstream.FirstUsableDecides` | platform/detectors.py:433-494 | the first resolver that answers something decodable, or at least a header, decides; without one there is no outcome |
| `ThreatIntel.AskSources` | platform/detectors.py:237-258 | asking and recording: the conclusive answers, and every breaker after it |
| `ThreatIntel.Intel.QueryDomain` | platform/detectors.py:194-286 | the domain query: cache, degradation, breakers, fusion, fail-safe; what it answers, the whole state it leaves, and that a hit was fused since the last invalidation |
| `ThreatIntel.Intel.QueryIp` | platform/detectors.py:289-353 | the address query, which never looks at the degradation window but answers a fail-safe by the same mode |
| `ThreatLaws.AskDomain` | platform/detectors.py:194-286 | the domain query said of the adapters: on a miss, degraded in a window, clean if no adapter supports domains, else decided by the strategy over the supporting adapters that are let out and answer, or by the mode if there is none; a hit or a window touches no breaker, and an adapter without domain support never has its own touched |
| `ThreatLaws.AskIp` | platform/detectors.py:289-353 | the same for addresses and the adapters that support them, without the window |
| `ThreatLaws.SupportersInOrder` | platform/detectors.py:233 | exactly the adapters that support the kind of query are asked, in their order |
| `ThreatLaws.UnsupportingIsLeftOut` | platform/detectors.py:228-258 | an adapter that does not support the kind of query keeps its breaker and is named in no new verdict |
| `ThreatLaws.QueryMovesWindow` | platform/detectors.py:264-273 | a query that gets a verdict ends the degradation window and the count of fail-safes; one that gets none counts, or opens a window |
| `ThreatIntel.FailsafeReadsLikeFusion` | platform/detectors.py:264-286 | in intercept mode a fail-safe that was granted sources reads like a fusion of bad answers from them, so only its origin tells them apart |
| `IntelRuns.ServedWasConcluded` | platform/detectors.py:194-286 | in every interleaving of the gets, puts and invalidations of any queries, a verdict served from cache is what an earlier query fused from at least one conclusive answer to that key; it was the last to conclude about the key, no invalidation came since, and its time to live has not passed |
| `IntelRuns.QueryIsGetThenConclude` | platform/detectors.py:194-286 | what a whole query does to its cache is its get and, if some source answered, its put |
| `ThreatStore.Store.ReplaceSourceRows` | platform/app/threat_list.py:438-491 | the three-phase replacement in a process that dies after any number of transactions: finished with exactly the new rows, or the list unchanged |
| `ThreatStore.Store.EnableSource` | platform/app/threat_list.py:494-501 | switching a source: its rows, their number, every other row and the caches |
| `ThreatStore.Store.DeleteSource` | platform/app/threat_list.py:504-510 | deleting a source: its rows, their number, every other row and the caches |
| `ThreatStore.Store.LoadCache` | platform/app/threat_list.py:778-793 | the indexes are those of the committed enabled rows |
| `ThreatStore.Store.FindDomainNow` | platform/app/threat_list.py:818-832 | a lookup answers from the rows committed last |
| `ThreatStore.Store.FindIp` | platform/app/threat_list.py:840-843 | the exact address lookup over the committed rows |
| `ThreatStore.LoadIsEnabled` | platform/app/threat_list.py:778-793 | the index holds a value if and only if an enabled row lists it, with the source of the last such row |
| `ThreatStore.StagingIsPrefix` | platform/app/threat_list.py:461-488 | in every interleaving, while an import runs the staging table is exactly the rows inserted so far, whatever an earlier crash left in it |
| `ThreatStore.VisibleIsCommitted` | platform/app/threat_list.py:438-510 | in every interleaving of imports, switches, deletes and crashes, each source's rows are exactly what its committed operations produced |
| `ThreatStore.JobIsItsBegin` | platform/app/threat_list.py:449-491 | the rows a swap publishes are those of one import begun on a free lock and not interrupted by a crash |
| `ThreatStore.BatchesAreFull` | platform/app/threat_list.py:461-480 | rows are inserted 50000 to a transaction |
| `DomainLookup.FindDomain` | platform/app/threat_list.py:818-832 | the label-by-label loop computes the recursive walk |
| `DomainLookup.MatchDomain` | platform/detectors.py:138-151 | the loop over patterns hits if and only if some cleaned pattern matches |
| `DomainLookup.WalkFindsLongest` | platform/app/threat_list.py:818-832 | on every name and index the walk returns the longest listed name that is the name or one of its parents, with its source, and misses only if there is none |
| `DomainLookup.LookupAgreesWithMatcher` | platform/detectors.py:138-151 | on clean names the list hits if and only if "*." + entry matches for some entry, and it returns the longest such entry |
| `DomainList.ParseContent` | platform/app/threat_list.py:201-251 | layout detection over the first 50 lines, then the reading loop with its set of names seen |
| `DomainList.NormaliseTwice` | platform/app/threat_list.py:164-198 | an output is a fixed point of normalisation if and only if it is not a local-only name; a local-only output needs a host beginning with a star or dot |
| `DomainList.LocalOnlySlipsThrough` | platform/app/threat_list.py:187-193 | the exception is real for every local-only host name put behind "*." |
| `DomainList.ParsedIsNormal` | platform/app/threat_list.py:201-251 | the parser yields exactly what its lines normalise to; each output is a well-formed name, not an address, and normalises to itself unless local-only |
| `DomainList.FirstUsesMeaning` | platform/app/threat_list.py:246-248 | the output has the same names as the lines, none twice, in the order of first occurrence |
| `DomainList.DomainIsLabels` | platform/app/threat_list.py:146-148 | the name pattern accepts exactly the names whose dot-separated labels are all proper labels |
| `DomainList.LayoutIsFirstSignificant` | platform/app/threat_list.py:215-226 | under "auto" the first line that is neither blank nor a comment decides the layout, if it is among the first 50; otherwise the list is read as plain |
| `DomainLines.HostsLineIsRecognised` | platform/app/threat_list.py:221-225 | a first line whose first word is an address selects the hosts layout, whatever follows that word |
| `DomainLines.CsvLineIsRecognised` | platform/app/threat_list.py:221-223 | a first line whose first column is one word and no address selects the csv layout, whatever follows |
| `DomainLines.PlainLineIsRecognised` | platform/app/threat_list.py:221-225 | a first line that is a bare name selects the plain layout |
| `DomainListForms.CaseIsIgnored` | platform/app/threat_list.py:164-168 | upper and lower case are the same to the normaliser, in every part of an entry |
| `DomainListForms.NameEntry` | platform/app/threat_list.py:164-198 | a name of proper labels, in any case, is kept unless it is longer than 253, an address, or one of the machine's own names |
| `DomainListForms.WildcardEntry` | platform/app/threat_list.py:188-193 | a wildcard entry stands for the name behind the star |
| `DomainListForms.BracketedIsRejected` | platform/app/threat_list.py:182-197 | whenever the branch for bracketed literals is taken, whatever marks, scheme and path surround the bracket, no name comes out |
| `DomainListForms.AdblockEntry` | platform/app/threat_list.py:169-173 | an adblock rule, in any case, normalises like its name |
| `DomainListForms.UrlEntry` | platform/app/threat_list.py:174-187 | a URL in any case, plain or defanged, with or without a port and with or without a path, normalises like its host |
| `DomainLines.HostsLine` | platform/app/threat_list.py:234-240 | a hosts line yields its second word, whatever blanks, further words or comment surround it, unless a comment starts there |
| `DomainLines.CsvLine` | platform/app/threat_list.py:241-242 | a csv line yields its first column, whatever it holds, without the blanks around it |
| `DomainImport.ImportSource` | platform/app/threat_list.py:385-416 | an import is refused if and only if the list is truncated; otherwise it finishes if and only if the process outlives its transactions; refusal or crash leaves the rows; success leaves as rows of the source exactly what its lines yield, each once and in the order of the lines, and if enabled every such name is found with everything below it |
| `DomainImport.TruncatedExactlyWhen` | platform/app/threat_list.py:404-413 | truncated: a non-empty new-registration list that is more than one entry and more than one percent off its declared count |
| `ListedLines.ValuesAreListed` | platform/app/threat_list.py:405-409 | what is taken from a list: the names its lines yield under an explicit layout, or, if no line yields any, under the detected one |
| `DomainImport.EmptyListEmptiesSource` | platform/app/threat_list.py:385-416 | a list that parses to nothing is never refused, whatever count it declares, and leaves its source without a row |
| `DomainImport.ImportApiSource` | platform/app/threat_list.py:419-435 | refused if and only if nothing is left after cleaning; otherwise the cleaned names and addresses, each once, become the source's rows |
| `DomainImport.ImportedIsFound` | platform/app/threat_list.py:385-416 | after an enabled import every name that some line yields, and any text ending in "." and that name, is found by an entry at least as long |
| `ApiLookup.ApiNameIsFound` | platform/app/threat_list.py:419-435 | after an enabled API import a name without a trailing dot is found under its own text; one with a trailing dot is never returned, and its own text hits if and only if some entry is the name without its dots or a parent of that |
| `ApiLookup.RawsAreListed` | platform/app/threat_list.py:419-435 | every name and address an API list gives, trimmed and in lower case, is listed under its kind |
| `ApiLookup.DottedIsUnreachable` | platform/app/threat_list.py:818-832 | no lookup on any index returns an entry with a trailing dot |
| `ApiLookup.DottedNameIsLost` | platform/app/threat_list.py:419-435 | the loss is real: an API list of one dotted name after whose import no lookup hits |
| `IpFilter.IpPostfilter` | platform/detectors.py:550-583 | the filter loops compute kept and removed addresses |
| `IpFilter.SplitIsExact` | platform/detectors.py:550-583 | kept and removed together are the answer as multisets, duplicates included |
| `IpFilter.KeptInOrder` | platform/detectors.py:578-583 | the kept addresses stand in the order of the answer |
| `IpFilter.KeptIsLastClean` | platform/detectors.py:573-583 | an address is kept if and only if it is not blacklisted and its last verdict was clean |
| `IpFilter.KeptIsCleanIff` | platform/detectors.py:573-583 | no address judged bad by any query is kept, for all verdicts, if and only if no unlisted address occurs twice in the answer |
| `IpFilter.RewrittenReadsBack` | platform/detectors.py:606-619 | a rewritten answer reads back as exactly the kept addresses |
| `IpFilter.KeptOrRemoved` | platform/detectors.py:550-583 | every address of the answer is either kept or removed, never both |
| `Decision.Filter.ProcessQuery` | platform/detectors.py:677-812 | the pipeline does what the first applicable rule of a declared priority list says: reply, counter updates, log rows and questions asked, in order |
| `Decision.Filter.ProcessPtr` | platform/detectors.py:815-857 | the same for reverse lookups |
| `Decision.Filter.FilterIps` | platform/detectors.py:780-812 | the treatment of an answer's addresses: intercept, rewrite or pass |
| `DecisionLaws.EveryQueryIsBooked` | platform/detectors.py:677-857 | every query counts exactly one of allow, intercept and remove_ip, logs an intercept or removal exactly when it counted one, and the count fixes the reply |
| `DecisionLaws.ObservingIsInvisible` | platform/detectors.py:724-767 | switching either new-registration layer between off and observing changes no reply, and nothing else but the lookup and its rows |
| `DecisionLaws.WhitelistWins` | platform/detectors.py:701-706 | a whitelisted name passes unchanged whatever else is listed, and no source is asked |
| `DecisionLaws.BlacklistIsMonotone` | platform/detectors.py:708-714 | blacklisting a name never turns an intercepted query into one that passes |
| `DecisionLaws.AddressesAreVettedExactlyWhen` | platform/detectors.py:780-812 | for a filterable query that is not whitelisted, and for all verdicts: the client reads the intercept reply or only addresses that are not blacklisted and were last judged clean, if and only if a name rule blocks the query, or the answer was decoded without error, or it carries no such address |
| `DecisionLaws.UndecodedBringsBlacklisted` | platform/detectors.py:501-540 | the exception is real: an undecodable answer delivers a blacklisted address |
| `DecisionLaws.InspectedPassesExactlyWhen` | platform/detectors.py:780-812 | a query that no name rule decides passes if and only if the upstream reported an error, gave no address of the queried type, or no address was removed; an undecodable answer passes as it is |
| `DecisionLaws.UpstreamAskedUnlessBlocked` | platform/detectors.py:677-857 | a query that never reached the upstream was intercepted |
| `DecisionLaws.RemovedRowsAreTrue` | platform/detectors.py:790-805 | the security row of the address filter lists exactly the addresses of the answer that the client does not get |
| `ListedQueries.WhitelistedPasses` | platform/detectors.py:701-706 | said of the lists: a name that some whitelist entry matches passes, and no source is asked |
| `ListedQueries.BlacklistedIsBlocked` | platform/detectors.py:708-714 | a name that some blacklist entry and no whitelist entry matches is intercepted, with its row, and never sent upstream |
| `ListedQueries.ListedIsBlocked` | platform/detectors.py:724-745 | a name on neither whose longest offline entry comes from an ordinary source is intercepted for that source; from a new-registration source only if that layer enforces |
| `ListedQueries.UnlistedIsAsked` | platform/detectors.py:747-782 | a name no list decides is decided by the registration layer, then by its verdict, and otherwise the upstream is asked |
| `ListedQueries.UnlistedIsObserved` | platform/detectors.py:734-767 | what the two new-registration layers ask and log about such a name |
| `ListedQueries.ErrorIsPassedOn` | platform/detectors.py:779-788 | an answer that reports an error or has no record of the queried type is passed on as it is |
| `ListedQueries.UnfilteredPasses` | platform/detectors.py:677-699 | with detection off, or for other record types, a query passes whatever is listed |
| `ListedQueries.ReverseFollowsLists` | platform/detectors.py:815-857 | a reverse lookup is decided by the address whitelist, blacklist, index and verdict, in this order, and the row of a block names the address |
| `Platform.IntelDecides` | platform/detectors.py:769-788 | a query that no list decides is intercepted when its intelligence verdict is bad and inspected when it is not |
| `Platform.Server.Handle` | platform/detectors.py:677-812 | pipeline and intelligence query together: an undecided query is intercepted exactly when a cached or fused verdict is bad, or no source was conclusive in intercept mode outside a degradation window; a fail-safe leaves the cache as the lookup left it |
| `PlatformAddresses.ServeReverse` | platform/detectors.py:815-857 | reverse lookup and address query together: left open by the lists it is intercepted exactly when a cached or fused verdict is bad, or no source is conclusive in intercept mode, and forwarded otherwise |
| `PlatformAddresses.Serve` | platform/detectors.py:677-812 | an ordinary query with its name query and its address queries together: the verdicts that filter the answer are those of a chain of address queries from the address cache as it was |
| `PlatformAddresses.SilentKeeps` | platform/detectors.py:550-583 | with no source conclusive about an address, an open address stays if and only if its last query finds a clean cached verdict, or none in degrade mode or without sources |
| `PlatformAddresses.SilentAddresses` | platform/detectors.py:289-353 | with no source conclusive and nothing cached, intercept mode intercepts every inspected query with an address in its answer, and degrade mode removes exactly the blacklisted addresses |
| `Accounting.CountersMatchQueriesAndRows` | platform/detectors.py:677-857 | pipeline and counters together, on every day, with any flushes and restarts between: the total is the number of completed queries whose record survived, its classes add up, and intercepts and removals are the security rows of those queries, so at most the rows written; without a restart they are all queries and all rows |
| `Accounting.ViewIsNumbers` | platform/query_stats.py:51-117 | without a restart, what a reader sees of a day is the number of records of each action |
| `AllowLog.Sampler.Sampled` | platform/detectors.py:643-658 | one sampling decision and the counter after it |
| `AllowLog.HundredCallsLogRate` | platform/detectors.py:643-658 | any hundred consecutive calls, wherever the counter stands, log exactly rate rows |
| `QueryStats.Stats.Record` | platform/query_stats.py:76-87 | one record, with the day change it may trigger |
| `QueryStats.Stats.FlushOnce` | platform/query_stats.py:113-117 | one flush, with the day change it may trigger |
| `QueryStats.CountersRefine` | platform/query_stats.py:51-117 | for every history of records, flushes, day changes in any order and restarts, memory over table shows exactly the surviving records, and the table those a restart now would spare |
| `QueryStats.FreshRecordSurvives` | platform/query_stats.py:76-87 | a record counts at once and is lost only by a restart before anything saved it |
| `QueryStats.FlushedRecordsSurvive` | platform/query_stats.py:90-117 | whatever was recorded before a flush outlives every later restart |
| `QueryStats.ViewTotalIsSum` | platform/query_stats.py:81-87 | with known actions the total is intercept + remove_ip + allow, on every day |
| `LoginGuard.Guard.Login` | platform/app/routers/auth.py:39-75 | one login: accepted if and only if both gates are open and the password is right, refused for the first reason that applies, and the whole new state |
| `LoginGuard.Guard.RecordFailure` | platform/app/login_guard.py:82-133 | a failure counts on both gates and locks or blocks at the thresholds |
| `LoginGuard.AccountGuessingIsSlow` | platform/app/login_guard.py:51-140 | in every run, threshold + 1 wrong passwords of one account that were checked, with no right one between, span at least the lockout time |
| `LoginGuard.AddressGuessingIsSlow` | platform/app/login_guard.py:66-133 | in every run, ip_threshold + 1 wrong passwords from one address that were checked span at least the smaller of window and block time |
| `LoginGuard.QuietAttemptIsJudged` | platform/app/login_guard.py:51-140 | nobody is locked out for good: with fewer counted failures than the thresholds, or the last one as old as lock and block, an attempt is accepted if and only if its password is right |
| `LogWriter.Writer.Enqueue` | platform/log_writer.py:54-70 | synchronous write, bounded put or counted drop |
| `LogWriter.Writer.FlushOnce` | platform/log_writer.py:90-105 | a flush empties the queue in batches; a failing batch is lost alone, earlier ones are in the table, later rows stay queued |
| `LogWriter.ChunksAreTheQueue` | platform/log_writer.py:90-105 | the batches are the queue in order, none empty, none over the limit, all but the last full |
| `LogRuns.EveryRunConserves` | platform/log_writer.py:54-105 | in every interleaving with database failures: attempted batches, rows in hand and queue are the accepted rows in order, the table is the committed batches, and the counters are exact |
| `LogRuns.NothingAcceptedIsLost` | platform/log_writer.py:54-105 | without a database failure table, hand and queue are everything accepted, in order, and enqueued + dropped are the completed calls |
| `LogBridge.EnqueueAsSteps` | platform/log_writer.py:54-70 | the writer's asynchronous call is a put and a count of the interleaved model |
| `LogBridge.FlushAsSteps` | platform/log_writer.py:90-105 | the writer's flush is a run of takes and writes of that model, one write per batch up to the failing one |
| `FirstSeen.Collector.RecordDomainSeen` | platform/ai_collector.py:53-78 | a domain is queued the first time only, repeats are counted, a full queue drops it, and the set never outgrows its limit |
| `FirstSeen.InsertKeepsFirst` | platform/ai_collector.py:49-50 | ignoring inserts of known domains keeps the first record of each, batch after batch |
| `FirstSeenRuns.EveryRunIsGood` | platform/ai_collector.py:53-112 | in every interleaving, clears of the set and flushed restarts included, the table holds the first accepted record per domain, and nothing accepted is lost |
| `FirstSeenRuns.OncePerEpoch` | platform/ai_collector.py:63-72 | in every interleaving, between two clears of the set no domain passes it twice |
| `FirstSeenRuns.MissingWasDropped` | platform/ai_collector.py:53-78 | once idle a domain has a row if and only if some record of it was accepted; a remembered domain without a row had a record rejected by a full queue |
| `FirstSeenRuns.RejectionForgets` | platform/ai_collector.py:63-78 | a full queue that rejects the only record of a domain leaves the set remembering a domain that nothing else holds |
| `FirstSeenRuns.ForgottenIsNotRetried` | platform/ai_collector.py:63-78 | such a domain gains no row in any continuation without a clear or a restart |
| `FullQueue.FullQueueForgets` | platform/ai_collector.py:53-78 | and such a domain is reached: a run of the collector, on distinct names that fit into a DNS question, that fills the queue and loses the next name |
| `FirstSeenRuns.RecordAsSteps` | platform/ai_collector.py:53-78 | one call of the collector is a run of the interleaved model |
| `FirstSeenRuns.FlushAsSteps` | platform/ai_collector.py:101-112 | one flush of the collector is a run of takes and writes of that model, and its table the ignoring inserts of everything written |

## Left out

- Non-ASCII text: case folding and digits are modelled over ASCII, and IPv6 text compression stays
  abstract (an IPv6 address is its sixteen octets, or an uninterpreted text).
- Splitting a text into lines and finding the declared count in its header: a list arrives as lines
  and an optional count. The address test of the standard library is a function parameter.
- Network exchanges, adapters, RDAP, downloads, dnslib and SQLite internals: an adapter is an
  arbitrary answer or none, a database block is one transaction.
- The order in which an API list's rows are inserted; only their set is modelled.
- EcsInject.InjectedIsWellFormed: asks for 35 octets below the 16-bit limit, which is enough but
  more than a query that already has an OPT record needs; what the proxy does with a query that
  cannot be packed is not modelled.
- `_load_cache` runs as one step; a load that straddles an `invalidate` may publish old rows, so no
  coherence is stated for that schedule, nor between the two processes.
- ThreatIntel.Query: the domain and address queries share this code, which the source writes out
  twice; likewise both caches are one class, and the first-seen queue is the log writer's.
- The clock: each critical section has one reading, taken inside it and never running backwards;
  thresholds and timeouts are fixed during a run.
- Decision.Filter.ProcessQuery: the list lookups, which only read memory, are evaluated before the
  rules; the verdicts of the intelligence queries (see `PlatformAddresses`), the answer of the upstream
  and the sampling of allow rows (see `AllowLog`) are parameters of the query. Log texts are kept as
  their parts, and the final-result text of a row, a function of the reply, is not repeated.
- PlatformAddresses.AskAddresses: the address queries of one answer run one after the other, in the
  order of the answer; the code hands them to a pool.
- QueryStats.CountersRefine: every database call succeeds; the paths that log a failed flush and go
  on are not modelled.
- FirstSeenRuns.EveryRunIsGood: every write commits and a restart happens only after the queue was
  flushed; a failed write loses its batch as `LogRuns.EveryRunConserves` says.
- Dashboards, reporting queries, the AI heuristics, the MCP server, deployment and seeding: no state
  or protocol of their own.
