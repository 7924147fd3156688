# Envoy CrowdSec bouncer: a verified model

A Dafny model of the bouncer that answers Envoy's external authorization requests from CrowdSec
decisions, captcha challenges and AppSec inspection. Objects whose methods update fields are classes,
loops are loops, and each method is proved against a function or relation of its inputs and old state;
the lemmas beside them prove what that function or relation is for.

| file | component |
|---|---|
| NetAddr.dfy | addresses and prefixes as numbers: masking, containment, IPv4-mapped addresses, longest-prefix tables |
| KeyedCache.dfy | the generic locked map (pkg/cache) |
| Decisions.dfy | building the CIDR index, what a lookup in it means, the answer to a request |
| DecisionStream.dfy | runs of decision batches: the flattened log, the lazily rebuilt index, origin counts |
| DecisionCache.dfy | the decision cache object: Sync, GetDecision, BuildIndex, GetOriginCounts |
| Captcha.dfy, CaptchaRuns.dfy | tokens, the captcha service object, and serial runs on a monotone clock |
| CaptchaRaces.dfy | concurrent verifications as interleaved steps |
| CaptchaHandler.dfy | the verify endpoint and its redirect |
| RealIP.dfy | client address extraction, trusted and exempt ranges |
| HostRouting.dfy | AppSec host patterns, routes and their validation |
| UsageMetrics.dfy | usage counters, and the reporter running beside concurrent increments |
| Webhooks.dfy | subscriptions and the bounded notification queue |
| Pipeline.dfy | Bouncer.Check, its metrics, and the answer to the proxy |
| Text.dfy, Counting.dfy, Wrappers.dfy | strings, counters and tallies, Option and Result |

What the rest of the model rests on:

- Text parsing (`netip.ParseAddr`, `netip.ParsePrefix`, URL parsing) is an arbitrary partial function; only
  `SpellingsAgreeIff` asks that no text is both an address and a range.
  Go map iteration order is an arbitrary permutation.
- `bart.Table` is a map from masked prefixes; its lookup tries the address's own prefix of each length,
  longest first, and looks only at the address bits.
- A token is its payload. `signed` is the set of payloads signed with the key, the keyed hash of an IP is
  injective, challenge IDs are fresh, and times are integers in nanoseconds. The token library accepts a
  token strictly before its expiry.
- The provider's reply, AppSec's reply, a failing signature and every clock reading are parameters.

Where the source surprises, the model follows the code:

- The index is rebuilt only when a batch mentions a Range decision (decisions/cache.go:246, 261). A
  Range decision deleted or replaced under another scope stays in the index: `StaleRangeExample` gives the
  run, `BatchCoherentIff` and `RunCoherentIff` say exactly when the index is stale, and `RangeAnswerIff` which
  answers are then wrong.
- Ranges are matched by address but single decisions by text (decisions/cache.go:107), so a decision for
  `1.2.3.4` is missed by a client that arrives as `::ffff:1.2.3.4` (`SpellingsAgreeIff`).
- The branch that skips mapped prefixes shorter than 96 bits (decisions/cache.go:191-194) is never taken:
  masking such a prefix clears the mapping bits first (`MappedNeedsNinetySixBits`).
- A trusted or exempt range written as IPv4-mapped IPv6 matches nobody, since addresses are unmapped
  before the comparison and ranges are not (`InertRangeIff`).
- A challenge is single-use among serial requests. Concurrent verifications that all pass the cache check
  before the first delete can all succeed (`AnyNumberOfGrants`), and the pending gauge then falls below the
  cache size (`QuiescentGauge`). `SingleUseIff` and `SingleUseSettledAtConsume` give the exact condition.
- docs/CAPTCHA.md (line 39) says tokens are bound to the client IP. The challenge token is, when it is
  verified; the session token is accepted from any IP, on signature and expiry alone (`SessionWindow`).
- docs/CAPTCHA.md (lines 29-30) says the token that spares further captchas is issued on success. A challenge
  token is signed with the same key and passes the same check (captcha/captcha.go:118-139), so it spares them
  too, unsolved, until it expires (`ChallengeServesAsSession`, `UnsolvedChallengeAdmits`); `SolvedSessionIff`
  tells the two kinds apart.
- A port on the request host is dropped, and with it the brackets of an IPv6 literal, which stay when there
  is no port (waf/waf.go:144-149). A route for `[::1]` is therefore missed by `[::1]:80`, and the request is
  allowed without inspection (`PortIgnoredIff`, `LiteralRouteMissed`).
- `Inc` reads and writes the counter in two cache operations (pkg/crowdsec/metrics.go:100-112), so
  increments that overlap can be lost (`RacingIncrementsExample`, `WriteAddsOneIff`, `AlwaysConservedIff`).
  Without any overlap, those that land between a sent report's snapshot of the counter and its clear are lost
  as well: they are the `landed` term of `IncrementsConserved`.

## Model

| member | source | states |
|---|---|---|
| NetAddr.MaskedCovers | decisions/cache.go:188 | masking a prefix never changes which addresses it covers |
| NetAddr.MappedNeedsNinetySixBits | decisions/cache.go:188-194 | a masked prefix whose base is IPv4-mapped has at least 96 bits, so the skip branch is dead |
| NetAddr.UnmappedCovers | decisions/cache.go:195 | the prefix rewritten to IPv4 covers x exactly when the mapped prefix covers mapped x |
| NetAddr.LookupIsLongest | decisions/cache.go:119 | a lookup finds the longest stored prefix covering the address, and misses only if none does |
| NetAddr.CoversIffBits | decisions/cache.go:119 | a prefix covers an address exactly if both are of one family and agree on as many leading bits as the prefix is long |
| NetAddr.UnmapMeaning | decisions/cache.go:117 | the mapped addresses are ::ffff:0:0 to ::ffff:ffff:ffff, each standing for its last 32 bits |
| Text.CapitalsLowered | waf/waf.go:148 | each ASCII capital becomes the small letter at its place in the alphabet |
| Text.OthersStay | waf/waf.go:148 | every other character stays |
| Text.TrimSpaceMeaning | decisions/cache.go:174 | trimming takes off white space at both ends until neither has any, and nothing else |
| Text.IsSpaceMeaning | decisions/cache.go:174 | white space is the Unicode set of that name, listed |
| KeyedCache.Cache.Keys | pkg/cache/cache.go:71-79 | every key exactly once, in some order |
| KeyedCache.Cache.CleanupPass | pkg/cache/cache.go:94-100 | removes exactly the entries the callback condemns |
| KeyedCache.Cache.CollectCondemned | pkg/cache/cache.go:118-127 | collects exactly the condemned keys and changes nothing |
| KeyedCache.Cache.DeleteCondemned | pkg/cache/cache.go:129-135 | removes exactly the collected keys |
| KeyedCache.TwoPhaseCleanupIsAtomicIff | pkg/cache/cache.go:118-135 | whatever other callers set and delete between the two locks, the result is that of one locked pass exactly when no collected key was last set to a value the callback spares and no other key to one it condemns |
| Decisions.NormaliseMeaning | decisions/cache.go:188-200 | normalising drops exactly the single hosts and otherwise keeps every address of the written range, IPv4-mapped forms included |
| Decisions.RangeDecisionMeaning | decisions/cache.go:170-203 | in a decision's own fields: a range is live exactly for scope "Range" and a value that, trimmed, parses as a range of more than one host |
| Decisions.BuildIsCoherent | decisions/cache.go:158-206 | for every key order the built table holds exactly the prefixes of the stored ranges, each with a stored decision of that prefix |
| Decisions.CoherentIsBuildable | decisions/cache.go:161-205 | conversely, every such table is built by some key order |
| Decisions.KeyOrderKeepsPrefixes | decisions/cache.go:163-203 | hit or miss, and the matched prefix, do not depend on the key order |
| Decisions.TableUniqueIff | decisions/cache.go:163-203 | the whole table is independent of the key order exactly when no two stored decisions share a normalised prefix |
| Decisions.LookupRefinesScan | decisions/cache.go:111-122 | an indexed lookup returns a covering live range lying inside every other covering range, or nothing if there is none, as a scan of all decisions would |
| Decisions.AnswerIsCorrect | decisions/cache.go:100-125 | exact match first, else the most specific range, else none; a nil index reads as empty |
| Decisions.NoAddressMeaning | decisions/cache.go:102-117 | an empty address is an error, and one that does not parse is in no range |
| DecisionStream.ApplyIsLastWord | decisions/cache.go:236-264 | the map holds a decision exactly if it is what the log's last mention of its value added |
| DecisionStream.BatchCoherentIff | decisions/cache.go:234-285 | a batch leaves the published index coherent with the map if and only if it mentions a Range decision or names no value the index holds |
| DecisionStream.RunCoherentIff | decisions/cache.go:218-291 | over a whole run the index is coherent after every batch if and only if every batch met that guard |
| DecisionStream.WellFormedRunOk | decisions/cache.go:234-285 | if mentions of a value agree on the Range scope, the index is coherent after every batch of every run |
| DecisionStream.AnswerFollowsLog | decisions/cache.go:100-125 | GetDecision at any moment of a well-formed run, mid-batch and with its two reads at different moments, answers from the event log alone |
| DecisionStream.MessageMeaning | decisions/cache.go:234-285 | in a message's own lists: a value keeps the last decision added with it, else is gone if deleted, else stays; origins grow by those added; the index is rebuilt exactly for a decision of scope "Range" with a value |
| DecisionStream.ReadyIff | decisions/cache.go:287-289 | the cache is ready from the first message that is not nil on |
| DecisionStream.OwnDecisionIsAnswered | decisions/cache.go:107-109 | after any run a live decision under the client's own text is the answer |
| DecisionStream.RangeIsAnswered | decisions/cache.go:111-122 | after a well-formed run a client in a range last added, with no decision of its own, gets a decision whose stated range holds it and lies inside that range |
| DecisionStream.NobodyIsAnswered | decisions/cache.go:111-124 | and a client no live decision names and no live range holds gets none |
| DecisionStream.StaleRangeExample | decisions/cache.go:246-248 | a run that is not well-formed where a deleted range is still answered |
| DecisionStream.RangeAnswerIff | decisions/cache.go:111-285 | after any message of any run, what the index finds for an address is the most specific live range unless, and only unless, it finds a decision mentioned since the last rebuild |
| DecisionStream.SpellingsAgreeIff | decisions/cache.go:107-120 | at any moment of any run two spellings of one address get the same answer exactly if no decision is live under either text |
| DecisionStream.OriginsOverRun | decisions/cache.go:257-258 | stored origins are always known and known origins never shrink |
| DecisionStream.ReachableOriginCounts | decisions/cache.go:138-156 | in reachable states the counted origins are exactly the known ones and the counts sum to the decisions with an origin |
| DecisionCache.Cache.GetDecision | decisions/cache.go:100-125 | returns Answer of the current map and index, whose meaning over the stream the DecisionStream rows give |
| DecisionCache.Cache.BuildIndex | decisions/cache.go:158-206 | returns the table that some order of the keys builds |
| DecisionCache.Cache.GetOriginCounts | decisions/cache.go:138-156 | an entry for every known or stored origin, counting its stored decisions |
| DecisionCache.Cache.ApplyBatch | decisions/cache.go:230-290 | one message is one BatchStep, readers meanwhile see exactly the maps after each mention with the old index, both gauges of every origin hold its count and no other metric changes, and the added and deleted counters grow by the message's mentions |
| DecisionCache.ByOriginCounts | decisions/cache.go:243-260 | the added or deleted counter of an origin grows by the number of its mentions |
| DecisionCache.GaugesMeaning | decisions/cache.go:272-279 | the usage gauge of each origin: its key, name, unit, label and count |
| DecisionCache.Cache.Sync | decisions/cache.go:218-291 | the states after each message form a run of the stream |
| Captcha.Service.RequiresCaptcha | captcha/captcha.go:232-239 | not required exactly for a token signed with the key and unexpired at both clock readings |
| Captcha.Service.CreateSession | captcha/captcha.go:352-393 | new state and result are those of Create |
| Captcha.CreateMeaning | captcha/captcha.go:352-393 | when each outcome occurs, and of a new challenge its ID, IP hash, URL and expiry, the links of its session, and the change of state |
| Captcha.Service.VerifyResponse | captcha/captcha.go:241-304 | new state and result are those of Verify |
| Captcha.VerifyMeaning | captcha/captcha.go:241-304 | when each verdict occurs, what is spent, and the session token's claims and expiry |
| Captcha.ValidRedirectMeaning | captcha/captcha.go:395-409 | only absolute http and https URLs with a host pass |
| Captcha.AcceptedMeaning | captcha/captcha.go:79-139 | a token passes on signature and expiry alone, a session token at two clock readings |
| Captcha.Service.CleanupPass | captcha/captcha.go:197-206 | removes the entries expired at their own clock reading and moves gauge and counter by their number |
| CaptchaRuns.ChallengeWindow | captcha/captcha.go:60-334 | at any position of any run after it was issued, a challenge token is accepted exactly before its expiry rounded down to the second, and until then GetSession returns what CreateSession produced but for the rounded creation time |
| CaptchaRuns.CreatedMeaning | captcha/captcha.go:373-392 | every session created in any run leads to the challenge page under the callback URL with its own token, and repeats the URL it was made for |
| CaptchaRuns.LookedMeaning | captcha/captcha.go:306-334 | and so does every session read back, for the token asked about |
| CaptchaRuns.SessionWindow | captcha/captcha.go:102-239 | at any position after it was granted, a session token spares every client a captcha, whatever its IP, exactly until it expires |
| CaptchaRuns.ChallengeServesAsSession | captcha/captcha.go:79-139 | an issued challenge token is accepted as a session token, from any IP, exactly until the challenge expires |
| CaptchaRuns.UnsolvedChallengeAdmits | captcha/captcha.go:118-139 | the shortest such run: one CreateSession on a fresh service and no captcha solved |
| CaptchaRuns.SolvedSessionIff | captcha/captcha.go:102-139 | in every legal run a signed token was granted for a solved captcha exactly if it carries no challenge ID |
| CaptchaRuns.SingleUse | captcha/captcha.go:257-287 | in every serial run with replay protection each challenge ID is solved at most once |
| CaptchaRuns.ReusableWithoutProtection | captcha/captcha.go:257-287 | with it off, a solved challenge is solved again exactly while its token lives |
| CaptchaRuns.ChallengesConserved | captcha/captcha.go:197-370 | issued = cached + solved + lost to signing + expired and the gauge is the cache size; with protection off the cache stays empty and the gauge 0 |
| CaptchaRuns.CleanupUnobservable | captcha/captcha.go:197-206 | runs that differ only in their cleanup passes give the same outputs |
| CaptchaRuns.CleanupComplete | captcha/captcha.go:197-206 | a pass leaves nothing that had expired when it began and takes nothing still live when it ends |
| CaptchaRuns.Provenance | captcha/captcha.go:352-370 | every signed challenge comes from an earlier CreateSession with that IP and an acceptable URL |
| CaptchaRaces.LateCheckFails | captcha/captcha.go:257-264 | a cache check after the first consume of its ID fails |
| CaptchaRaces.GrantsBounded | captcha/captcha.go:257-303 | sessions granted for an ID are at most the checks it passed before its first consume |
| CaptchaRaces.AnotherGrantIff | captcha/captcha.go:241-303 | for a minted ID, a further session can be granted if and only if its challenge is cached and unexpired or some verification of it is waiting for a cache check it would pass or in flight |
| CaptchaRaces.AllCanBeGranted | captcha/captcha.go:257-303 | from any moment some continuation grants every verification then in flight for an ID |
| CaptchaRaces.HopefulCanBeGranted | captcha/captcha.go:241-303 | and those still waiting for their cache check with them |
| CaptchaRaces.SingleUseIff | captcha/captcha.go:241-303 | for a minted ID at any moment, every continuation grants at most one session if and only if no further verification can be admitted and those granted, in flight or waiting are together at most one |
| CaptchaRaces.SingleUseSettledAtConsume | captcha/captcha.go:257-287 | at the first consume of an ID: single use holds from then on if and only if the consuming verification is the only one past its check |
| CaptchaRaces.AnyNumberOfGrants | captcha/captcha.go:241-370 | for every n, IP and acceptable URL some interleaving grants n sessions for one freshly issued challenge, unless it is born expired |
| CaptchaRaces.QuiescentGauge | captcha/captcha.go:284-287 | between requests the gauge is the cache size minus the deletes that found nothing |
| CaptchaRaces.UninterruptedIsSerial | captcha/captcha.go:241-304 | an uninterrupted verification leaves the state the one-step Verify leaves and is granted exactly when it is, for every token, IP, provider reply and signing outcome |
| CaptchaRaces.IssueIsSerial | captcha/captcha.go:352-370 | an uninterrupted CreateSession leaves what the one-step Create leaves |
| CaptchaRaces.SweepIsSerial | captcha/captcha.go:197-206 | a cleanup pass of the interleaved service is one of the serial service, for every choice of clock readings |
| CaptchaHandler.Server.HandleCaptchaVerify | server/server.go:191-252 | reply and new state are those of Handle; success is notified and each verification counted once |
| CaptchaHandler.RedirectIff | server/server.go:191-252 | exactly when a submission is redirected |
| CaptchaHandler.RefusalMeaning | server/server.go:191-222 | status and message of each submission refused before verification |
| CaptchaHandler.VerdictMeaning | server/server.go:226-251 | status and message for each verdict |
| CaptchaHandler.RedirectCookie | server/server.go:244-251 | the cookie is a freshly signed session token without a challenge ID that spares any client the captcha exactly until the session's duration is over |
| CaptchaHandler.RedirectProvenance | server/server.go:214-251 | a redirect goes to exactly the URL an earlier CreateSession was given for the same IP, and that URL passed the redirect check |
| RealIP.ParseIPNets | bouncer/bouncer.go:381-400 | the masked prefixes of all entries in order, or the first entry that does not parse |
| RealIP.RangeTextMeaning | bouncer/bouncer.go:384-390 | a bare address becomes a /128 if it has a colon and a /32 otherwise |
| RealIP.IsTrustedProxyAddr | bouncer/bouncer.go:311-319 | true exactly if some range contains the unmapped address |
| RealIP.IsExemptIP | bouncer/bouncer.go:322-333 | likewise, and never for an unparsed address |
| RealIP.InRangesMeaning | bouncer/bouncer.go:311-333 | membership in bits: no zone, the range's family, its leading bits |
| RealIP.MaskedRangeContains | bouncer/bouncer.go:396 | masking the configured ranges does not change who is in them |
| RealIP.InertRangeIff | bouncer/bouncer.go:311-396 | a configured range matches no address exactly if it is IPv4-mapped with 96 bits or more |
| RealIP.ExtractRealIP | bouncer/bouncer.go:266-300 | the dedicated header if it parses, else the trimmed rightmost of the last 20 forwarded entries that parses and lies in no proxy range, else X-Real-IP if it parses, else the socket address |
| RealIP.LastUsableIsRightmost | bouncer/bouncer.go:278-286 | that entry parses, is no trusted proxy, and everything to its right is unusable |
| RealIP.PrependedTextIgnored | bouncer/bouncer.go:273-287 | text and a comma in front of the header never change the answer once an entry is usable or 20 entries exist |
| RealIP.ForgeableIff | bouncer/bouncer.go:273-287 | and a usable entry written in front does change it exactly otherwise |
| HostRouting.LabelsMatch | waf/waf.go:163-173 | same number of labels, each equal or a wildcard |
| HostRouting.HostMatches | waf/waf.go:151-161 | some pattern of the route fits |
| HostRouting.FindTarget | waf/waf.go:120-132 | the first fitting route, the default endpoint without routes, or none |
| HostRouting.FirstFitIs | waf/waf.go:126-131 | that route is the one before which none fits |
| HostRouting.InspectMeaning | waf/waf.go:81-91 | an error without a method, no question asked if no route fits, else AppSec's reply |
| HostRouting.PortIgnoredIff | waf/waf.go:144-149 | a port leaves the normalised host as it is exactly for texts free of colons and brackets; among hosts without a port, exactly unless they start with a bracket |
| HostRouting.NameNormalForms | waf/waf.go:144-149 | a name is lower-cased, with or without a port |
| HostRouting.LiteralRouteMissed | waf/waf.go:81-149 | a route for a bracketed IPv6 literal is inspected without a port and allowed uninspected with one |
| HostRouting.NormalFormIff | waf/waf.go:144-149 | a lower-case text is some request host's normal form exactly if it is bracket-free or not of the form host:port |
| HostRouting.NewRoutes | waf/waf.go:60-67 | each route has its configured path and port, and each host lower-cased and cut into labels |
| HostRouting.OverlapIffSharedHost | waf/waf.go:151-173 | two configured patterns overlap exactly if some normalised host fits both |
| HostRouting.OverlapIffRequestHost | waf/waf.go:144-173 | for raw request hosts and all patterns: some host fits both exactly if they overlap and the host they pin, if they pin one, is a normal form |
| HostRouting.OrderIrrelevantIff | waf/waf.go:120-149 | the order of configured routes matters for no request host exactly if routes to different endpoints share none |
| HostRouting.LiteralFitsItself | waf/waf.go:163-173 | a pattern without wildcards fits exactly its own lower-cased host |
| HostRouting.Validate | config/config.go:127-152 | accepts exactly complete routes whose hosts differ beyond case, and otherwise names the first fault |
| HostRouting.ValidLiteralsSeparate | config/config.go:135-150 | validated literal routes may be listed in any order |
| UsageMetrics.MetricsService.Inc | pkg/crowdsec/metrics.go:100-112 | adds one, keeping existing metadata |
| UsageMetrics.MetricsService.Dec | pkg/crowdsec/metrics.go:118-133 | subtracts one, never below zero |
| UsageMetrics.MetricsService.Report | pkg/crowdsec/metrics.go:259-263 | the report is the whole cache; a sent report clears it, a failed one loses nothing |
| UsageMetrics.IncrementsConserved | pkg/crowdsec/metrics.go:247-265 | increments of a counter = sent + current value + those landing between a sent report's snapshot and its clear, for every interleaving in which none of that counter's increments race |
| UsageMetrics.AlwaysConservedIff | pkg/crowdsec/metrics.go:100-265 | the books of a counter balance at every moment of a run if and only if every write of that counter finds the value it read |
| UsageMetrics.WriteAddsOneIff | pkg/crowdsec/metrics.go:100-112 | an increment counts once exactly if the counter still holds what it read |
| UsageMetrics.RacingIncrementsExample | pkg/crowdsec/metrics.go:100-112 | two overlapping increments counted as one |
| UsageMetrics.IncIsSerial | pkg/crowdsec/metrics.go:100-112 | an uninterrupted read and write of the interleaved counters is one Inc of the service |
| UsageMetrics.ReportIsSerial | pkg/crowdsec/metrics.go:247-265 | an undisturbed round of the reporter is one Report: the snapshot has every counter, and a sent one clears them all |
| Webhooks.BuildSubsByEvent | webhook/webhook.go:48-62 | each type gets its distinct URLs in first-mention order |
| Webhooks.DistinctMeaning | webhook/webhook.go:56-58 | no URL twice, none missing |
| Webhooks.SubscriberMeaning | webhook/webhook.go:48-62 | a URL is notified of a type exactly if some subscription to it lists the type's name |
| Webhooks.SubscribersKeepOrder | webhook/webhook.go:48-62 | in order of first mention, earlier subscriptions first |
| Webhooks.NamesRoundTrip | webhook/webhook.go:64-75 | exactly the five names are known, each for its own type |
| Webhooks.AnnouncedAs | webhook/webhook.go:124-137 | which actions are announced, and as what |
| Webhooks.Service.Enqueue | webhook/webhook.go:116-122 | appended if there is room, dropped exactly if the buffer is full |
| Webhooks.Service.NotifyCheckedRequest | webhook/webhook.go:88-97 | offers the event of a checked request |
| Webhooks.CheckedEventMeaning | webhook/webhook.go:88-160 | at most one, if the action is announced and its type has subscribers, with the request's own IP, action and reason |
| Webhooks.Service.NotifyCaptchaVerified | webhook/webhook.go:99-110 | likewise for a solved captcha |
| Webhooks.Service.Dispatch | webhook/webhook.go:164-176 | one attempt for each URL of the event's type, in order |
| Webhooks.Service.DispatchNext | webhook/webhook.go:77-176 | the oldest event goes once to each of its URLs in order; dispatched then queued events stay a subsequence of the notifications, and accepted + dropped = notified |
| Pipeline.Bouncer.Check | bouncer/bouncer.go:403-589 | the result is Decide's, one final metric is recorded under its action, and the WAF request, WAF error and captcha error counters grow as Recorded says |
| Pipeline.Bouncer.CheckAll | bouncer/bouncer.go:403-463 | the results, counters and usage metrics after any number of requests served one after the other |
| Pipeline.ExemptedIff | bouncer/bouncer.go:322-333 | a request is exempt exactly if its address parses and lies, bit by bit, in an exempt range |
| Pipeline.AllowedIff | bouncer/bouncer.go:403-659 | for every configuration and outcome, the exact condition for answering OK |
| Pipeline.AdmittedIff | bouncer/bouncer.go:403-659 | the same with the captcha service's session check and AppSec's host routes put in |
| Pipeline.RedirectedIff | bouncer/bouncer.go:511-533 | exactly when a request is sent to a challenge page, and to which |
| Pipeline.RedirectLocation | bouncer/bouncer.go:511-533 | the page is the captcha service's challenge page with a fresh token for this IP and URL |
| Pipeline.BannedIff | bouncer/bouncer.go:403-659 | exactly when a request is banned: locally, by AppSec, or for its challenge path |
| Pipeline.BanAnswer | bouncer/bouncer.go:504-589 | the proxy then denies it with the configured status, or 403 |
| Pipeline.LocalBanReason | bouncer/bouncer.go:487-494 | a local ban records its decision and its scenario, or "crowdsec ban" |
| Pipeline.WAFBanReason | bouncer/bouncer.go:555-655 | the reason recorded of a ban by the WAF stage |
| Pipeline.AllowedAnswer | bouncer/bouncer.go:591-644 | an allowed request carries AppSec's headers and cookies exactly if AppSec allowed it, and none otherwise |
| Pipeline.AllowedReason | bouncer/bouncer.go:403-659 | and the reason recorded for it |
| Pipeline.ExemptAnswer | bouncer/bouncer.go:408-413 | the result of an exempt request |
| Pipeline.SolveReason | bouncer/bouncer.go:511-533 | the reason and decision recorded of a request sent to a captcha |
| Pipeline.UnknownReason | bouncer/bouncer.go:458-461 | the result for an AppSec action outside its vocabulary |
| Pipeline.NoBouncer | server/server.go:361-364 | without a bouncer every request is denied with status 500 |
| Pipeline.InternalIff | server/server.go:386-389 | exactly an AppSec action outside its vocabulary is an internal error |
| Pipeline.HasKindMeaning | bouncer/bouncer.go:484-497 | decision types are compared without regard to case |
| Pipeline.ChallengedIff | bouncer/bouncer.go:555-583 | exactly when AppSec's own challenge is shown |
| Pipeline.ChallengeAnswer | bouncer/bouncer.go:606-640 | with its status, or that of a ban if it has none, its body, headers and cookies |
| Pipeline.UnavailableIff | bouncer/bouncer.go:429-457 | exactly when the proxy is told the check failed |
| Pipeline.UnavailableReason | bouncer/bouncer.go:465-659 | and with which reason |
| Pipeline.FailOpenIsMarked | bouncer/bouncer.go:650-659 | an allowed request carries the reason waf-unavailable exactly if the WAF gave no verdict |
| Pipeline.BanAndErrorAreFinal | bouncer/bouncer.go:415-437 | a local ban is denied with the ban status and a failed lookup is unavailable, whatever the other components say |
| Pipeline.LiveBanIsDenied | bouncer/bouncer.go:465-502 | after any well-formed decision stream, an address with a live ban, or whose most specific live range bans, is denied |
| Pipeline.RequestsCounted | bouncer/bouncer.go:221-463 | over any run of Check from any counters, each action's counter grows by the requests that ended in it, and all together by the number of requests |
| Pipeline.InspectionsCounted | bouncer/bouncer.go:535-651 | inspected requests = WAF requests counted + those AppSec did not answer, and WAF errors = unanswered + error replies |
| Pipeline.ErrorsAccounted | bouncer/bouncer.go:415-659 | requests ending in an error = failed lookups + captcha errors + WAF errors, less the WAF errors let through or banned on a challenge path |
| Pipeline.UsageCounted | bouncer/bouncer.go:224-229 | over requests served one after the other with no report sent, each of the four usage counters grows by the requests that ended in its action, and no other metric changes |
| Pipeline.UsageMeaning | bouncer/bouncer.go:82-111 | the key, name and labels each action is reported under, and that other actions are not |

## Left out

- HTTP and gRPC serving, TLS, CORS, the rate limiter, templates and denied pages, logging, configuration loading and the command line: no modelled state.
- The LAPI stream client, the captcha providers' HTTP calls and AppSec's HTTP exchange: each is an arbitrary outcome.
- Token encoding and HMAC: replaced by the ideal signature described above. Signatures made with the same key by an earlier process are not modelled.
- Lower-casing and label comparison outside ASCII; Go's Unicode case mapping is not modelled.
- Endpoint URLs of routes beyond their path and port fields; JoinPath and port rewriting are library calls.
- Header and cookie extraction from the request: the model starts from the extracted values.
- The readiness latch of the health server and the Prometheus histograms and timestamps: easy members.
- Webhook body, signature and HTTP outcome: a delivery is one attempt.
- UsageMetrics.MetricsService.Inc: the counter is an unbounded integer, so 64-bit wrap-around is not modelled.
- DecisionCache.Cache.Sync: a run covers the messages up to the closing of the stream or the context; the stream itself is a parameter.
- CaptchaRaces.GrantsBounded: the interleaved system is stated with replay protection on; without it there is no check to race.
