# Gateway policies: a model and its proofs

The repository is a set of API gateway policies written in Go. This project models the seven pieces of it
that hold a state machine, a shared cache or a codec, and proves what they promise over all inputs, runs and
interleavings.

| Part | Modules | Main results |
|---|---|---|
| JWT verdict cache | `CanonicalEncoding`, `ConfigHashing`, `TokenKey`, `VerdictCache` | the configuration encoding is prefix-free and injective; the encoder with its shared scratch stack writes exactly that encoding; the key determines everything a verdict depends on; in every interleaving a hit says what full verification would say now |
| Rate limiting | `CostSources`, `RatePhases`, `RateLedger`, `RateLimitPolicy`, `SseCost` | nothing is charged twice; accepted requests are charged exactly what is due; streamed and buffered responses cost the same |
| Limiter caches | `LimiterLedger`, `LimiterCaches`, `BudgetLimiters` | exact reference counts over every run of reloads, with an exact account of leaked references |
| Budget routing | `BudgetRouting`, `BudgetSpend` | the selection follows its documented rule; overshoot under concurrency is bounded; at most one charge per request |
| Event-stream decoder | `EventStream` | succeeds on exactly the encodings of non-empty frame lists, and inverts them |
| ACL filter | `Lines`, `SseEvents`, `AclFilter` | exact round trip of the server-sent-event printer and parser; a named entry is listed exactly if a call to it passes |
| JSON/XML conversion | `Conversion`, `XmlToJson` | success exactly within the depth and element budget, whatever the map order |
| Unambiguous members | `UnambiguousMembers` | an accepted document reads the same to every kind of reader |

`Common`, `Sequences`, `Bytes` and `SortedStrings` hold what these share.

## Conventions

- Time is integer nanoseconds, costs are reals, bytes are integers below 256, strings are sequences of characters.
- Outside code is a function parameter: the hash, signature checking, JSON and XML libraries, JSONPath, CEL,
  `strings.TrimSpace`, `strings.EqualFold`, letter classification. Laws are assumed of one only where stated:
  no collision on the preimages in play; a decoded JSON object that, with its list filtered, marshals to one line and reads
  back; decoding that fails on blank text and ignores a carriage return at a line end; folding that is reflexive.
- Go's map order is an arbitrary choice (`:|`) in each loop; results are proved the same for every choice.
- A failure that Go reports as an error is an `Option` or a flag, never a precondition.
- Objects that the code updates in place are classes; each method is tied to a function of the old state.

## Where the code does not do what one might expect

- A negative `leeway` together with a positive `tokenCacheTtl` lets a hit accept a token that verification refuses by
  then: `VerdictCache.UntrustedHit` builds the run, and `Trusted` is the exact condition.
- Reprinting a filtered SSE body loses events without fields and data, and carriage returns left at the end of a
  line: `AclFilter.SecretListing` is such a body; `SseEvents.RoundTrip` and `AclFilter.DeliveredEvents` give the exact
  conditions. The filtering itself holds all the same: `AclFilter.DeliveredPermitted`.
- Two quotas with the same cache key, or a creation that fails halfway, leak references, and the limiter is then
  never closed: `LimiterLedger.RepeatedKeyLeaks`, `LimiterLedger.HalfwayLeaks`, `LimiterLedger.LeakedForever`;
  `LimiterLedger.ExactIff` is the exact condition.
- A quota whose request cost comes only from headers is skipped by the body phase even when the header phase left it
  out, as it does with every CEL key: `RateLedger.CelHeaderCostSkipped`. A standard quota left to the body phase is skipped
  if a quota of the same name was settled in the header phase: `RateLedger.SharedNameSkips`. `RateLedger.RequestExactIff` is the
  exact condition for both.
- Quotas that need the body and share a name append every chunk several times to one accumulator:
  `RateLedger.NamesakesPayDouble`; `RateLedger.StreamedIsBufferedIff` is the exact condition.

## Model

| member | source | states |
|---|---|---|
| `CanonicalEncoding.PrefixFree` | policies/jwt-auth/jwtauth.go:350-422 | if the encodings of two decoded values, each followed by anything, read the same, the values are the same, numbers compared by their float64 bits, and so is what follows |
| `CanonicalEncoding.FieldPrefixFree` | policies/jwt-auth/jwtauth.go:356-359 | a length-prefixed string can be read off the front of any bytes in one way only |
| `CanonicalEncoding.EncodeCanonical` | policies/jwt-auth/jwtauth.go:375-422 | the encoding of a number depends on its float64 bits and not on the Go type it arrived as |
| `CanonicalEncoding.InjectiveUpToNumberKind` | policies/jwt-auth/jwtauth.go:364-422 | two values have one encoding if and only if they agree, numbers compared by their float64 bits |
| `SortedStrings.SortIgnoresOrder` | policies/jwt-auth/jwtauth.go:400-408 | whatever order a map yields its keys in, sorting them gives the same list |
| `SortedStrings.SortedUnique` | policies/jwt-auth/jwtauth.go:400-408 | a set of keys has one strictly sorted listing |
| `ConfigHashing.ConfigHasher.AppendField` | policies/jwt-auth/jwtauth.go:356-359 | appends the length-prefixed string and nothing else |
| `ConfigHashing.ConfigHasher.PushSortedKeys` | policies/jwt-auth/jwtauth.go:400-408 | pushes the sorted keys above the live stack, in place or in a new array, leaving the older keys as they were |
| `ConfigHashing.ConfigHasher.AppendValue` | policies/jwt-auth/jwtauth.go:375-422 | appends exactly the encoding of the value and leaves the shared scratch stack as it found it, although nested maps push and pop on it |
| `ConfigHashing.ConfigHasher.AppendListed` | policies/jwt-auth/jwtauth.go:400-414 | the loop over a slice taken once, while deeper maps push onto the same array, writes the members in sorted order |
| `TokenKey.HexInjective` | policies/jwt-auth/jwtauth.go:432-454 | different digests have different hexadecimal forms |
| `TokenKey.FingerprintInputInjective` | policies/jwt-auth/jwtauth.go:463-480 | the fingerprint's preimage determines the digest, the issuer flag, the issuer list, the leeway and both TTLs |
| `TokenKey.CacheKeyDetermines` | policies/jwt-auth/jwtauth.go:432-487 | barring a collision on these preimages, two keys are equal if and only if the configurations agree canonically and the tokens are equal |
| `TokenKey.BuildCacheKey` | policies/jwt-auth/jwtauth.go:432-487 | the key built through the hashers is that key |
| `VerdictCache.JwtAuthPolicy.GetCachedVerdict` | policies/jwt-auth/jwtauth.go:277-298 | returns a live entry, deletes an expired one, and touches nothing else |
| `VerdictCache.JwtAuthPolicy.PutVerdict` | policies/jwt-auth/jwtauth.go:302-310 | stores the verdict; anything may be evicted |
| `VerdictCache.JwtAuthPolicy.EnsureTokenCache` | policies/jwt-auth/jwtauth.go:242-265 | a changed size empties the cache, an unchanged one leaves it alone |
| `VerdictCache.AcceptedIff` | policies/jwt-auth/jwtauth.go:534-580 | verification accepts a token if and only if it parses, some key manager is configured, the signature is good and the clock is inside the window that `nbf`, `exp` and the leeway leave open |
| `VerdictCache.FirstReason` | policies/jwt-auth/jwtauth.go:2525-2598 | which of the policy's own checks answers: the first of missing key managers, malformed, expired, not yet valid |
| `VerdictCache.LeewayWidens` | policies/jwt-auth/jwtauth.go:534-580 | a larger leeway accepts everything that a smaller one accepts |
| `VerdictCache.SealedUntil` | policies/jwt-auth/jwtauth.go:2600-2625 | an acceptance lives for the token TTL but not past `exp` less the leeway, a refusal for the negative TTL |
| `VerdictCache.SealHolds` | policies/jwt-auth/jwtauth.go:2543-2629 | a verdict sealed at the sooner of the TTL and `exp - leeway` agrees with full verification for as long as it lives |
| `VerdictCache.StepHolds` | policies/jwt-auth/jwtauth.go:2335-2368 | every step of every concurrent request, every eviction and every tick keeps the invariant of cache and requests in flight |
| `VerdictCache.HitIsCurrent` | policies/jwt-auth/jwtauth.go:2335-2368 | in every run a hit returns the outcome, claims and scopes of full verification at hit time, for every trusted configuration, and is younger than the serving route's own TTL |
| `VerdictCache.HashedKeyFits` | policies/jwt-auth/jwtauth.go:432-487 | the policy's own key meets the hypothesis of that theorem when the hash does not collide on the requests at hand |
| `VerdictCache.UntrustedHit` | policies/jwt-auth/jwtauth.go:2543-2629 | for every configuration that is not trusted and every expiry second, a run whose hit accepts a token that the policy's own expiry check refuses at that moment |
| `VerdictCache.Authenticate` | policies/jwt-auth/jwtauth.go:2335-2629 | one request from the cache boundary on answers with the live entry if caching finds one, which for a trusted configuration is what verification says at the lookup, and otherwise with the outcome of the checks; it writes exactly the malformed and expired verdicts and the acceptances with time left, and keeps every entry sound |
| `EventStream.HeaderUnique` | policies/llm-cost/bedrock_eventstream.go:197-242 | at most one header is encoded at the front of any bytes |
| `EventStream.EventType` | policies/llm-cost/bedrock_eventstream.go:197-242 | succeeds on exactly the packed header blocks and returns the last string header named `:event-type` |
| `EventStream.FrameUnique` | policies/llm-cost/bedrock_eventstream.go:163-194 | at most one frame is encoded at the front of any bytes |
| `EventStream.NextFrame` | policies/llm-cost/bedrock_eventstream.go:163-194 | one turn of the loop finds the frame at the front if and only if there is one, and consumes exactly its bytes |
| `EventStream.StreamUnique` | policies/llm-cost/bedrock_eventstream.go:163-194 | bytes are the encoding of at most one frame list |
| `EventStream.DecodeFrames` | policies/llm-cost/bedrock_eventstream.go:163-194 | succeeds if and only if the bytes encode some non-empty frame list, and then reports its event types and payloads in order |
| `EventStream.EventTypeIsLast` | policies/llm-cost/bedrock_eventstream.go:197-242 | the event type is the value of the last string header of that name |
| `EventStream.ValueTypes` | policies/llm-cost/bedrock_eventstream.go:205-236 | the lengths of the ten header value types and the limits of the format |
| `EventStream.MetadataBytes` | policies/llm-cost/bedrock_eventstream.go:163-242 | a frame with one header, byte by byte, and what it decodes to |
| `SseEvents.ParseEventStream` | policies/mcp-acl-list/mcp-acl-list.go:280-317 | the loop computes the specification parser |
| `SseEvents.BuildEventStream` | policies/mcp-acl-list/mcp-acl-list.go:319-336 | the loop prints the lines of every event, each closed by a blank line |
| `SseEvents.ParsedShaped` | policies/mcp-acl-list/mcp-acl-list.go:280-317 | whatever the bytes, a parsed field is a non-empty line that is not data |
| `SseEvents.ParseBuild` | policies/mcp-acl-list/mcp-acl-list.go:280-336 | parsing what was printed gives the events that have content, if no line ends in a carriage return |
| `SseEvents.RoundTrip` | policies/mcp-acl-list/mcp-acl-list.go:280-336 | printing then parsing gives the events back if and only if every one of them is printable |
| `SseEvents.ReprintedData` | policies/mcp-acl-list/mcp-acl-list.go:280-336 | printable or not, the data of every event parsed from a printed stream is empty or the data of a printed event without the carriage returns at its line ends |
| `SseEvents.OptionalSpace` | policies/mcp-acl-list/mcp-acl-list.go:280-317 | a stream written with or without the optional space after `data:` parses to the same events |
| `SseEvents.OneDataLine` | policies/mcp-acl-list/mcp-acl-list.go:304-309 | one data line, with the space or without, is one event with exactly that text |
| `SseEvents.CrlfIsLf` | policies/mcp-acl-list/mcp-acl-list.go:298-303 | lines that end in a carriage return and a line feed parse like lines that end in a line feed |
| `SseEvents.UnfinishedEvent` | policies/mcp-acl-list/mcp-acl-list.go:310-315 | the end of the body ends the last event too |
| `AclFilter.SharedContext.Govern` | policies/mcp-acl-list/mcp-acl-list.go:524-569 | writes the two metadata notes for a parsed method and decides as the rule says |
| `AclFilter.FilterListItems` | policies/mcp-acl-list/mcp-acl-list.go:213-252 | keeps exactly the permitted entries, in order, and reports a change if and only if one was dropped |
| `AclFilter.ListedIffCallable` | policies/mcp-acl-list/mcp-acl-list.go:202-252 | a named entry survives if and only if a call to it would pass |
| `AclFilter.CallsRuled` | policies/mcp-acl-list/mcp-acl-list.go:524-569 | each of the three calls is ruled by its own section, by mode and exceptions, and no other method is |
| `AclFilter.EntrySurvives` | policies/mcp-acl-list/mcp-acl-list.go:202-252 | an entry is judged by its `uri` in a resource list and by its `name` otherwise, and without one survives only where the mode is allow |
| `AclFilter.FilterAll` | policies/mcp-acl-list/mcp-acl-list.go:603-653 | filters the data of every event in place and reports whether any was replaced |
| `AclFilter.FilterStream` | policies/mcp-acl-list/mcp-acl-list.go:572-653 | leaves the body alone unless something was replaced, and then returns the printed filtered events |
| `AclFilter.DeliveredEvents` | policies/mcp-acl-list/mcp-acl-list.go:572-653 | for a codec that can write back what it decoded, the client parses exactly the upstream events with their lists filtered if and only if nothing was reprinted or every event survives reprinting |
| `AclFilter.FilteredLists` | policies/mcp-acl-list/mcp-acl-list.go:603-653 | every filtered list is the upstream list of that event at the increasing positions of its permitted entries |
| `AclFilter.OnlyListChanges` | policies/mcp-acl-list/mcp-acl-list.go:623-645 | of a replaced payload nothing but the list is different |
| `AclFilter.NoListNoChange` | policies/mcp-acl-list/mcp-acl-list.go:610-631 | errors and payloads without a list of the family are passed on as they came |
| `AclFilter.DeliveredPermitted` | policies/mcp-acl-list/mcp-acl-list.go:572-653 | for every upstream body, reprintable or not, no list that the client can parse out of the delivered body holds a forbidden entry |
| `AclFilter.SecretListing` | policies/mcp-acl-list/mcp-acl-list.go:603-653 | a literal body with one list that shrinks and one event with empty data: the client does not get the second event |
| `AclFilter.ListingCodecLawful` | policies/mcp-acl-list/mcp-acl-list.go:603-653 | the part of the JSON library that this body needs meets what is assumed of the codec |
| `Conversion.Budget.Consume` | policies/json-xml-mediator/jsonxmlmediation.go:73-79 | takes one from the allowance, and fails without change when none is left |
| `Conversion.CountMembersAny` | policies/json-xml-mediator/jsonxmlmediation.go:264-278 | an object's element count does not depend on the order its keys are taken in |
| `Conversion.SanitizeTagName` | policies/json-xml-mediator/jsonxmlmediation.go:298-330 | the loop computes the sanitized name |
| `Conversion.SanitizedIsValid` | policies/json-xml-mediator/jsonxmlmediation.go:298-339 | every sanitized name is a valid one |
| `Conversion.SanitizeUnchanged` | policies/json-xml-mediator/jsonxmlmediation.go:298-339 | a name is unchanged if and only if it was valid |
| `Conversion.RepresentsSize` | policies/json-xml-mediator/jsonxmlmediation.go:234-296 | a tree that represents a value has exactly the value's element count |
| `Conversion.RepresentsDepth` | policies/json-xml-mediator/jsonxmlmediation.go:234-296 | the nesting that is checked is the height of the tree |
| `Conversion.RepeatedMember` | policies/json-xml-mediator/jsonxmlmediation.go:264-278 | an array member becomes one element for each item, under the member's key |
| `Conversion.SanitizeAt` | policies/json-xml-mediator/jsonxmlmediation.go:298-339 | every later character of a name stands for itself if it is valid and for an underscore if not |
| `Conversion.RenamedKey` | policies/json-xml-mediator/jsonxmlmediation.go:234-249 | a key that is no name is renamed and kept as the original key |
| `Conversion.KeptKey` | policies/json-xml-mediator/jsonxmlmediation.go:234-249 | a valid key keeps its name and needs no original; the empty key is named "empty" |
| `Conversion.BuildElement` | policies/json-xml-mediator/jsonxmlmediation.go:234-296 | succeeds if and only if the value fits the remaining depth and allowance, debits exactly its count and builds a tree that represents it, whatever the map order |
| `Conversion.ConvertJson` | policies/json-xml-mediator/jsonxmlmediation.go:215-296 | succeeds if and only if there are at most 100000 elements nested at most 256 deep; the tree has exactly that many elements and is at most that high |
| `XmlToJson.GroupsTotal` | policies/json-xml-mediator/jsonxmlmediation.go:401-405 | grouping children by name loses no node and hides no depth |
| `XmlToJson.GroupValues` | policies/json-xml-mediator/jsonxmlmediation.go:401-428 | converting a group gives the values its name has in document order |
| `XmlToJson.ProcessNode` | policies/json-xml-mediator/jsonxmlmediation.go:378-439 | succeeds if and only if the node fits the remaining depth and allowance, debits exactly its node count and returns its conversion |
| `XmlToJson.ProcessGroups` | policies/json-xml-mediator/jsonxmlmediation.go:407-428 | visiting the groups in any order succeeds, debits and returns the same |
| `XmlToJson.ConvertXml` | policies/json-xml-mediator/jsonxmlmediation.go:364-439 | succeeds if and only if there are at most 100000 nodes and the tree is at most 256 high; the result does not depend on the map order |
| `XmlToJson.ChildIsFound` | policies/json-xml-mediator/jsonxmlmediation.go:407-428 | a child's value is found under its name, alone or behind its earlier namesakes in the list |
| `XmlToJson.AttributeIsFound` | policies/json-xml-mediator/jsonxmlmediation.go:396-398 | an attribute is found under its name with `@` in front |
| `XmlToJson.TextIsFound` | policies/json-xml-mediator/jsonxmlmediation.go:387-432 | text is under `#text` beside attributes and children, and is the whole value without them |
| `XmlToJson.NothingElse` | policies/json-xml-mediator/jsonxmlmediation.go:394-438 | the record holds nothing but children, attributes and text |
| `UnambiguousMembers.UnambiguousIffReadersAgree` | policies/mcp-auth/request_validation.go:76-105 | a name is unambiguous if and only if exact and folding, first-wins and last-wins readers all take the same member for it |
| `UnambiguousMembers.CheckSpelling` | policies/mcp-auth/request_validation.go:76-105 | accepts an object if and only if each of the names is unambiguous in it |
| `UnambiguousMembers.Validate` | policies/mcp-auth/request_validation.go:107-141 | accepts a document if and only if every name the decision reads is unambiguous where it is read |
| `UnambiguousMembers.DecodedIsRead` | policies/mcp-auth/mcp-auth.go:586-592 | in a document that names its method unambiguously, the decoded method is the one every reader reads |
| `UnambiguousMembers.IsAuthRequired` | policies/mcp-auth/mcp-auth.go:290-337 | tool calls, resource reads and prompt gets are judged by the capability in their own section, every other method by its name in the methods section; exceptions invert the section's default |
| `UnambiguousMembers.SectionDecides` | policies/mcp-auth/mcp-auth.go:290-310 | configurations that agree on the method's section decide alike |
| `UnambiguousMembers.RequiredForCall` | policies/mcp-auth/mcp-auth.go:600-612 | every kind of reader judges a request for a capability by its `uri` for resource reads and its `name` for the other two, in the right section |
| `UnambiguousMembers.ReadersAgree` | policies/mcp-auth/mcp-auth.go:586-617 | on an accepted document every kind of reader reaches the same answer |
| `UnambiguousMembers.Decide` | policies/mcp-auth/mcp-auth.go:586-617 | refuses exactly the bodies that are not a JSON object, have a method, params, name or uri of the wrong type, or are ambiguous, and otherwise decides as every kind of reader would |
| `CostSources.HasRequestHeaderOnlyCostSources` | policies/advanced-ratelimit/cost_extractor.go:607-624 | true if and only if there is a request header source and no other request-phase source |
| `CostSources.HasResponseHeaderOnlyCostSources` | policies/advanced-ratelimit/cost_extractor.go:582-599 | true if and only if there is a response header source and no other response-phase source |
| `CostSources.DeferredNeedsBody` | policies/advanced-ratelimit/cost_extractor.go:562-635 | a quota has request sources that are not all headers if and only if it needs the body phase |
| `CostSources.ExtractCost` | policies/advanced-ratelimit/cost_extractor.go:78-187 | the loop computes the weighted sum over the phase's sources, the default when none yields a value, never less than zero |
| `CostSources.TotalAppend` | policies/advanced-ratelimit/cost_extractor.go:91-125 | every source counts: the total of two lists is the sum of their totals |
| `CostSources.TotalSingle` | policies/advanced-ratelimit/cost_extractor.go:104-110 | one source contributes its value times its multiplier |
| `CostSources.CostSwap` | policies/advanced-ratelimit/cost_extractor.go:91-125 | swapping two sources with their values leaves the cost unchanged |
| `CostSources.CostIs` | policies/advanced-ratelimit/cost_extractor.go:127-137 | the default stands in exactly when no source of the phase yields a value, and a negative cost is none |
| `CostSources.TokensAddUp` | policies/advanced-ratelimit/cost_extractor.go:138-187 | prompt and completion tokens are added up |
| `CostSources.CostReads` | policies/advanced-ratelimit/cost_extractor.go:78-187 | the cost depends only on the sources of the phase |
| `SseCost.ParseChunk` | policies/advanced-ratelimit/cost_extractor.go:499-542 | reads the complete lines of a chunk, the last match winning, and leaves the unfinished one |
| `SseCost.ExtractFromBody` | policies/advanced-ratelimit/cost_extractor.go:448-484 | the last match over all lines of the body, the last one included |
| `SseCost.FoldIsOnePass` | policies/advanced-ratelimit/cost_extractor.go:486-542 | for every way of cutting a body into chunks, folding with the carried remainder gives the match and remainder of one pass |
| `SseCost.FoldIsBuffered` | policies/advanced-ratelimit/cost_extractor.go:448-542 | with the remainder read as a last line, the fold gives the buffered extraction of the whole body |
| `SseCost.LastCostIs` | policies/advanced-ratelimit/cost_extractor.go:448-484 | the cost found is that of a line after which no line has one; none is found only if no line has one |
| `SseCost.LineCostIs` | policies/advanced-ratelimit/cost_extractor.go:452-475 | what a line is worth: the extraction of a data line, of a trimmed event line, nothing for the terminator, empty values and all other lines, with any carriage returns after it |
| `RateLimitPolicy.RequestContext.OnRequestHeaders` | policies/advanced-ratelimit/ratelimit.go:1330-1501 | charges the quotas in order up to a rejection; records keys and settled quotas only when it accepts |
| `RateLimitPolicy.RequestContext.OnRequestBody` | policies/advanced-ratelimit/ratelimit.go:1628-1861 | does nothing unless some quota needs the body; otherwise charges what the header phase left and replaces the keys |
| `RateLimitPolicy.RequestContext.OnResponseHeaders` | policies/advanced-ratelimit/ratelimit.go:1866-2042 | charges the quotas whose response cost is in headers only |
| `RateLimitPolicy.RequestContext.OnResponseBody` | policies/advanced-ratelimit/ratelimit.go:2101-2214 | charges the other quotas with response costs, on the buffered body; the guard in front leaves out nobody |
| `RateLimitPolicy.RequestContext.OnResponseBodyChunk` | policies/advanced-ratelimit/ratelimit.go:2422-2482 | keeps every accumulator at what its quotas appended, and charges at the end of the stream only |
| `RateLimitPolicy.RequestContext.Finalize` | policies/advanced-ratelimit/ratelimit.go:2505-2620 | charges each quota on the body found under its name |
| `RateLimitPolicy.Serve` | policies/advanced-ratelimit/ratelimit.go:1330-2620 | a whole request is charged its request half and, if accepted, its response half |
| `RateLedger.RequestAtMostOnce` | policies/advanced-ratelimit/ratelimit.go:1330-1861 | with errors, rejections and repeated names, the request half charges a quota at most once |
| `RateLedger.RequestExactIff` | policies/advanced-ratelimit/ratelimit.go:1330-1861 | an accepted, error-free request charges a quota exactly what it owes, once, if and only if the quota is not mistaken for a namesake and does not fall between the phases |
| `RateLedger.RequestExactlyOnce` | policies/advanced-ratelimit/ratelimit.go:1330-1861 | with distinct names, a quota is charged its unit or its positive request cost exactly once if and only if it does not fall between the phases |
| `RateLedger.AcceptedIff` | policies/advanced-ratelimit/ratelimit.go:1330-1861 | with distinct names a request is accepted if and only if every quota admits it in each phase it takes part in, limiter errors included |
| `RateLedger.FailsOpen` | policies/advanced-ratelimit/ratelimit.go:1408-1417 | while all limiters fail nothing is charged, and a fail-open policy accepts everything |
| `RateLedger.FailsClosed` | policies/advanced-ratelimit/ratelimit.go:1408-1417 | while all limiters fail, a fail-closed policy refuses whatever a quota applies to |
| `RateLedger.HeadersSuffice` | policies/advanced-ratelimit/ratelimit.go:1099-1115 | without CEL keys and with request costs in headers only, the body phase changes nothing |
| `RateLedger.OneRequestSource` | policies/advanced-ratelimit/cost_extractor.go:318-341 | what one request header source costs, read in either phase |
| `RateLedger.OneResponseSource` | policies/advanced-ratelimit/cost_extractor.go:189-203 | what one response source costs: headers as they are, body sources on the body |
| `RateLedger.UnnamedDiffer` | policies/advanced-ratelimit/ratelimit.go:594-599 | quotas without a name of their own never share one |
| `RateLedger.CelHeaderCostNeverCharged` | policies/advanced-ratelimit/ratelimit.go:1344-1358 | a CEL-keyed quota with header-only request cost is never charged in the request half, errors and rejections included |
| `RateLedger.CelHeaderCostSkipped` | policies/advanced-ratelimit/ratelimit.go:1344-1358 | a request with a header cost of five and a CEL-keyed quota: five units are owed, the request is accepted, nothing is charged |
| `RateLedger.SharedNameSkips` | policies/advanced-ratelimit/ratelimit.go:1819-1828 | two standard quotas of one name, the second CEL-keyed: the second owes a unit and is not charged |
| `RateLedger.ResponseAtMostOnce` | policies/advanced-ratelimit/ratelimit.go:1866-2620 | the response half charges a quota at most once, buffered or streamed |
| `RateLedger.AccumulatesBody` | policies/advanced-ratelimit/ratelimit.go:2446-2482 | for every chunking, a quota's accumulator equals the whole body if and only if exactly one quota of its name needs the body, or the body is empty |
| `RateLedger.StreamedIsBuffered` | policies/advanced-ratelimit/ratelimit.go:2138-2620 | for every chunking each quota is charged under the same key and for the same cost as by the buffered path |
| `RateLedger.StreamedIsBufferedIff` | policies/advanced-ratelimit/ratelimit.go:2138-2620 | a quota with a body source that counts is charged the same by both paths for every response if and only if exactly one quota of its name needs the body, or the body is empty |
| `RateLedger.NamesakesPayDouble` | policies/advanced-ratelimit/ratelimit.go:2446-2482 | two namesake quotas and a stream of one character: two units charged where the buffered path charges one |
| `RateLedger.ResponseExactlyOnce` | policies/advanced-ratelimit/ratelimit.go:1866-2620 | with distinct names an accepted request's response half charges each quota its cost on the whole content, once, under the key the request phases recorded |
| `LimiterCaches.LimiterCache.Reconcile` | policies/advanced-ratelimit/ratelimit.go:373-463 | a (re)load moves the cache as the ledger says, fails exactly when a needed limiter cannot be created, and hands out the limiters then cached |
| `LimiterCaches.LimiterCache.ReleaseStale` | policies/advanced-ratelimit/ratelimit.go:437-459 | whatever the order, drops one reference of each stale key and closes the limiters that had no other |
| `LimiterLedger.RunLimiters` | policies/advanced-ratelimit/ratelimit.go:363-463 | in every reachable state the limiters in the map are open, referenced and one key's each, and no limiter is lost unclosed |
| `LimiterLedger.RunCounts` | policies/advanced-ratelimit/ratelimit.go:363-463 | in every reachable state a count is the number of buckets tracking the key plus the references leaked so far |
| `LimiterLedger.TrackedIsOpen` | policies/advanced-ratelimit/ratelimit.go:363-463 | a tracked key is present and open and counted at least once per tracking bucket, even after failed builds |
| `LimiterLedger.ExactIff` | policies/advanced-ratelimit/ratelimit.go:377-429 | a count is exactly the number of tracking buckets if and only if no build so far took a reference to the key in vain |
| `LimiterLedger.HarmlessExact` | policies/advanced-ratelimit/ratelimit.go:377-459 | if no creation fails and no build repeats a key, counts are exact and a limiter is closed exactly with its last bucket |
| `LimiterLedger.ClosedExactly` | policies/advanced-ratelimit/ratelimit.go:437-459 | a build closes a limiter if and only if it leaves its key without a bucket and without a leaked reference |
| `LimiterLedger.LeakedForever` | policies/advanced-ratelimit/ratelimit.go:437-459 | a limiter with a leaked reference is never closed, whatever is reloaded later |
| `LimiterLedger.LimiterStays` | policies/advanced-ratelimit/ratelimit.go:363-463 | a bucket that keeps wanting a key keeps the very same open limiter through all other reloads |
| `LimiterLedger.RepeatedKeyLeaks` | policies/advanced-ratelimit/ratelimit.go:377-391 | two quotas with one key leave a limiter that outlives its only bucket |
| `LimiterLedger.HalfwayLeaks` | policies/advanced-ratelimit/ratelimit.go:377-429 | a build whose second creation fails leaves a reference to the first limiter that no bucket accounts for |
| `BudgetLimiters.LimiterCache.SharedLimiter` | policies/cost-based-model-routing/budget.go:325-360 | moves the cache as the ledger says, changes nothing when a needed limiter cannot be created, and returns the limiter cached for the key |
| `BudgetLimiters.LoadCounts` | policies/cost-based-model-routing/budget.go:325-360 | in every reachable state, failed creations included, a count is the number of instances naming the key, and a key is cached exactly while one does |
| `BudgetLimiters.ClosedWithLastInstance` | policies/cost-based-model-routing/budget.go:346-357 | a load closes a limiter if and only if no instance names its key any more |
| `BudgetLimiters.ReloadUnchanged` | policies/cost-based-model-routing/budget.go:325-345 | reloading an unchanged instance changes nothing, so it keeps the very same limiter |
| `BudgetRouting.ParseRoutes` | policies/cost-based-model-routing/config.go:288-353 | accepts exactly the lists of one to ten valid entries with distinct names, generated ones included, and distinct models once "other" is read as the star |
| `BudgetRouting.GlobLiteral` | policies/cost-based-model-routing/config.go:346-347 | a pattern without a star matches itself and nothing else |
| `BudgetRouting.GlobAppend` | policies/cost-based-model-routing/config.go:346-347 | two patterns in a row match exactly the texts that split into a match of each |
| `BudgetRouting.PrefixPattern` | policies/cost-based-model-routing/config.go:346-347 | a prefix and a star match exactly the texts that start with the prefix |
| `BudgetRouting.LiteralsCount` | policies/cost-based-model-routing/config.go:348 | the specificity is the length without the stars |
| `BudgetRouting.GeneratedName` | policies/cost-based-model-routing/config.go:306 | entries without a name are numbered from one |
| `BudgetRouting.RuleDecides` | policies/cost-based-model-routing/costbasedmodelrouting.go:235-304 | on every accepted route list the selection rule leaves exactly one outcome |
| `BudgetRouting.RuleInTurns` | policies/cost-based-model-routing/costbasedmodelrouting.go:235-304 | the rule may be followed with the governing budget asked at one moment and the fallback's at a later one: it is decided by those two answers |
| `BudgetRouting.FindRoutes` | policies/cost-based-model-routing/costbasedmodelrouting.go:235-252 | one pass finds the listing route, the earliest most specific covering pattern and the fallback's own route |
| `BudgetRouting.SelectTarget` | policies/cost-based-model-routing/costbasedmodelrouting.go:235-304 | follows the rule: own budget, else best pattern, else the fallback's own budget, else 429, and 503 on a closed failure; at most two queries, never an exhausted budget, never a pattern's for a listed model |
| `BudgetRouting.OutcomeMeans` | policies/cost-based-model-routing/costbasedmodelrouting.go:235-304 | a selected request goes to the model asked for, under its own or the best pattern's budget, or to the fallback under its own, and only on something left or a tolerated error; a refusal is 429, or 503 on an error not tolerated |
| `BudgetRouting.CatchAllGoverns` | policies/cost-based-model-routing/config.go:344-347 | with a catch-all route every concrete model has a governing budget |
| `BudgetSpend.ScaleCost` | policies/cost-based-model-routing/budget.go:248-257 | fails exactly on a cost that is not a non-negative number, and otherwise rounds down to whole units, cut off at the largest 64-bit value |
| `BudgetSpend.CostReported` | policies/cost-based-model-routing/budget.go:263-305 | which reported cost counts: a finite, non-negative number in any of its forms, marked as calculated |
| `BudgetSpend.TenthOfACent` | policies/cost-based-model-routing/costbasedmodelrouting.go:442-504 | a calculated cost of a tenth of a cent at a million units to the dollar charges the selected budget a thousand units |
| `BudgetSpend.RequestMetadata.RecordSelection` | policies/cost-based-model-routing/costbasedmodelrouting.go:397-410 | records the target, the tier, the route, and the budget to charge |
| `BudgetSpend.RequestMetadata.ChargeOnce` | policies/cost-based-model-routing/costbasedmodelrouting.go:442-504 | claims before it charges, so that no later hook can charge again, and charges what is due |
| `BudgetSpend.NothingAdmitted` | policies/cost-based-model-routing/budget.go:83-92 | no query, recording, claim or other step of any request puts a request in flight on a budget whose limit is reached |
| `BudgetSpend.ChargedAtMostOnce` | policies/cost-based-model-routing/costbasedmodelrouting.go:365-392 | in every interleaving, however often the response hooks run and with claim and storage apart, a request is charged at most once |
| `BudgetSpend.Overshoot` | policies/cost-based-model-routing/budget.go:79-107 | in every interleaving of single queries, recordings, claims and stored charges, the spend on a budget is what was spent at some moment below the limit plus exactly what the requests then in flight (a positive answer in hand, recorded, or claimed) were charged, so at most limit - 1 plus their costs |

## Left out

- JWKS fetching, key selection and signature checking, Redis, TLS and HTTP calls: their outcomes are parameters, fixed over a run or an arbitrary error.
- Limiter algorithms and the LRU cache: a ledger of charges, and a map with arbitrary eviction. `ConsumeOrClampN` is recorded with the amount asked for.
- Several windows for one budget, and windows that end during a run: the spend theorem is about one window of one limit per budget.
- Storage errors of the budget query under fail-open: the spend theorem is about runs without them; failed charges are included.
- Response hooks of one request that run at the same time: the check and the mark of `chargeOnce` are one step of that request; everything else interleaves.
- Two instances of the routing policy on one request: they would share the metadata keys that the model gives to one.
- Rounding of floating point: costs are reals, so the sum over cost sources and the scaling are exact. Conversion to an integer rounds down; a rate-limit cost beyond 64 bits is not cut off.
- Stored quota results and rate-limit response headers: they inform the client and never lead to a charge.
- Key extraction, match conditions and the reading of single cost sources: parameters per phase and quota.
- `release`, `sum` and the hasher pool: zeroing and reuse of buffers have no effect on the bytes written.
- The plain JSON path of the ACL response filter and the request-body parsing in front of `govern`: they use the same filter and decision.
- `mergeJSONEvents`, chunk payloads and everything else done with decoded frames: JSON handling on top of the decoder. Checksums are carried and, as in the code, not verified.
- XML and JSON text, attribute namespaces and `parseValue`: the conversions are between decoded trees.
- JWT dates are whole seconds: a fractional `exp` or `nbf` within a second of 1970 is read as 0. An MCP request without a body goes to authentication before the modelled decision.
- `objectMembers`: the token loop of the JSON decoder; the model starts from the ordered member list.
- Parameter parsing other than the route list, error bodies, logging and provider routing metadata: wide but without interacting state.
- The other policies of the repository: thin wrappers, single-branch checks or pricing tables.
