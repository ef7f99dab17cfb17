# Telerithm: a formal model of what the log service decides

Telerithm ingests logs, searches them, raises alerts and keeps a team's saved views. This project models
the parts of it that decide something, in Dafny 4.11, and proves what those decisions keep. Check it with
`dafny verify dfyconfig.toml`.

**Queries.** `QuerySpec` says which rows a structured query asks for, without SQL. `QueryBuilder` is the
compiler as it runs: a list of conditions is pushed to and one parameter object is written in place.
`WhereText` gives the produced text a meaning of its own (a parser in which AND binds tighter than OR, an
evaluator over rows and parameters, and a LIKE matcher in `LikePattern`), and `QueryCorrect` shows that the text
under the final parameters selects exactly the rows asked for. `WhereGrammar` and `WhereLeaves` hold the parsing
lemmas; `QueryReading` writes out what the parts mean: the text itself, the cells and operators of filters, words and
forms. `PageToken` and `Paging` are the pages on top, `Planner` vets generated filters, and `NaturalSearch`, with
`PlannerWords`, is the natural-language search, stated on the table's rows without the query it plans.

**Addresses.** `IpText` and `IpSpelling` cover how an IPv6 address may be spelled (RFC 4291 section 2.2) and that
every spelling reads as one number. `TrustProxy` bounds how many IPv4 peers an accepted TRUST_PROXY value can
trust, and `ProxyTexts` says what each text of that setting gives. `UrlGuard` is the outbound guard on text; `Rfc5952`
defines canonical text and `UrlGuardRanges` shows that on it the guard is a check of numeric ranges; `GuardTexts`
covers the other texts: dotted quads alone and inside IPv6 literals, operator prefixes and capitals. `SafeTarget`
composes guard, lookup and connection.

**Incidents.** `Incidents` holds the tables and the read-then-guarded-write transitions, `AlertWorker` the
single-flight evaluation loop, and `AlertSystem` the step relation in which any number of users and the worker
interleave.

**URL state.** `UrlParams`, `PercentCodec` and `UrlState` model the search screen's reader and writer,
`UrlLens` proves the lens laws, `UrlUpdate` says field by field what an update leaves for the next read, `UrlWriter`
is the writer as it mutates one parameter list, and `UrlRuns` follows whole runs of updates.

**Saved views, jobs.** `LogViews` and `LogViewRights` cover who may see and change a saved view, including
noninterference over runs; `AsyncJobs` the background-query table with its sweeps.

**Ingestion.** `LogParser`, `SyslogLines`, `BsdSyslogLines` and `DetectedLines` cover the parsers, `Ingestion` and
`Issues` the batch loop and the grouping of errors, `StoredLogs` what is stored for each kind of item, `Entities` the
entity decoder of the frontend. `Text` is the shared text library.

## Where the code does not do what it may seem to

Each of these is modelled as the code does it, with the exact condition and an input that shows it.

- A free-text search throws exactly when one of its tokens is `constructor` or `__proto__`: the variant table is a
  plain object, so these names find an inherited member that cannot be iterated (`QueryBuilder.BuildSearchCondition`,
  `QueryBuilder.InheritedNameRefused`).
- Turning `service = v` into `service contains v` is meant to widen; it does exactly when `v` as a pattern matches
  itself, which a value with a backslash may not (`Planner.VettingWidensIff`, `Planner.VettingLosesRow`).
- A comment at url-guard.ts:192-194 says 6to4 addresses need no extra form. They pass exactly when the canonical text
  elides an embedded group or the embedded address is public (`UrlGuardRanges.SixToFourExact`, `SixToFourMissed`); for
  Teredo see `TeredoExact` and `TeredoMissed`. Of the link-local range fe80::/10 only the group fe80 is recognised
  (`NativeRanges`, `LinkLocalMissed`), and short first groups that start like a blocked one are blocked too
  (`LeadsBlocked`, `OverBlocked`).
- A `dur` parameter that names an inherited object member passes for a known duration. In relative mode the range
  computed from it is no date and the screen throws (`UrlLens.ReadThrowsIff`). In absolute mode it lies dormant
  until the first update that switches to relative time without giving a duration (`UrlRuns.TypedRunsLockIff`,
  `UrlRuns.SwitchLocks`; `UrlRuns.RunsRead` for updates of any kind).
- Switching to absolute time forgets the duration, and switching to relative time drops the sharing flag: neither is
  written in the other mode, so the next read shows the default (`UrlUpdate.TimeFollows`, part of
  `UrlUpdate.UpdateFollows`).
- Format detection trims a line and parsing does not. A line detected as syslog is stored whole as a plain entry
  exactly when it is indented or a line terminator follows its message, one in the place of the space before an empty
  message aside (`DetectedLines.DetectedIsPlainIff`,
  `IndentedIsPlain`, `NewlineEndsPlain`).
- RFC 5424 structured data stays in the message: the message comes back exactly when there is none
  (`SyslogLines.MessageComesBackIff`, `SyslogLines.StructuredDataExample`).

## Model

| member | source | states |
|---|---|---|
| LikePattern.LikeAnywhere | backend/src/repositories/log-repository.ts:446-448 | For a term without `%` and backslash, `s LIKE %term%` holds exactly when the term, its `_` standing for any character, matches at some position |
| LikePattern.OccurrenceMatches | backend/src/repositories/log-repository.ts:446-448 | A backslash-free term that occurs in a text always matches `%term%`, wildcards in the term included |
| LikePattern.ILikeTerm | backend/src/repositories/log-repository.ts:522-525 | Case-insensitively: an occurrence always matches, and without `_` and `%` a match is an occurrence |
| LikePattern.LikeQuoted | backend/src/repositories/log-repository.ts:446-448 | A text with a backslash before each special character is a pattern that matches that text and no other |
| WhereGrammar.AndTextParses | backend/src/repositories/log-repository.ts:497 | A text made by joining operands with ` AND ` parses to the conjunction of what the operands parse to |
| WhereGrammar.GroupParses | backend/src/repositories/log-repository.ts:525-527 | A parenthesised text joined with ` OR ` parses to one operand, the disjunction of its parts, wherever it stands |
| WhereLeaves.SignatureIsWord | backend/src/services/query/pattern-normalizer.ts:22-44 | The signature expression, with its nested calls, quoted patterns and doubled quotes, is read as one column and never splits |
| WhereLeaves.LeafReads | backend/src/repositories/log-repository.ts:437-448 | A rendered comparison reads back as its column, operator and parameter, for every sanitised map key; the reader knows the names and operators by their spelling and not by the printer |
| QueryCompiler.NamesDistinct | backend/src/repositories/log-repository.ts:400-531 | All parameter names written for one query, the numbered ones included, are pairwise distinct: equal names have equal origins |
| QueryCompiler.WriteKeepsOthers | backend/src/repositories/log-repository.ts:467-498 | Writing one parameter rebinds no other: every condition built earlier keeps its value |
| QueryCompiler.FormsAreSet | backend/src/repositories/log-repository.ts:533-545 | The ordered variants are the set of forms, none twice, the token among them |
| QuerySpec.TokenFound | backend/src/repositories/log-repository.ts:520-545 | Variant expansion never loses a match: a row that contains the token in message, service or host is found |
| QueryBuilder.ExpandSearchTokenVariants | backend/src/repositories/log-repository.ts:533-545 | The loop yields the variants in order, exactly the specified set, and throws exactly for tokens that name an inherited object member |
| QueryBuilder.BuildFilterCondition | backend/src/repositories/log-repository.ts:400-452 | Writes the filter's own parameter and no other, and renders its condition; a dropped filter writes nothing |
| QueryBuilder.BuildTokenCondition | backend/src/repositories/log-repository.ts:520-528 | One parameter per variant, none written before is touched, and the OR group over the variants |
| QueryBuilder.BuildSearchCondition | backend/src/repositories/log-repository.ts:505-531 | Throws exactly when some token does; otherwise all tokens' parameters are bound and earlier ones kept |
| QueryBuilder.AddScope | backend/src/repositories/log-repository.ts:467-481 | Team, source and time conditions with their bindings; throws exactly on an unreadable bound |
| QueryBuilder.BuildScopedWhere | backend/src/repositories/log-repository.ts:458-498 | Compiler correctness: the returned text, parsed and evaluated under the returned map, selects a row exactly when the row meets the query's specification, for every query and row; it throws exactly when the specification says so |
| QueryCorrect.WhereTextParses | backend/src/repositories/log-repository.ts:497 | Text keeps grouping: the rendered WHERE, with AND binding tighter than OR, parses to the conjunction of the condition list |
| QueryCorrect.ConditionsMeanQuery | backend/src/repositories/log-repository.ts:458-531 | Under the final map the condition list holds exactly of the rows in the team that meet source, times, every non-dropped filter and every token through some variant |
| QueryCorrect.CompiledSelects | backend/src/repositories/log-repository.ts:458-498 | The two together: text to meaning for every query, row and map that binds the parameters |
| QueryBuilder.InheritedNameRefused | backend/src/repositories/log-repository.ts:536 | A search for the ordinary word `constructor` throws |
| QueryReading.LeafWritten | backend/src/repositories/log-repository.ts:437-496 | Every column, operator and parameter as it is spelled: `team_id`, `source_id`, `timestamp >= {startTime:String}` and so on |
| QueryReading.WhereWritten | backend/src/repositories/log-repository.ts:458-498 | The literal conditions, in order, of a query with a source, both bounds and one filter of each operator |
| QueryReading.VariantWritten | backend/src/repositories/log-repository.ts:522-525 | The literal group one form of a token becomes |
| QueryReading.FilterLooksAt | backend/src/repositories/log-repository.ts:400-452 | What a filter on each known field compares, with its operator written out, for strings and numbers alike |
| QueryReading.OtherFieldLooksUp | backend/src/repositories/log-repository.ts:423-433 | Any other field is looked up under its lower-cased safe characters; one with none of them asks nothing |
| QueryReading.PatternLooksAt | backend/src/repositories/log-repository.ts:401-419 | A pattern filter compares the signature with the lower-cased value and has no order |
| QueryReading.BelowIsLexicographic | backend/src/repositories/log-repository.ts:437-448 | The order the comparisons use is decided by the first difference |
| QueryReading.SanitizeOne | backend/src/repositories/log-repository.ts:423-433 | Sanitising keeps exactly the safe characters, lower-cased, in order |
| QueryReading.WordsAre | backend/src/repositories/log-repository.ts:505-531 | Words written with white space between them are the words that are split off |
| QueryReading.TokensAre | backend/src/repositories/log-repository.ts:505-531 | The tokens are the sanitised words of two characters or more, and no other |
| QueryReading.MappedForms | backend/src/repositories/log-repository.ts:533-545 | The forms of the words in the variant table, written out |
| QueryReading.StrippedForms | backend/src/repositories/log-repository.ts:533-545 | Which endings any other token is searched without, and from which length on |
| QueryReading.TextNarrows | backend/src/repositories/log-repository.ts:484-496 | Free text narrows a search to the rows that hold each of its tokens, and is not looked at in a natural-language query |
| QueryReading.SignatureWritten | backend/src/services/query/pattern-normalizer.ts:22-44 | The six patterns of the signature in their order, each with its replacement |
| PageToken.DecodeEncode | backend/src/repositories/log-repository.ts:568-570 | base64url decoding undoes encoding on every ASCII text, whatever its length modulo three |
| PageToken.TokenRoundTrip | backend/src/repositories/log-repository.ts:551-570 | Resolving a page token gives the offset it was made from, whatever else the request says |
| PageToken.GroupIsNumber | backend/src/repositories/log-repository.ts:568-570 | The four digits of a group are those of its 24-bit number in base 64 (RFC 4648 section 5) |
| PageToken.DigitsWritten | backend/src/repositories/log-repository.ts:568-570 | The 64 digits in their order |
| PageToken.TokenWritten | backend/src/repositories/log-repository.ts:568-570 | The token of every offset, its fixed part spelled out |
| PageToken.OtherOffsets | backend/src/repositories/log-repository.ts:551-566 | Where a request starts without a token, and with one the service did not make |
| Paging.Search | backend/src/repositories/log-repository.ts:79-143 | A search returns the page of the specified rows, their number, and a token exactly when rows remain |
| Paging.CrawlVisitsAll | backend/src/repositories/log-repository.ts:82-141 | Following the tokens from any offset visits each remaining row once, in order, and stops after as many pages as they fill, one at least |
| Paging.AnswersVisitAll | backend/src/repositories/log-repository.ts:79-143 | The same of whole searches: a client that repeats its request with each token it is given collects every remaining row of its query once, in order, and is told the same total each time |
| Paging.CeilRoundsUp | backend/src/repositories/log-repository.ts:82-141 | That page count is the quotient rounded up |
| Planner.ValidateGeneratedFilters | backend/src/services/query/query-service.ts:275-347 | The loop computes the two specified lists, whose lengths add up to the input's |
| Planner.ValidationSplits | backend/src/services/query/query-service.ts:275-347 | Each input filter is found in exactly one list, at the place its predecessors there determine: nothing lost, order kept |
| Planner.PrunedIff | backend/src/services/query/query-service.ts:275-347 | Exactly which filters are dropped and what is reported of them, said of the field, the value and the known values |
| Planner.KeptFilter | backend/src/services/query/query-service.ts:295-308 | A kept filter is the generated one, but for a service equality turned into containment |
| Planner.WideningExact | backend/src/services/query/query-service.ts:301-303 | That rewrite loses no row of any table exactly when the value, read as a pattern, matches itself |
| Planner.PlainValueMatchesItself | backend/src/services/query/query-service.ts:301-303 | Every value without a backslash does |
| Planner.WideningLoses | backend/src/services/query/query-service.ts:301-303 | A value that does not match itself as a pattern |
| Planner.VettingWidensIff | backend/src/services/query/query-service.ts:295-308 | Vetting a service equality that is kept because the service is known loses no row exactly when the value matches itself |
| Planner.VettingLosesRow | backend/src/services/query/query-service.ts:295-308 | Concrete hints, filter and row: the filter is kept, the row meets it as generated and not as kept |
| Planner.ValidationWidens | backend/src/services/query/query-service.ts:275-347 | Under that condition a row that meets all generated filters meets all kept ones |
| NaturalSearch.SearchNatural | backend/src/services/query/query-service.ts:66-126 | The answer is the requested page, total and token of the table's rows in the team, the source and the range that hold every token of every useful term and meet the kept filters, if there are any, and of those without the filters otherwise; it throws exactly when a bound cannot be read or such a token throws |
| NaturalSearch.PlanMeans | backend/src/services/query/query-service.ts:83-110 | What the planned query asks of a row, for every row: scope, range by precedence, useful terms and kept filters, said without it |
| NaturalSearch.StopwordsAre | backend/src/constants/nlq.ts:1-61 | The stop words, one by one |
| NaturalSearch.UsefulTermsAre | backend/src/services/query/query-service.ts:91-97 | The terms kept are exactly the useful ones, each once |
| NaturalSearch.PlannedTokens | backend/src/services/query/query-service.ts:94-109 | Joining and trimming the terms changes no token: the planned text is searched by the useful terms' own tokens |
| NaturalSearch.PieceIff | backend/src/services/query/query-service.ts:91-96 | A term is a piece of a filter's value exactly when it is one of the value's words, by their positions |
| PlannerWords.TokensOfAll | backend/src/services/query/query-service.ts:98-99 | Joining texts with spaces joins their tokens |
| IpSpelling.LegalIsAccepted | backend/src/config/index.ts:95-102 | Every legal spelling of an IPv6 address (RFC 4291 section 2.2) is accepted as one |
| IpSpelling.AcceptedIsLegal | backend/src/config/index.ts:95-102 | And every accepted literal is a legal spelling of some address |
| IpSpelling.SpellingReads | backend/src/config/index.ts:34-50 | Full form, `::` for any nonempty zero run, dotted-quad tail and zone all read as the number of the eight groups they stand for |
| IpSpelling.AcceptedReads | backend/src/config/index.ts:34-50 | Every accepted literal has a number |
| GuardTexts.ZonesAccepted | backend/src/config/index.ts:95-102 | What may follow an IPv6 literal as its zone |
| Rfc5952.CanonText | backend/src/services/notification/url-guard.ts:107-109 | The canonical text (RFC 5952 section 4) of any address is accepted and reads as its groups |
| Rfc5952.RunIs | backend/src/services/notification/url-guard.ts:107-109 | The elided run is the longest zero run, the first on a tie |
| SafeTarget.NotBlockedIsIP | backend/src/services/notification/url-guard.ts:111-128 | With any operator prefixes, a text that is no IP address is blocked |
| UrlGuard.EmbeddedNoColon | backend/src/services/notification/url-guard.ts:133-261 | With any operator prefixes, what a pattern extracts is never an IPv6 literal, so the recursion goes one level deep |
| UrlGuardRanges.DottedBlocked | backend/src/services/notification/url-guard.ts:115-128 | The judgement of a dotted quad is the range check of its first two bytes |
| GuardTexts.Ipv4IsQuad | backend/src/config/index.ts:34-50 | Exactly the texts of four numbers below 256 are IPv4 literals, and their value is those numbers in base 256 |
| GuardTexts.Ipv4Judged | backend/src/services/notification/url-guard.ts:111-128 | Every IPv4 literal is blocked exactly when its number lies in one of eight ranges, written as numbers |
| GuardTexts.MappedQuadJudged | backend/src/services/notification/url-guard.ts:133-135 | `::ffff:` and a dotted quad is judged by the quad, for every quad and whatever the prefixes |
| GuardTexts.Nat64QuadJudged | backend/src/services/notification/url-guard.ts:145-149 | So is `64:ff9b::` and a dotted quad, whatever the prefixes |
| GuardTexts.CompatibleQuadJudged | backend/src/services/notification/url-guard.ts:235-241 | So is `::` and a dotted quad, unless an operator's prefix claims the text |
| GuardTexts.MetadataMappedBlocked | backend/src/services/notification/url-guard.ts:122-135 | ::ffff:169.254.169.254 is blocked, whatever the prefixes |
| GuardTexts.SuffixReads | backend/src/services/notification/url-guard.ts:173-189 | What may follow an operator's prefix, and the quad it stands for |
| GuardTexts.PrefixJudges | backend/src/services/notification/url-guard.ts:173-189 | An address under an operator's prefix is judged by what follows it, unless an earlier pattern or prefix claims it |
| GuardTexts.FirstClaim | backend/src/services/notification/url-guard.ts:173-189 | Of several prefixes the first that claims an address decides what is read, and without one nothing is |
| GuardTexts.CapitalsDoNotMatter | backend/src/services/notification/url-guard.ts:131 | A literal is judged like its lower-case form |
| UrlGuardRanges.GuardIsRangeCheck | backend/src/services/notification/url-guard.ts:111-266 | On canonical text, for all 2^128 addresses, the guard is a check of numbers: the embedded IPv4 address if one is decoded, the first group otherwise |
| UrlGuardRanges.EmbeddedTailAgrees | backend/src/services/notification/url-guard.ts:133-166 | Every IPv4-mapped, every IPv4-compatible and every NAT64 address with a nonzero embedded part is judged by its embedded address |
| UrlGuardRanges.SixToFourExact | backend/src/services/notification/url-guard.ts:190-200 | A 6to4 address is blocked exactly when its embedded address is and the text writes both groups out; a nonzero third group is enough for that |
| UrlGuardRanges.TeredoExact | backend/src/services/notification/url-guard.ts:201-229 | A Teredo address is blocked exactly when nothing or only flags and port are elided and the inverted client address is blocked |
| UrlGuardRanges.NativeRanges | backend/src/services/notification/url-guard.ts:262-264 | fc00::/7 and ff00::/8 are blocked whole; of fe80::/10 exactly the addresses whose first group is fe80 |
| UrlGuardRanges.LeadsBlocked | backend/src/services/notification/url-guard.ts:262-265 | Exactly which addresses without an embedded IPv4 address are blocked, those included whose short first group only starts like a blocked one |
| UrlGuardRanges.SixToFourMissed | backend/src/services/notification/url-guard.ts:190-200 | 2002:a00::1 embeds 10.0.0.0 and passes |
| UrlGuardRanges.TeredoMissed | backend/src/services/notification/url-guard.ts:216-234 | 2001::f5ff:fffe carries the client 10.0.0.1 and passes |
| UrlGuardRanges.LinkLocalMissed | backend/src/services/notification/url-guard.ts:262 | fe81::1 is link-local and passes |
| UrlGuardRanges.OverBlocked | backend/src/services/notification/url-guard.ts:263 | fc::1 lies outside fc00::/7 and is blocked |
| SafeTarget.DialsOnlyVetted | backend/src/services/notification/safe-fetch.ts:64-81 | Every address a request can be dialled at is an IP address outside the blocked ranges and is the literal or an answer of the one lookup; a target never lacks an address |
| SafeTarget.EntriesVetted | backend/src/services/notification/safe-fetch.ts:64-81 | The connect-time lookup answers from the given addresses only, and of the wanted family |
| SafeTarget.ResolvesIff | backend/src/services/notification/url-guard.ts:300-361 | A target is resolved exactly when its URL is http or https, has a host the allow-list admits, and every address it can have, at least one, is outside the blocked ranges |
| SafeTarget.ResolvedIs | backend/src/services/notification/url-guard.ts:331-360 | Its addresses are then exactly these, none twice |
| SafeTarget.FirstsFirst | backend/src/services/notification/url-guard.ts:359 | In the order of their first occurrences |
| SafeTarget.BracketsOff | backend/src/services/notification/url-guard.ts:326 | One pair of brackets comes off |
| SafeTarget.PinnedIs | backend/src/services/notification/safe-fetch.ts:64-81 | When the connect-time lookup refuses, and exactly what it gives for one family, for any, for one address and for all |
| TrustProxy.Ipv6RangeBound | backend/src/config/index.ts:64-80 | An IPv6 range is accepted exactly when its prefix is at least 32 and the IPv4 peers whose mapped form lies in it number at most 2^24 |
| TrustProxy.Ipv4RangeBound | backend/src/config/index.ts:59-63 | An IPv4 range trusts two to the free bits many peers and is accepted exactly when that is at most 2^24 |
| TrustProxy.BareAddressBound | backend/src/config/index.ts:54-58 | A bare address is always accepted and trusts one IPv4 peer at most |
| TrustProxy.AcceptedSettingBound | backend/src/config/index.ts:109-149 | An accepted list of n entries trusts at most n times 2^24 IPv4 peers; an accepted hop count is at most ten |
| ProxyTexts.HopsWritten | backend/src/config/index.ts:118-127 | A number in decimal, with any blanks around it, is the hop count it says, up to ten, and refused above |
| ProxyTexts.WordsWritten | backend/src/config/index.ts:109-128 | Blank is unset, `loopback` is taken, `true` in any capitals is refused |
| ProxyTexts.RangeWritten | backend/src/config/index.ts:95-102 | An address with a number after a slash is an entry exactly up to 32 or 128, and the number is its prefix |
| ProxyTexts.ListWritten | backend/src/config/index.ts:129-146 | Every list of addresses and ranges, with a comma and any blanks between two, is taken entry by entry, and refused exactly when an entry is too broad or Express refuses the list |
| ProxyTexts.AcceptedListIs | backend/src/config/index.ts:129-146 | An accepted list has one entry for each piece between the commas, the piece trimmed |
| ProxyTexts.MappedFormIs | backend/src/config/index.ts:34-53 | The number an IPv4 peer is compared by is the number of its `::ffff:` spelling |
| Incidents.AlertService.BeginTransition | backend/src/services/alert/alert-service.ts:139-170 | The read half: finds the status within the team and refuses with not-found or conflict, writing nothing |
| Incidents.AlertService.CommitTransition | backend/src/services/alert/alert-service.ts:171-188 | The write half: the status moves and the event is added together, or neither |
| Incidents.AlertService.TransitionIncident | backend/src/services/alert/alert-service.ts:155-189 | Undisturbed, an action succeeds exactly when the incident is the team's and OPEN for an acknowledgement, not RESOLVED for a resolution, not OPEN for a reopening; the statuses are written out |
| Incidents.ReplayIff | backend/src/services/alert/alert-service.ts:12-20 | The trails that replay are exactly those in which an acknowledgement comes first or right after a reopening, a resolution is followed by nothing but a reopening, and a reopening follows another action |
| Incidents.AlertService.RemoveRule | backend/src/services/alert/alert-service.ts:104-115 | Deleting a rule takes its subscriptions, incidents and events, or rolls back |
| Incidents.CommitConsistent | backend/src/services/alert/alert-service.ts:171-188 | A commit keeps every incident's status equal to the replay of its trail from OPEN, each event legal where it was taken |
| Incidents.DeleteConsistent | backend/src/services/alert/alert-service.ts:104-115 | So does a rule deletion with its cascades |
| Incidents.CommitIsConfined | backend/src/services/alert/alert-service.ts:171-188 | An action that fails changes nothing; one that succeeds changes its own incident and trail only, in its own team |
| Incidents.LaterCommitLoses | backend/src/services/alert/alert-service.ts:150-154 | Of two actions that read the same status the later commit is refused and undoes nothing |
| Incidents.DeleteIsConfined | backend/src/services/alert/alert-service.ts:96-115 | A deleted rule takes exactly its own incidents, trails and subscriptions |
| AlertSystem.RulesKeepTeams | backend/src/services/alert/alert-service.ts:66-115 | In every step: a rule changes only by an edit in its own team's name, to what the edit says, stays in its team, and goes only when that team drops it |
| AlertSystem.RulesStay | backend/src/services/alert/alert-service.ts:66-115 | Over every run: a rule its team does not drop stays, and stays in that team |
| AlertSystem.WriteOnce | backend/src/services/alert/alert-service.ts:155-189 | After its transaction a transition has nothing left to commit |
| AlertWorker.AlertEvaluationWorker.EvaluateOne | backend/src/services/alert/alert-evaluation-worker.ts:66-160 | One rule: skipped, already open, not triggered, or one OPEN incident created; a failure creates none |
| AlertWorker.EvaluationCreates | backend/src/services/alert/alert-evaluation-worker.ts:78-150 | Exactly when an evaluation creates an incident, with every condition written out on the counts, and which |
| AlertWorker.AlertEvaluationWorker.Evaluate | backend/src/services/alert/alert-evaluation-worker.ts:42-64 | A pass does nothing while another runs; otherwise it tries each loaded rule once, in order, past failures, and always releases the flag |
| AlertSystem.StatusIsTrail | backend/src/services/alert/alert-service.ts:139-189 | In every reachable state of any interleaving of users and worker, every status is the replay of its trail |
| AlertSystem.TrailsAreOrderly | backend/src/services/alert/alert-service.ts:12-20 | In every reachable state of any interleaving every incident's trail is of that kind, and its last action says the status |
| AlertSystem.OpenIncidentsBounded | backend/src/services/alert/alert-evaluation-worker.ts:108-150 | In every reachable state the OPEN incidents of a rule number at most one plus its successful reopens |
| AlertSystem.NoDuplicateIncidents | backend/src/services/alert/alert-evaluation-worker.ts:108-150 | Hence at most one in runs in which nobody reopens |
| AlertSystem.PassTriesEachOnce | backend/src/services/alert/alert-evaluation-worker.ts:50-58 | At the end of a pass exactly the loaded rules were tried, each once, in order |
| AlertSystem.LoadIs | backend/src/services/alert/alert-evaluation-worker.ts:46-50 | What a pass works through: each enabled rule once, as it is when the pass loads, and no other |
| AlertSystem.PassesDoNotOverlap | backend/src/services/alert/alert-evaluation-worker.ts:42-44 | A tick during a pass starts nothing |
| AlertSystem.PassEnds | backend/src/services/alert/alert-evaluation-worker.ts:46-63 | Every worker step brings the pass closer to its end, whatever fails, so the flag is released |
| AlertSystem.OtherTeamsUntouched | backend/src/services/alert/alert-service.ts:139-189 | No pending action, however it ends, changes another team's incident or trail |
| AlertSystem.CheckDecideIsEvaluation | backend/src/services/alert/alert-evaluation-worker.ts:108-150 | The worker's two steps, undisturbed, are the sequential evaluation of the rule |
| PercentCodec.DecodeEncode | frontend/src/hooks/use-log-search.ts:312-327 | Percent-decoding undoes percent-encoding on every text (UTF-8, RFC 3986 section 2.1) |
| PercentCodec.CharsWritten | frontend/src/hooks/use-log-search.ts:312-327 | Which characters stay, and what others become, a two- and a three-byte one among them |
| PercentCodec.EncodeHasNoColon | frontend/src/hooks/use-log-search.ts:98-107 | Percent-encoding leaves no colon |
| UrlLens.ChipTokensDiffer | frontend/src/hooks/use-log-search.ts:312-323 | The `::` chip codec is injective |
| UrlLens.ChipReads | frontend/src/hooks/use-log-search.ts:98-107 | A chip's token reads back as the chip, or as nothing when a part is empty |
| UrlLens.LongTokenReads | frontend/src/hooks/use-log-search.ts:98-107 | Of a token with more parts the first two are read, and one without a separator is dropped |
| UrlLens.IntReads | frontend/src/hooks/use-log-search.ts:165-168 | `parseInt` undoes `String` on every integer |
| UrlUpdate.DigitsRead | frontend/src/hooks/use-log-search.ts:165-168 | It passes over white space and a plus sign and looks at nothing after the digits |
| UrlLens.WriteGets | frontend/src/hooks/use-log-search.ts:297-372 | After a write every managed key holds exactly its target values |
| UrlLens.UnmanagedUntouched | frontend/src/hooks/use-log-search.ts:270-376 | A parameter the screen does not manage keeps its values |
| UrlLens.UnmanagedKeepOrder | frontend/src/hooks/use-log-search.ts:270-376 | And the unmanaged pairs keep their order among themselves |
| UrlParams.SetInPlace | frontend/src/hooks/use-log-search.ts:297-300 | Setting a parameter replaces its first pair where it stands and takes the later ones out; a new one comes last |
| UrlLens.PutPut | frontend/src/hooks/use-log-search.ts:270-376 | A second write overwrites the first, for every key |
| UrlLens.PutGet | frontend/src/hooks/use-log-search.ts:72-91 | For every state, re-reading what was written gives the state with each field normalised on its own, and throws for exactly the states relative to an inherited name |
| UrlLens.ReadThrowsIff | frontend/src/hooks/use-log-search.ts:98-125 | Exactly which URLs cannot be shown: a malformed percent sequence in a repeated parameter, or a relative one whose duration names an inherited member |
| UrlLens.CanonicalIsFixed | frontend/src/hooks/use-log-search.ts:159-210 | Normalising leaves exactly the canonical states alone: trimmed query, page at least 1, allowed page size, listed duration, full chips, distinct non-empty columns, a consistent time range |
| UrlLens.ComesBackIff | frontend/src/hooks/use-log-search.ts:159-376 | Exactly the canonical states come back from the URL unchanged |
| UrlState.KeysDistinct | frontend/src/hooks/use-log-search.ts:297-372 | The managed names are pairwise distinct |
| UrlWriter.LogSearch.UpdateSearch | frontend/src/hooks/use-log-search.ts:270-376 | The imperative writer: the next read shows each field given as given and each other as before, normalised as the field is (`UrlUpdate.Follows`, said without the merge), or throws when the state is relative to an inherited name; the kept range follows it, and an unreadable URL changes nothing |
| UrlUpdate.UpdateFollows | frontend/src/hooks/use-log-search.ts:270-295 | The same for every URL, update and clock: fields by name, a page changed without a token clears the token, a non-empty bound makes the range absolute |
| UrlUpdate.ReadIsSettled | frontend/src/hooks/use-log-search.ts:159-210 | What every state that was read has in common |
| UrlUpdate.ReadShows | frontend/src/hooks/use-log-search.ts:159-210 | What every URL that can be shown shows, parameter by parameter and by name, the newer names of the bounds before the older ones |
| UrlUpdate.KeysWritten | frontend/src/hooks/use-log-search.ts:297-372 | The names of the parameters |
| UrlUpdate.DurationsWritten | frontend/src/hooks/use-log-search.ts:15-22 | The durations in milliseconds, and no others |
| UrlUpdate.BareUrl | frontend/src/hooks/use-log-search.ts:159-210 | What a URL without parameters shows, field by field |
| UrlUpdate.ServiceOnBareUrl | frontend/src/hooks/use-log-search.ts:270-376 | Setting the service there writes the mode, the duration and the service, and nothing else |
| UrlUpdate.DistinctIsDistinct | frontend/src/hooks/use-log-search.ts:119-125 | The columns read are those in the URL, non-empty, none twice |
| UrlUpdate.FirstsAreKept | frontend/src/hooks/use-log-search.ts:119-125 | In the order of their first occurrences |
| UrlWriter.AppendEach | frontend/src/hooks/use-log-search.ts:311-328 | Deleting and appending in a loop leaves the values of a repeated key, in order |
| UrlRuns.RunsRead | frontend/src/hooks/use-log-search.ts:270-376 | From any readable URL, a run of updates stays readable exactly when no update leaves the screen relative to an inherited name, and then the state shown is the one the updates fold to without a URL |
| UrlRuns.TypedRunsLockIff | frontend/src/hooks/use-log-search.ts:79-91 | With updates of the declared type only the first can lock the screen: exactly when the URL was absolute with an inherited name for its unused duration and the update makes it relative without another |
| UrlRuns.SwitchLocks | frontend/src/hooks/use-log-search.ts:199-204 | The concrete lock: `tr=abs&dur=toString` is shown, and after a switch to relative time nothing is |
| UrlRuns.RunsLeaveUnmanaged | frontend/src/hooks/use-log-search.ts:270-376 | No run of updates touches an unmanaged parameter |
| LogViews.LogViewService.Create | backend/src/services/log-view/log-view-service.ts:63-89 | The new view holds each field as given and is the caller's; when it is a default, the caller's own views and the team's shared ones stop being defaults, and nothing else changes |
| LogViews.LogViewService.Update | backend/src/services/log-view/log-view-service.ts:91-143 | Exactly when it answers not-found, forbidden, in full or with a stub, said of sharing, ownership, default and role; each field given is stored and each other kept, in that view and no other |
| LogViews.LogViewService.Duplicate | backend/src/services/log-view/log-view-service.ts:145-169 | A copy holds the original's definition, is the caller's own, never a default, shared exactly if the original is and the caller may share, and is named as asked or after the original |
| LogViews.LogViewService.Remove | backend/src/services/log-view/log-view-service.ts:171-187 | Exactly when it deletes, and when it answers not-found or forbidden |
| LogViews.RoutesRefuse | backend/src/api/rest/router.ts:822-834 | What the routes refuse by role, and which creations go through |
| LogViewRights.ChangeNeedsRight | backend/src/services/log-view/log-view-service.ts:103-142 | Name, definition and sharing change only by the owner, or by OWNER/ADMIN on a view shared before; team-wide state only by OWNER/ADMIN |
| LogViewRights.RemovalNeedsRight | backend/src/services/log-view/log-view-service.ts:171-187 | A view disappears only by its owner, or by OWNER/ADMIN when it was shared or a default |
| LogViewRights.ForeignPrivateUntouched | backend/src/services/log-view/log-view-service.ts:189-203 | Nobody else's private, non-default view is touched at all |
| LogViewRights.TeamStateNeedsManager | backend/src/api/rest/router.ts:759-761 | Without the role a request changes, adds or removes no shared or default view |
| LogViewRights.UpdateAllowed | backend/src/api/rest/router.ts:822-834 | Exactly when an update is carried out |
| LogViewRights.OnlyDefault | backend/src/services/log-view/log-view-service.ts:126-142 | After a view was made the default no other view its setter can see is one |
| LogViewRights.WriteRevealsNothing | backend/src/services/log-view/log-view-service.ts:189-243 | Tables that look alike to a caller answer alike and look alike afterwards: no answer depends on the name, definition or existence of what is hidden |
| LogViewRights.ListRevealsNothing | backend/src/services/log-view/log-view-service.ts:52-61 | The same for the list query |
| LogViews.ListingIs | backend/src/services/log-view/log-view-service.ts:52-61 | What a listing holds and in which order |
| LogViewRights.PrivateWorkIsInvisible | backend/src/services/log-view/log-view-service.ts:205-207 | Another user's work on private, non-default views cannot be seen, nor anything done in another team |
| LogViewRights.EveryEditHasItsEditor | backend/src/services/log-view/log-view-service.ts:91-143 | Over every run: behind each change of a view stands a request of its owner, or of an OWNER/ADMIN while it was shared |
| LogViewRights.PrivateViewsKeep | backend/src/services/log-view/log-view-service.ts:189-203 | Over every run: a private, non-default view stays as it is until its owner acts |
| LogViewRights.TeamStateKeeps | backend/src/api/rest/router.ts:822-827 | Over every run without OWNER/ADMIN requests the team-wide views stay as they are |
| LogViewRights.RunsRevealNothing | backend/src/services/log-view/log-view-service.ts:51-254 | Noninterference over runs in which others do any amount of private work: the user's own log, answers included, is by itself a run from every other table that looked the same to that user |
| LogViewRights.OwnRunsRevealNothing | backend/src/services/log-view/log-view-service.ts:51-254 | In particular for a run of one user's requests |
| AsyncJobs.QueryService.CleanupAsyncJobs | backend/src/services/query/query-service.ts:236-243 | The sweep keeps exactly the records within the TTL |
| AsyncJobs.QueryService.StartAsyncJob | backend/src/services/query/query-service.ts:157-168 | Sweeps, then records the job as pending |
| AsyncJobs.QueryService.ProducerSettled | backend/src/services/query/query-service.ts:170-181 | Writes the result anew with the current time, in the name of the job's team |
| AsyncJobs.QueryService.GetAsyncJob | backend/src/services/query/query-service.ts:189-206 | Sweeps, then answers from the table |
| AsyncJobs.PollsIgnoreSweeps | backend/src/services/query/query-service.ts:157-206 | Over every run the swept table answers like one that forgets nothing: the record last written unless it is older than the TTL |
| AsyncJobs.RunsGrow | backend/src/services/query/query-service.ts:157-181 | An id keeps its record and team; a settled record keeps everything |
| AsyncJobs.SettledIsReturned | backend/src/services/query/query-service.ts:170-206 | A settled job is returned by every poll up to one TTL later and by none after, even if its pending record had been swept |
| AsyncJobs.AnswersAreStable | backend/src/services/query/query-service.ts:189-206 | Polls of one id agree on the team, never take a result back, and never return a record older than the TTL |
| AsyncJobs.OnlyMembersSee | backend/src/api/rest/router.ts:737-755 | Only members of the job's team are shown it, and within one TTL of its start each is |
| AsyncJobs.ResultIsShown | backend/src/api/rest/router.ts:737-755 | A member is shown exactly the result the job settled with, for five minutes after that, and nobody else anything |
| AsyncJobs.PendingIsShown | backend/src/api/rest/router.ts:737-755 | Until it settles a member is shown that it is pending, for five minutes from its start |
| SyslogLines.ShapeMatches5424 | backend/src/parser/log-parser.ts:5 | Every line of the shape the RFC 5424 pattern describes matches, with these parts |
| SyslogLines.MatchHasShape5424 | backend/src/parser/log-parser.ts:5 | And every matching line is of that shape |
| SyslogLines.Rfc5424RoundTrip | backend/src/parser/log-parser.ts:92-109 | Printing a line (RFC 5424 section 6, no structured data) and matching it gives the parts back exactly when the message stands on one line |
| SyslogLines.StructuredDataStays | backend/src/parser/log-parser.ts:5 | With structured data the parts come back and the data stays in front of the message |
| SyslogLines.MessageComesBackIff | backend/src/parser/log-parser.ts:5 | Of lines with legal structured data exactly those without any give their message back |
| SyslogLines.StructuredDataExample | backend/src/parser/log-parser.ts:5 | A line whose structured data is taken for message text |
| SyslogLines.Rfc5424Parses | backend/src/parser/log-parser.ts:22-45 | A printed line is detected as RFC 5424 and parsed to its host, service and message |
| BsdSyslogLines.ShapeMatches3164 | backend/src/parser/log-parser.ts:4 | Every line of the shape the RFC 3164 pattern describes matches, with these parts |
| BsdSyslogLines.MatchHasShape3164 | backend/src/parser/log-parser.ts:4 | And every matching line is of that shape |
| BsdSyslogLines.ShapesDisjoint | backend/src/parser/log-parser.ts:4-5 | No line is of both shapes |
| BsdSyslogLines.Rfc3164RoundTrip | backend/src/parser/log-parser.ts:73-90 | Printing a line (RFC 3164 section 4.1, colon-free tag) and matching it gives the parts back exactly when the message stands on one line |
| BsdSyslogLines.Rfc3164Parses | backend/src/parser/log-parser.ts:22-45 | A printed line is detected as RFC 3164 and parsed to its host, service and message |
| DetectedLines.Rfc5424Detected | backend/src/parser/log-parser.ts:22-45 | A line detected as RFC 5424 matches the untrimmed pattern exactly when it is not indented and no line terminator follows its message; what the match then holds |
| DetectedLines.Rfc3164Detected | backend/src/parser/log-parser.ts:22-45 | The same for a line detected as RFC 3164 |
| DetectedLines.DetectedIsPlainIff | backend/src/parser/log-parser.ts:22-46 | Exactly which lines detected as syslog are stored whole as plain entries |
| DetectedLines.IndentedIsPlain | backend/src/parser/log-parser.ts:22-46 | Every such line, indented, is one |
| DetectedLines.NewlineEndsPlain | backend/src/parser/log-parser.ts:22-46 | With a newline at its end it is one exactly when it carries a message |
| BsdSyslogLines.LevelMeaning | backend/src/parser/log-parser.ts:7-19 | Which texts get which level, in both directions |
| StoredLogs.RecordIs | backend/src/ingestion/ingestion-service.ts:39-49 | What is stored of a record, each field given or defaulted; none is refused |
| StoredLogs.TextIs | backend/src/parser/log-parser.ts:111-123 | What is stored of a text said or found to be plain |
| StoredLogs.NoSyslogIs | backend/src/parser/log-parser.ts:73-96 | A text said to be syslog that is none is stored as a plain one |
| StoredLogs.JsonIs | backend/src/parser/log-parser.ts:47-71 | JSON is accepted exactly when it parses and no element is null or has an unreadable date; what is stored of each element, in order |
| StoredLogs.JsonDetected | backend/src/parser/log-parser.ts:22-26 | A text is taken for JSON exactly when its first character after white space opens an object or an array |
| StoredLogs.FormatIsDetected | backend/src/ingestion/ingestion-service.ts:34-36 | A format not given is found out from the text |
| Ingestion.IngestionService.AcceptEach | backend/src/ingestion/ingestion-service.ts:31-56 | The loop: entries are the in-order parses of the items that do not throw, errors the indices of exactly those that do, increasing |
| Ingestion.IngestionService.Ingest | backend/src/ingestion/ingestion-service.ts:21-83 | Insert, invalidate, announce, in that order; what happens on each failure; what the response counts |
| Ingestion.ParsedFromSource | backend/src/ingestion/ingestion-service.ts:33-49 | Whatever the format, a parse yields the source's own entries, one per line or per JSON element |
| Ingestion.AcceptedFromSource | backend/src/ingestion/ingestion-service.ts:31-49 | Every accepted entry carries the team and id of the source that was looked up |
| Ingestion.AcceptedConcat | backend/src/ingestion/ingestion-service.ts:31-56 | Splitting a batch accepts the same entries in the same order |
| Ingestion.AnnouncedOnce | backend/src/ingestion/ingestion-service.ts:61-69 | Each accepted entry is emitted once, in order, and exactly the error and fatal ones are tracked |
| Issues.TrackAllAt | backend/src/services/issue/issue-service.ts:14-33 | An issue after any upserts depends only on how many fell under its key |
| Issues.SameIssue | backend/src/services/issue/issue-service.ts:8-20 | Entries share an issue exactly when team and fingerprint agree |
| Issues.AnyOrder | backend/src/services/issue/issue-service.ts:14-33 | The order of the upserts is of no account |
| Issues.BatchRaisesCounts | backend/src/services/issue/issue-service.ts:14-33 | An ingested batch, its upserts in any order, raises the counts in total by exactly its accepted error and fatal entries, and no other team's |
| Entities.PassJoinsScan | frontend/src/lib/utils/format.ts:2-9 | One more pass over a scan that left ampersands alone is one scan for one more kind |
| Entities.PassesAreOneScan | frontend/src/lib/utils/format.ts:2-9 | Any order of the passes with the ampersand last is one scan |
| Entities.DecodeIsOneScan | frontend/src/lib/utils/format.ts:2-9 | For every text the five replacements equal one left-to-right scan that decodes each entity once |
| Entities.DecodeUndoesEscape | frontend/src/lib/utils/format.ts:2-9 | Decoding undoes character-wise escaping on every text |
| Entities.AmpersandFirstUndoesIff | frontend/src/lib/utils/format.ts:8 | With the ampersand pass first that holds exactly on the texts in which no other entity is spelled out |
| Entities.AmpersandFirstDecodesTwice | frontend/src/lib/utils/format.ts:8 | A text on which it fails |

## Left out

- Case folding is ASCII only; JavaScript and the database also fold other letters.
- Numbers are unbounded integers, and a numeric filter value comes with its decimal text; doubles, `NaN` pages and
  fractional offsets are not modelled.
- LIKE follows the database's rule that a backslash quotes `%`, `_` and itself; other escapes are not modelled.
- The database itself: the sort order and its ties, `UInt32` limits, time zones and types of the columns. A table is a
  sequence that stays the same between pages.
- Facets, histograms, patterns, context and the statistics queries: they reuse the same WHERE text.
- Page tokens the service did not make: what lenient base64 and JSON parsing make of them is a parameter (`foreign`).
- PageToken.DecodeEncode: is about ASCII text, because a page token only ever holds the JSON text of an offset.
- `Date` parsing, the clock, JSON parsing, `randomUUID`, DNS and Express's own check of a proxy list are parameters.
- The language model's translation is a parameter of the planner; prompts, metrics and logging are left out.
- UrlGuardRanges.GuardIsRangeCheck: speaks of no operator NAT64 prefixes; for addresses under such a prefix see
  `GuardTexts.PrefixJudges`.
- UrlGuardRanges.TeredoExact: states which Teredo texts are decoded; for the others the guard's answer is stated,
  not whether their client address is in a blocked range.
- Sockets, TLS and headers of the outbound request: only its addresses are followed.
- AlertSystem.OpenIncidentsBounded: is about one worker process, as the code's flag is.
- Team roles are given with each request; how they are looked up, and the write roles of incident routes, are left out.
- Saved-view requests are atomic steps; the code does not guard interleavings inside one request.
- The order of equal rows in the list of saved views is the database's.
- Session storage of the time range and the effect that copies a valid URL range into the screen.
- Lone surrogates, on which percent-encoding throws: Dafny's characters are Unicode scalar values.
- The message texts of errors, batch ids, log ids, and the titles and time stamps of issues.
- Issues.BatchRaisesCounts: assumes that each upsert succeeds and is atomic; a failing one is logged and dropped by the
  code.
- Regular expressions of fingerprints and pattern normalisation in JavaScript: fingerprints and signatures are functions
  given from outside.
