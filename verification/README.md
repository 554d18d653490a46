# Verified model of the rule and OAuth services

This project models the stateful core of the service in Dafny and proves what it keeps over whole runs:

- **OAuth grants** (`SessionStore`, `OAuthProtocol`, `OAuthProvenance`, `OAuthLinear`, `OAuthRevocation`,
  `OAuthSingleUse`, `OAuthProvider`, `OAuthOutcomes`). A pending request becomes an authorization code, then an access
  and refresh pair, then rotated pairs. The protocol is a state machine over single store operations, so any number of
  requests interleave. The class `Provider` holds the store's dictionaries and is tied to the protocol call by call.
  The relevant requirements are sections 4.1.2 and 6 of RFC 6749 and section 2 of RFC 7009.
- **Versioned rules** (`VersionedRules`, `RuleHistory`, `RuleMeaning`, `VersionAllocation`, `RuleTransfer`,
  `TransferMeaning`). Streams of immutable versions, the layered selection that one read serves, version numbers under
  concurrent publishes, and the round trip through an exported file.
- **The rule cache** (`CacheKeys`, `RuleQueries`, `RuleCache`, `RuleStaleness`, `RuleStore`, `StoreMeaning`). Keys and
  flush patterns, and a state machine in which publishes commit and flush, and reads run statement by statement and
  then store, in separate interleaved steps; each statement sees the tables of its own moment. The class `Store` is the
  same service used one call at a time.
- **Chunking** (`HeadingChunker`, `ChunkMeaning`, `OverlapSplitter`, `SpecChunks`, `WindowMeaning`). The heading-aware
  parent/child chunker, the overlapping splitter, and the positions given to specification chunks.
- **Chunk index and search** (`RuleIndex`, `IndexRace`, `IndexMeaning`, `RuleSearch`, `RankFusion`, `CodeGraph`). The
  chunk table over runs of `index_rule`, one after another and overlapping, hits with parent context, reciprocal rank
  fusion in exact arithmetic, and the code graph traversal.

Code that changes state step by step is written as methods and classes, proved against functions on values; the
results over runs are lemmas about those functions. What those functions come to is stated once more on the fields
themselves, without naming them: in the modules whose names end in `Meaning`, in `OAuthOutcomes`, and in the lemmas
whose names end in `Exactly`.

## What turned out not to hold

Each of these is stated in the model, with the exact condition under which the property does hold.

- An authorization code can be exchanged twice by two requests that load it before either pops it, because the result
  of the pop is ignored (`OAuthRevocation.CodeReplayed`). A code is single-use exactly when no second request holds it
  as the first one pops it (`OAuthSingleUse.SingleUseExactly`), and can give a further token exactly while some client
  can load it or some request holds it (`OAuthSingleUse.FurtherTokenExactly`). What is always single-use is the grant
  that carries a user (`OAuthLinear.AtMostOneGrant`).
- A token refused for its age can be accepted on the next try (`OAuthRevocation.RefusedThenAcceptedExactly`): the store
  record's expiry is counted from the clock rounded down, the API key's from the clock itself.
- A revocation deletes the store record first; if its database step fails, never comes, or comes late, the token is
  accepted in every state from then on until its key row expires or a revocation of it runs to its end, exactly
  (`OAuthRevocation.FailedRevocationExactly`, with `OAuthRevocation.RevokedInVain`).
- The overlapping splitter cuts the end of every text over the default size twice (`OverlapSplitter.RedundantTail`); in
  general, a window that reaches the end is followed by another one exactly when the overlap is positive and shorter
  than the window (`OverlapSplitter.AnotherWindowExactly`).
- The position search can miss a specification chunk after a short one. Windows of any size give short chunks because
  they are trimmed, so it happens for every size and positive overlap (`SpecChunks.TrimmedChunkMissed`), the sizes in use
  among them (`SpecChunks.DefaultChunkMissed`). At the required length nothing is missed (`SpecChunks.SplitLocated`);
  one character short of it, a chunk can be (`SpecChunks.ShortChunkMissed`).
- A read of the rules is not one snapshot. A read that straddles two publishes can leave an answer in the cache that was
  never true (`RuleStaleness.TornRead`). A hit is the whole answer of a moment when none of its statements would have
  got another answer then, and its parts are that moment's exactly in that case (`RuleStaleness.HitsAreWhole`). The app's
  setting is even asked for twice, and a toggle in between leaves an answer that shows the old setting over the rows of
  the new one (`RuleStaleness.ToggledRead`).
- A hit with no covering flush pending need not be what a fresh read would give. It is so exactly when what was stored
  was what a fresh read would have given at the time of the store (`RuleCache.HitsAreFreshExactly`); a read that has run
  its statements before a publish commits and stores after its flush fails that (`RuleCache.RaceLeavesStale`).
- A toggle flushes nothing, so a hit stays wrong after it for the rest of its 300 seconds
  (`RuleStaleness.SilentChangeServesOld`), exactly when the toggle changes a setting that is in force for the request
  (`RuleStaleness.SettingsAlterExactly`, and `ToggleAltersExactly`, `PatternToggleAltersExactly` and
  `DefaultToggleAltersExactly` for the single toggles).
- Two app names can share a key exactly when one continues the other after a colon
  (`CacheKeys.NamesMayCollideExactly`). A publish flushes its app's own keys exactly when the name has neither `[` nor
  `\` (`CacheKeys.OwnKeysFlushedExactly`, for names without `*` and `:`). Any name without `[` and `\` is flushed
  (`CacheKeys.AppPatternFlushes`); one that has them beside a `*` or a `:` may be flushed or not
  (`CacheKeys.StarDecidesNothing`, `CacheKeys.ColonDecidesNothing`).
- An exported file does not bring the global rules back, loses sort orders, and loses a repository pattern literally
  called `__default__`; a section called `body` makes the import fail when its group has no text, and always does so
  among the global rules (`RuleTransfer.ExportThenImport`).
- Of two appends that read the same text, the second to commit drops what the first added
  (`RuleHistory.LostAppend`); nothing is lost exactly when the text at the commit is still the one that was read
  (`RuleHistory.AppendConserves`).
- Two overlapping index runs of one section can leave both versions' chunks in it: a section holds only the chunks of
  the run just finished exactly when no other run of the section finished since its delete
  (`IndexRace.OverlapExactly`).
- A rule whose new body has no text keeps its old chunks (`RuleIndex.NothingToIndexExactly`).

Where code and its own comments differ, the model follows the code: `list_distinct_repo_patterns` says that it sorts
the blank pattern first but sorts it last (app/services/versioned_rules.py:1581-1602); `import_rules` says that it
expects the exported structure but reads the global part in an older one (app/routers/admin_rules.py:231-260); and the
cache key contains the requested version although `get_rules_markdown` ignores it when it selects rows
(app/services/versioned_rules.py:915-1056).

## Model

| member | source | states |
|---|---|---|
| SessionStore.TTLDict.Set | app/auth/session_store.py:96-98 | setting a key replaces its value and deadline |
| SessionStore.TTLDict.Get | app/auth/session_store.py:100-108 | a read returns the value up to its deadline and throws an expired entry out |
| SessionStore.TTLDict.Pop | app/auth/session_store.py:110-117 | a pop removes the entry and returns it only if alive |
| SessionStore.TTLDict.Delete | app/auth/session_store.py:119-120 | a delete removes the entry |
| SessionStore.LazyExactly | app/auth/session_store.py:90-120 | on the entries: what is answered is the value of an entry whose deadline has not passed, and what each operation leaves |
| SessionStore.LazyRefinesPlain | app/auth/session_store.py:90-124 | evicting lazily is never seen: any chronological sequence of operations gets the answers of a plain map with deadlines |
| OAuthProvenance.TokensDescendFromLogins | app/auth/mcp_oauth_provider.py:148-266 | over every interleaving, each token with a user descends by an unbroken exchange chain from a completed login of that user, and each token belongs to the client whose request started the chain |
| OAuthProvenance.AcceptedCodeIsRecent | app/auth/mcp_oauth_provider.py:110-158 | an accepted code was minted for the presenting client from an authorize at most 600 s ago, plus the time the login took between its age check and minting |
| OAuthProvenance.StepKeepsProvenance | app/auth/mcp_oauth_provider.py:110-396 | every single store operation keeps the descent of codes, tokens, keys and requests in flight |
| OAuthLinear.AtMostOneGrant | app/auth/mcp_oauth_provider.py:148-266 | over every interleaving, a completed login has at most one live grant: the code's user entry, an exchange in progress, or one refresh token with a user |
| OAuthLinear.OneRefreshTokenPerLogin | app/auth/mcp_oauth_provider.py:219-266 | two refresh tokens that carry a user never descend from one login |
| OAuthLinear.OneCodePerRequest | app/auth/mcp_oauth_provider.py:360-396 | a pending request mints at most one code, and is gone once it has |
| OAuthOutcomes.RotationHandsOn | app/auth/mcp_oauth_provider.py:219-266 | over every interleaving, rotation hands the user on: the pair saved carries exactly the user that the old token held as it was popped, with 30 days and one hour, and a true user's access token has its key row |
| OAuthOutcomes.ExchangeHandsOn | app/auth/mcp_oauth_provider.py:148-198 | the same for a code: the pair carries exactly the user stored for it |
| OAuthOutcomes.RefreshCanBeUsed | app/auth/mcp_oauth_provider.py:200-266 | from every reachable state with an acceptable refresh token, some run ends with an accepted access token and a new refresh token for its client and user, and without the old one |
| OAuthOutcomes.CodeCanBeUsed | app/auth/mcp_oauth_provider.py:129-198 | the same for an acceptable code and the user stored for it |
| OAuthOutcomes.AnyoneCanLogIn | app/auth/mcp_oauth_provider.py:360-396 | from every reachable state some run gives any client and user a code of five minutes |
| OAuthOutcomes.AcceptedExactly | app/auth/mcp_oauth_provider.py:129-318 | on the entries: what is accepted of codes, refresh tokens and access tokens |
| OAuthOutcomes.CodeLoadStartsExactly | app/auth/mcp_oauth_provider.py:129-146 | a load starts an exchange exactly for a live, unexpired code of the client |
| OAuthOutcomes.RefreshLoadStartsExactly | app/auth/mcp_oauth_provider.py:200-217 | likewise for a refresh token |
| OAuthOutcomes.RevocationIsFinal | app/auth/mcp_oauth_provider.py:320-336 | over every interleaving, once a revocation has deleted the key row neither table has the token again |
| OAuthOutcomes.RevocationStarts | app/auth/mcp_oauth_provider.py:320-336 | a revocation deletes the store entry first and holds the token for its second half |
| OAuthRevocation.RevokedNeverAccepted | app/auth/mcp_oauth_provider.py:268-336 | once an access token's revocation has run, no later state of any run accepts it |
| OAuthSingleUse.FurtherTokenExactly | app/auth/mcp_oauth_provider.py:129-198 | from every reachable state, some continuation makes a further token from a code exactly when some client can still load the code or some request holds it |
| OAuthSingleUse.SingleUseExactly | app/auth/mcp_oauth_provider.py:148-198 | after a request pops a code, another request can make tokens from it exactly when another one held it |
| OAuthRevocation.CodeReplayed | app/auth/mcp_oauth_provider.py:148-198 | from every reachable state with an accepted code, two requests that both load it can both obtain accepted access tokens; the second has no user |
| OAuthRevocation.RefusedThenAcceptedExactly | app/auth/mcp_oauth_provider.py:268-318 | a refused token is accepted on the next try exactly when its store record is present and expired and its API key is not |
| OAuthRevocation.RefusedThenAccepted | app/auth/mcp_oauth_provider.py:160-187 | this happens in a reachable state, an hour after an ordinary login and exchange |
| OAuthRevocation.FailedRevocationExactly | app/auth/mcp_oauth_provider.py:320-336 | in every state of every run after a revocation has deleted the store record, whatever becomes of its database step and whatever comes in between, the token is accepted exactly while no revocation of it has run to its end, its key row was there, and that row is unexpired |
| OAuthRevocation.RevokedInVain | app/auth/mcp_oauth_provider.py:320-336 | this happens: a token from an ordinary login is accepted for an hour after its failed revocation |
| OAuthProvider.Provider.constructor | app/auth/session_store.py:127-137 | a new provider is in the protocol's initial state |
| OAuthProvider.Provider.Authorize | app/auth/mcp_oauth_provider.py:110-127 | stores a pending request under a fresh id: the protocol's authorize step |
| OAuthProvider.Provider.CompleteAuthorization | app/auth/mcp_oauth_provider.py:360-396 | pops the request; a live, recent one gives a fresh code with its user, anything else gives none |
| OAuthProvider.Provider.LoadAuthorizationCode | app/auth/mcp_oauth_provider.py:129-146 | accepts exactly the live codes of the presenting client and throws expired ones out |
| OAuthProvider.Provider.ExchangeAuthorizationCode | app/auth/mcp_oauth_provider.py:148-198 | ends in the state of the whole exchange: code and user gone, that user on the two new entries and, for a true user, on the key row |
| OAuthProvider.Provider.LoadRefreshToken | app/auth/mcp_oauth_provider.py:200-217 | accepts exactly the live refresh tokens of the presenting client |
| OAuthProvider.Provider.ExchangeRefreshToken | app/auth/mcp_oauth_provider.py:219-266 | ends in the state of the whole rotation: the old token gone, its user on the two new entries and, for a true user, on the key row |
| OAuthProvider.Provider.LoadAccessToken | app/auth/mcp_oauth_provider.py:268-318 | a store record decides if there is one, else the API key row |
| OAuthProvider.Provider.RevokeAccessToken | app/auth/mcp_oauth_provider.py:320-336 | deletes the record and, unless the database fails, the API key |
| OAuthProvider.Provider.RevokeRefreshToken | app/auth/mcp_oauth_provider.py:320-336 | deletes the refresh token |
| OAuthProvider.Provider.Mint | app/auth/mcp_oauth_provider.py:159-198 | stores a key if there is a user, then the refresh and the access token, all under fresh ids |
| OAuthProvider.ProviderIsSafe | app/auth/mcp_oauth_provider.py:87-396 | in every state the calls can reach (each method keeps it reachable), no revoked access token is accepted and no two refresh tokens with a user share a login |
| VersionedRules.TrimLower | app/services/versioned_rules.py:1170-1181 | trimming and lower-casing commute, so writers and readers agree on an app's key |
| VersionedRules.MaxVersion | app/services/versioned_rules.py:1160-1195 | the greatest version of a stream, attained by one of its rows, or 0 |
| RuleHistory.PublishKeeps | app/services/versioned_rules.py:1233-1363 | a publish keeps all rows, keeps every stream gapless from 1 and without repeats, and its row is the latest |
| RuleHistory.RollbackAppRestores | app/services/versioned_rules.py:1435-1454 | a rollback succeeds exactly when the app name is not blank and the version exists, and then the latest body is that version's again with the history kept |
| RuleHistory.RollbackGlobalRestores | app/services/versioned_rules.py:1418-1432 | the same for a global section |
| RuleHistory.RollbackRepoRestores | app/services/versioned_rules.py:1457-1476 | the same for a repository pattern, whose sort order is kept too |
| RuleHistory.SectionsMeaning | app/services/versioned_rules.py:497-519 | an owner's served rows are exactly the latest row of each of its sections, each section once |
| RuleHistory.ResolveRepoMeaning | app/services/versioned_rules.py:672-711 | the chosen pattern is the least matching one by sort order and name; a blank pattern only if none matches; none only if neither exists |
| RuleHistory.SectionsOrdered | app/services/versioned_rules.py:517-519 | the served sections are in alphabetical order with `main` first |
| RuleHistory.AppServedExactly | app/services/versioned_rules.py:1025-1040 | a read serves the app's latest rows, and the default app's exactly when its option says so or it has none of its own |
| RuleHistory.NothingPublishedExactly | app/services/versioned_rules.py:497-519 | an app has no rows to serve exactly when nothing was ever published for it |
| RuleHistory.RepoServedExactly | app/services/versioned_rules.py:1002-1023 | a read serves the chosen pattern's latest rows, and the blank pattern's exactly when that pattern's option says so |
| RuleHistory.AppendConserves | app/services/versioned_rules.py:1286-1305 | after an append the text is the one that was read followed by the addition; what is there at the commit is kept exactly when it reads the same as what was read |
| RuleHistory.LostAppend | app/services/versioned_rules.py:1286-1305 | of two appends that read the same text, the second to commit drops the first one's addition |
| RuleHistory.AppendIsUndisturbed | app/services/versioned_rules.py:1286-1305 | an append with nothing in between is the case where the text read is the text there |
| RuleHistory.SelectServesLatestOnce | app/services/versioned_rules.py:1000-1040 | every served row is the latest of its stream and none is served twice |
| RuleHistory.SnapshotAgrees | app/services/versioned_rules.py:1059-1157 | the version snapshot's section maps and flags are those of the rows a full read serves, the default app's where the app has none; without an app, the global map and the blank pattern's flag |
| RuleHistory.SectionsElsewhere | app/services/versioned_rules.py:1255-1283 | a publish for one owner leaves every other owner's served rows alone |
| RuleHistory.AppPublishIsLocal | app/services/versioned_rules.py:1276-1282 | what one app serves depends on no other app but the default one |
| RuleMeaning.TrimExactly | app/services/versioned_rules.py:1170-1181 | trimming cuts all ASCII white space off both ends and nothing else |
| RuleMeaning.AppKeyExactly | app/services/versioned_rules.py:500 | an app's key is its name, trimmed, with capitals made small |
| RuleMeaning.LowerExactly | app/services/versioned_rules.py:695-709 | lower-casing makes capitals small and keeps the rest |
| RuleMeaning.OccursExactly | app/services/versioned_rules.py:704-707 | a pattern occurs in a URL exactly when the URL contains it |
| RuleMeaning.LeqExactly | app/services/versioned_rules.py:694 | the alphabetical order: a beginning, or smaller at the first difference |
| RuleMeaning.StreamWords | app/db/rule_models.py:71-78 | on the fields: no two rows share owner, section and version, and no version is left out |
| RuleMeaning.NewestExactly | app/services/versioned_rules.py:497-519 | on the fields: the latest row has the greatest version of its owner and section |
| RuleMeaning.NextVersionExactly | app/services/versioned_rules.py:1160-1195 | the next version is above all of the stream and follows the greatest, or is 1 |
| RuleMeaning.SectionsExactly | app/services/versioned_rules.py:497-519 | an owner's rows are exactly the newest of each section, `main` (and a nameless section) first, the others by name |
| RuleMeaning.MainComesFirst | app/services/versioned_rules.py:517-519 | no section comes twice, and `main` is the first where sections have names |
| RuleMeaning.ResolveExactly | app/services/versioned_rules.py:672-711 | on the fields: of the main rows whose pattern occurs in the URL the one with the smallest sort order and then name; else a blank one; none only if there is neither |
| RuleMeaning.GlobalExactly | app/services/versioned_rules.py:998-1001 | a read serves exactly the newest global rows, and without an app nothing else |
| RuleMeaning.RepoExactly | app/services/versioned_rules.py:1003-1023 | it serves exactly the newest rows of the chosen pattern, and beside them the blank pattern's if that pattern's setting says so |
| RuleMeaning.AppExactly | app/services/versioned_rules.py:1025-1040 | it serves exactly the app's newest rows and, by its setting, the default app's beside them; without the setting these stand in exactly when the app has no rows |
| RuleMeaning.FlagsExactly | app/services/versioned_rules.py:220-308 | a setting is that of its own row, else the fallback; the default app's is off |
| RuleMeaning.AppWritten | app/services/versioned_rules.py:1255-1283 | a publish for an app is refused exactly for a blank name, and else adds one row, at the next version, under the normalised names |
| RuleMeaning.GlobalWritten | app/services/versioned_rules.py:1233-1252 | a global publish adds one row at the next version and changes nothing else |
| RuleMeaning.RepoWritten | app/services/versioned_rules.py:1308-1363 | a publish for a pattern adds one trimmed row with the sort order given, inherited or 100, and the pattern's setting if it has none |
| RuleMeaning.AppendWritten | app/services/versioned_rules.py:1286-1305 | an append is refused exactly for a blank name or addition; else it adds the newest text of the app's section, or of the default app's, then a blank line and the addition, trimmed |
| RuleMeaning.RollbacksWritten | app/services/versioned_rules.py:1418-1476 | a rollback goes through exactly when the version is there, and adds a row with that version's body |
| RuleMeaning.SnapshotVersions | app/services/versioned_rules.py:1059-1157 | the snapshot's version numbers are main's of the rows served, else the first section's; the default app's exactly when the app has no rows |
| RuleMeaning.SnapshotMaps | app/services/versioned_rules.py:1059-1157 | its maps list exactly the served sections with their versions |
| VersionAllocation.StreamsExact | app/services/versioned_rules.py:1160-1195 | over every interleaving of publishes, each stream holds exactly the versions 1 to its maximum, each once, and rows never change or go |
| VersionAllocation.AcceptedIffUndisturbed | app/services/versioned_rules.py:1268-1273 | an insert is let in exactly when no row of its stream was written since its number was read |
| VersionAllocation.AcceptedExactly | app/db/rule_models.py:71-78 | the unique constraint lets a number in exactly when it is still the next one |
| VersionAllocation.PublishOutcome | app/services/versioned_rules.py:1268-1273 | over every interleaving, a publish writes its own row with the version it read exactly when no row of its stream was added meanwhile, and else nothing |
| CacheKeys.SharedKeyExactly | app/services/rule_cache.py:54-70 | plain requests share a key exactly when they agree on app, version and (given an app) origin |
| CacheKeys.NamesMayCollideExactly | app/services/rule_cache.py:54-70 | two app names can share a key exactly when one continues the other after a colon |
| CacheKeys.AppPatternFlushes | app/services/rule_cache.py:100-127 | an app's pattern flushes all its keys, even if the name holds `*` or `?` |
| CacheKeys.OwnKeysFlushedExactly | app/services/versioned_rules.py:1279-1282 | for names without `*` and `:`, a publish flushes each key of its own app exactly when the name has neither `[` nor a backslash |
| CacheKeys.StarDecidesNothing | app/services/rule_cache.py:100-127 | beside a `*`, a backslash or bracket may or may not spoil the flush |
| CacheKeys.ColonDecidesNothing | app/services/rule_cache.py:100-127 | beside a `:`, a bracket may or may not spoil the flush |
| StoreMeaning.KeysExactly | app/services/rule_cache.py:54-70 | plain requests share a key exactly when they agree on app, version number and (given an app) origin |
| StoreMeaning.CacheableExactly | app/services/versioned_rules.py:936-950 | a request is cached exactly when it has no app or an origin |
| StoreMeaning.OwnPatternExactly | app/services/versioned_rules.py:1279-1282 | an ordinary app's pattern matches a plain request's key exactly when the request is for that app |
| StoreMeaning.KeptExactly | app/services/versioned_rules.py:1233-1363 | a publish leaves an entry exactly when it is for another app and not the default one |
| StoreMeaning.FlushStepExactly | app/services/rule_cache.py:100-127 | a flush step of the protocol likewise |
| StoreMeaning.CommittedExactly | app/services/versioned_rules.py:1233-1363 | each publish adds one row to one table, and is refused exactly for a blank app name |
| StoreMeaning.GetsExactly | app/services/versioned_rules.py:915-1056 | an entry answers for 300 seconds; else the tables do, and the answer is entered exactly for an eligible request |
| StoreMeaning.HitExactly | app/services/rule_cache.py:73-97 | when a request is answered from the cache |
| StoreMeaning.StatementsExactly | app/services/versioned_rules.py:1000-1040 | each part of a read's answer comes from the tables of its own statement, in this order |
| StoreMeaning.LaidExactly | app/services/versioned_rules.py:1000-1040 | how the parts are laid out |
| RuleCache.PublishCovers | app/services/versioned_rules.py:1233-1363 | whatever answer a publish changes, its flush covers the key of that answer |
| RuleQueries.UndisturbedIsSelect | app/services/versioned_rules.py:1000-1040 | the statements of a read, all run on the same tables, lay out the selection of those tables |
| RuleQueries.OneMomentExactly | app/services/versioned_rules.py:1000-1040 | a read has the answers of one set of tables exactly when none of its statements would have got another answer from them |
| RuleCache.HitsAreFresh | app/services/versioned_rules.py:915-1056 | over every interleaving of single statements and publishes, a hit is what a fresh read would give now, unless a flush covering its key is pending or a commit changed an answer of the storing read between its first statement and the store |
| RuleCache.HitsAreFreshExactly | app/services/versioned_rules.py:915-1056 | over every interleaving, a hit comes from a store after which nothing touched its entry; with no covering flush pending, it is what a fresh read would give now exactly when what was stored was what a fresh read would have given then |
| RuleCache.StoredFreshExactly | app/services/versioned_rules.py:1054-1056 | the same from any state with a store at hand: a writer could tell just before storing |
| RuleCache.RaceLeavesStale | app/services/versioned_rules.py:1000-1055 | for every publish that changes an answer, a read that straddles it leaves the old answer cached with nothing pending |
| RuleStaleness.HitsAreRecent | app/services/rule_cache.py:89-97 | with lost flushes and silent changes allowed, each part of a hit is what its statement truly found at a moment at most 300 s ago plus the storing read's own duration |
| RuleStaleness.HitsAreWhole | app/services/versioned_rules.py:1000-1040 | for the tables of any moment, a hit's parts are those of the tables exactly when none of its statements would have got another answer from them, and then the hit was the true answer at that moment |
| RuleStaleness.UndisturbedHitsAreWhole | app/services/versioned_rules.py:1000-1040 | so it was true at the read's last statement if nothing found earlier had changed by then |
| RuleStaleness.TornRead | app/services/versioned_rules.py:1000-1055 | for every store of rules and every app, a global and an app publish inside a read leave an answer cached that was true at no moment |
| RuleStaleness.SilentChangeServesOld | app/services/versioned_rules.py:310-322 | after a change without a flush a correct hit goes on being served until exactly 300 s after its store, and is right exactly when the change did not alter the answer |
| RuleStaleness.SettingsAlterExactly | app/services/versioned_rules.py:219-338 | however the settings change, an app's answer is altered exactly when one of the two settings in force for it is |
| RuleStaleness.ToggleAltersExactly | app/services/versioned_rules.py:310-322 | an app's toggle alters its answers exactly when it changes the setting in force |
| RuleStaleness.ToggleIsLocal | app/services/versioned_rules.py:310-322 | an app's toggle alters no other app's answers |
| RuleStaleness.PatternToggleAltersExactly | app/services/versioned_rules.py:239-249 | a pattern's toggle alters an app's answer exactly when the pattern is the chosen one and the setting in force changes |
| RuleStaleness.DefaultToggleAltersExactly | app/services/versioned_rules.py:278-338 | a toggle of the fallback settings alters an answer exactly when it changes one that no row of its own overrules |
| RuleStaleness.ToggledRead | app/services/versioned_rules.py:1011-1040 | a toggle between the two questions for an app's setting leaves the old setting shown over the new one's rows, which was true at no moment exactly when the default app has rows |
| RuleStore.Store.Invalidate | app/services/rule_cache.py:100-127 | the scan loop deletes exactly the matching keys and returns their number |
| RuleStore.Store.PublishGlobal | app/services/versioned_rules.py:1233-1252 | adds the next version, flushes everything, keeps the cache coherent and the streams regular |
| RuleStore.Store.PublishApp | app/services/versioned_rules.py:1255-1283 | refuses a blank name; else adds the next version, flushes the app's keys (all for the default app), and keeps the cache coherent |
| RuleStore.Store.PublishRepo | app/services/versioned_rules.py:1308-1363 | adds the next version with the inherited sort order and the pattern's option, flushes everything, keeps the cache coherent |
| RuleStore.Store.AppendApp | app/services/versioned_rules.py:1286-1305 | puts the addition after the latest body (the default app's if there is none) as a new version, keeping the cache coherent |
| RuleStore.Store.RollbackApp | app/services/versioned_rules.py:1435-1454 | republishes the named version if it exists, keeping the cache coherent |
| RuleStore.Store.RollbackGlobal | app/services/versioned_rules.py:1418-1432 | the same for a global section |
| RuleStore.Store.RollbackRepo | app/services/versioned_rules.py:1457-1476 | the same for a repository pattern |
| RuleStore.Store.SelectRows | app/services/versioned_rules.py:1000-1040 | the queries of a read, one after another on the same tables, return the selection |
| RuleStore.Store.GetRules | app/services/versioned_rules.py:915-1056 | returns a live entry or selects and caches; with a coherent cache the answer is that of the tables alone |
| RuleStore.AnswerFresh | app/services/rule_cache.py:73-86 | reading through a coherent cache gives what a fresh selection gives |
| RuleTransfer.ExportThenImport | app/routers/admin_rules.py:231-317 | importing an export succeeds exactly when the file is readable; then apps come back exactly with their non-blank latest bodies trimmed, repositories exactly when no pattern is literally `__default__`, and globals never |
| RuleTransfer.ReposCarriedExactly | app/services/versioned_rules.py:1529-1537 | the repository part comes back exactly when no `__default__` pattern has text |
| RuleTransfer.GlobalsNeverImported | app/routers/admin_rules.py:252-260 | no file of the exported shape brings a global rule back |
| RuleTransfer.UnreadableCrashes | app/routers/admin_rules.py:279-284 | a group without text but with a section called `body` makes the import fail |
| RuleTransfer.ImportRules | app/routers/admin_rules.py:231-317 | the import loops publish what the functional description of the import says |
| RuleTransfer.PatternExported | app/services/versioned_rules.py:1519-1548 | every pattern but a literal `__default__` has its rows in the file |
| TransferMeaning.GlobalsExported | app/services/versioned_rules.py:1519-1548 | the file's global part is exactly the newest global rows |
| TransferMeaning.AppsExported | app/services/versioned_rules.py:1519-1527 | it has one group for each app name, in alphabetical order, with exactly the app's newest rows |
| TransferMeaning.ReposExported | app/services/versioned_rules.py:1529-1537 | every pattern but a literal `__default__` has exactly its newest rows there, the blank one under `__default__` |
| TransferMeaning.ImportExactly | app/routers/admin_rules.py:231-317 | importing any file into any tables goes through exactly when nothing in it trips, and then publishes exactly its rows with text, trimmed, in order |
| HeadingChunker.SplitTextLoop | app/spec/chunking.py:28-48 | the cursor loop computes the split of the text |
| HeadingChunker.SplitBounds | app/spec/chunking.py:28-48 | every piece is trimmed, non-empty, within the size, and a substring of the text |
| HeadingChunker.SplitConserves | app/spec/chunking.py:28-48 | the pieces, white space aside, are the text |
| HeadingChunker.SectionSplits | app/spec/chunking.py:122-153 | a trimmed non-empty body that fits the child size is one piece; a longer one gives two or more |
| HeadingChunker.SplitByHeadingsLoop | app/spec/chunking.py:160-182 | the loop over the headings computes the sections |
| HeadingChunker.ChunkLoop | app/spec/chunking.py:107-158 | the two counters and the appended list compute the chunk records |
| HeadingChunker.ParentIffTwoChildren | app/spec/chunking.py:122-153 | a section gives a parent exactly when it yields two or more children |
| HeadingChunker.ChunkNumbering | app/spec/chunking.py:107-158 | child indices are 0 to n-1 and parent indices -1 to -m, in order |
| HeadingChunker.ChunkLinks | app/spec/chunking.py:122-153 | a child's parent index names an earlier parent with its heading whose text contains it, and every parent has two or more children |
| HeadingChunker.ChunkConserves | app/spec/chunking.py:107-182 | the children's contents, white space aside, are the text without its heading spans |
| ChunkMeaning.SplitExactly | app/spec/chunking.py:28-48 | each window ends after the last occurrence, in its last two thirds, of the first separator that has one, and at the size if none has; the pieces are what trimming leaves |
| ChunkMeaning.SectionsExactly | app/spec/chunking.py:160-182 | the sections are the text before the first heading and then, under each heading, what follows it |
| ChunkMeaning.RecordsExactly | app/spec/chunking.py:107-158 | every record is made from one section: its heading, its text or a piece of at most 400 characters, metadata, embedded text, and a parent exactly above 400 |
| ChunkMeaning.EnrichExactly | app/spec/chunking.py:83-90 | the embedded text has title and heading in brackets in front, if there are any |
| OverlapSplitter.SplitLoop | app/spec/chunking.py:51-80 | the cursor loop ends for every size of at least 1 and computes the pieces of the windows |
| OverlapSplitter.WindowsTile | app/spec/chunking.py:51-80 | windows advance, leave no gap, share at most the overlap, and exceed the size by at most one |
| OverlapSplitter.WindowsCover | app/services/chunking.py:13-42 | every position lies in some window |
| OverlapSplitter.DefaultAdvance | app/services/chunking.py:13-42 | with 1800 and 180, a window short of the end advances by at least 423 |
| OverlapSplitter.OversizeIsTight | app/services/chunking.py:26-34 | the extra character is reached for every size from 2 on |
| OverlapSplitter.AnotherWindowExactly | app/services/chunking.py:36-40 | a window that reaches the end is followed by another exactly when the overlap is positive and shorter than the window |
| OverlapSplitter.RedundantTail | app/services/chunking.py:13-42 | for every text over 1800 characters, the last window lies inside the one before it |
| OverlapSplitter.ChunkSizes | app/services/chunking.py:13-42 | every chunk is non-empty, at most one over the size, and a substring |
| OverlapSplitter.ChunksPlaced | app/services/chunking.py:13-42 | the chunks lie in the text at their windows' trimmed places, in order and with bounded overlap |
| OverlapSplitter.FixedSizeChunk | app/spec/chunking.py:185-214 | every piece becomes an independent child record numbered by its position |
| WindowMeaning.SplitExactly | app/services/chunking.py:13-42 | a text that fits is kept whole; else each window ends two characters past the last separator in its last two thirds, or at the size, and the next one starts the overlap before that end |
| WindowMeaning.BestCutExactly | app/services/chunking.py:26-34 | the scan finds the last place where any separator stands |
| SpecChunks.ExtractHeaders | app/services/chunking.py:45-52 | lists the headers with their line numbers |
| SpecChunks.HeadersOrdered | app/services/chunking.py:45-52 | the headers listed are in line order and each is the header of its own line |
| SpecChunks.HeadersComplete | app/services/chunking.py:45-52 | no header line is left out |
| SpecChunks.NearestHeader | app/services/chunking.py:55-62 | returns the last header at or above the line, or none |
| SpecChunks.ChunkSpecText | app/services/chunking.py:65-91 | gives each chunk of the split its searched position and the heading above it |
| SpecChunks.SplitLocated | app/services/chunking.py:65-91 | found positions strictly increase; if every chunk but the last is long enough, all are found, at or before their windows |
| SpecChunks.LongEnoughExactly | app/services/chunking.py:75-88 | long enough means 2*overlap - 1 characters, for overlaps from 2 on |
| SpecChunks.ShortChunkMissed | app/services/chunking.py:75-88 | for every overlap from 3 on, with pieces one character shorter, a text is split so that its second chunk is missed |
| SpecChunks.TrimmedChunkMissed | app/services/chunking.py:75-88 | for every size and positive overlap, a text is split so that its second chunk is missed |
| SpecChunks.DefaultChunkMissed | app/services/chunking.py:9-10 | so it is with 1800 and 180 |
| SpecChunks.LineOfPosition | app/services/chunking.py:79-82 | counting newlines before a position gives the line it is on |
| WindowMeaning.LocateExactly | app/services/chunking.py:75-88 | each chunk is given the first place at or after half of the last found chunk past its place |
| WindowMeaning.HeadingExactly | app/services/chunking.py:79-86 | its heading is that of the last header at or above its line, unless the title is empty |
| WindowMeaning.LinesExactly | app/services/chunking.py:45-52 | the lines joined by newlines are the text, and none has one |
| RankFusion.Fuse | app/services/search_hybrid.py:17-25 | the output is the union of the lists without repeats, sorted by exact score with ties in first-seen order |
| RankFusion.FusedUnique | app/services/search_hybrid.py:17-25 | that description fixes the output |
| RankFusion.FusedByWorth | app/services/search_hybrid.py:17-25 | two lists without repeats fuse to their ids, each worth more than all that follow, or the same and met earlier; an id is worth one over k plus its rank in each list |
| RankFusion.ScoreExactly | app/services/search_hybrid.py:17-25 | with repeats, every occurrence counts |
| RankFusion.ParetoOrder | app/services/search_hybrid.py:17-25 | an id that another one dominates in every list comes after it |
| RankFusion.TwoWorstBeatOneBest | app/services/search_hybrid.py:17-25 | two worst ranks outweigh one best rank exactly while the lists are shorter than k + 2 |
| RankFusion.SearchBothBeforeOne | app/services/search_rules.py:127-141 | with two lists of at most 40 and k = 60, an id in both lists precedes any id in only one |
| RankFusion.BothBeforeOneFails | app/services/search_hybrid.py:17-25 | from length k + 2 on there are lists where it does not |
| CodeGraph.Explore | app/services/search_hybrid.py:260-293 | a direction's result is the non-seed nodes within the rounds run, on any graph |
| CodeGraph.ExploreMeaning | app/services/search_hybrid.py:260-293 | these are exactly the nodes on a path of at most that many steps; all reachable ones if it stopped short of both limits |
| CodeGraph.StopsOnce | app/services/search_hybrid.py:260-293 | the links decide at which round it stops |
| CodeGraph.StopsExactly | app/services/search_hybrid.py:260-293 | it stops after the first round that met nothing new or reached a limit |
| CodeGraph.Traverse | app/services/search_hybrid.py:242-331 | on the edge rows: downstream lists in id order exactly the known nodes that are no seeds and lie at the end of a path from a seed along source and target, upstream the same backwards, within the rounds run; and exactly the edges among all nodes met |
| CodeGraph.DownstreamJoined | app/services/search_hybrid.py:313-331 | every node met downstream is at the end of a path from a seed along the returned edges |
| CodeGraph.UpstreamJoined | app/services/search_hybrid.py:313-331 | every node met upstream is at the end of a path from a seed backwards along the returned edges |
| RuleIndex.Repository.DeleteBySection | app/rule/repository.py:23-42 | removes exactly the rows of the section key |
| RuleIndex.Repository.SaveParent | app/rule/repository.py:44-75 | inserts the row and returns its new id, or reports a conflict |
| RuleIndex.Repository.SaveChildren | app/rule/repository.py:77-115 | queues one row per child with its vector and its parent's id |
| RuleIndex.Repository.IndexRule | app/rule/service.py:31-117 | the sequence of deletes, saves and commit has the effect of one atomic replacement, or none |
| RuleIndex.RunKeeps | app/rule/service.py:51-102 | over every run of calls one after another, each section holds exactly the rows of its last indexed call, slots are unique, and every parent link leads to a parent of the same entity that contains the child |
| IndexRace.OverlapExactly | app/rule/service.py:70-102 | over every interleaving of deletes and commits, slots stay unique and links resolve; a section holds only the rows of the call just indexed exactly when no other call of the section was indexed between its delete and its commit |
| IndexRace.RunKeepsOk | app/rule/repository.py:23-115 | every interleaving keeps the table's constraints and each open session's deleted rows closed under links |
| IndexRace.RunPersists | app/rule/repository.py:23-115 | over every interleaving, a row whose id was drawn earlier is gone or as it was |
| RuleIndex.ApplyIsLocal | app/rule/repository.py:23-42 | a call touches its own section only, and nothing unless it is indexed |
| RuleIndex.ConflictExactly | app/rule/repository.py:77-115 | a call is refused exactly when another section holds a row of the same type, entity and index |
| RuleIndex.NothingToIndexExactly | app/rule/service.py:51-66 | a body has nothing to index exactly when it has no visible text outside its headings |
| RuleIndex.ChunkerIsWellChunked | app/rule/service.py:43-50 | the heading chunker's records meet what the index needs |
| IndexMeaning.IndexedExactly | app/rule/service.py:70-102 | over every run of calls, an indexed call replaces its section by exactly the rows of its records: each with its own fields, the children with their own vectors and the ids of their parents' rows |
| IndexMeaning.FinishedExactly | app/rule/service.py:70-102 | over every interleaving, it takes out the section's rows of the time of its DELETE and adds its own, or on a conflict changes nothing |
| IndexMeaning.OutcomeExactly | app/rule/service.py:51-68 | when there is nothing to index, when the embedding has failed, and that then no row changes |
| IndexMeaning.DeleteExactly | app/rule/repository.py:23-42 | a deletion takes exactly the key's rows and unhooks links to them |
| IndexMeaning.ClashExactly | app/db/rag_models.py:117-122 | rows collide exactly on type, entity and index |
| RuleSearch.Hits | app/services/search_rules.py:146-183 | the ranked rows still there, in ranked order, each with the text of the parent it links to |
| RuleSearch.HybridRuleSearch | app/services/search_rules.py:79-183 | with each statement on the table of its own moment: the first ids of the fused list, or of the text ranking, up to the number asked for, and the hits of those still there, with the mode reported |
| RuleSearch.BestKept | app/services/search_rules.py:127-141 | every id kept is worth more than every id left out, or the same and met earlier |
| RuleSearch.PassesExactly | app/services/search_rules.py:90-106 | on the fields: which rows pass the filter |
| RuleSearch.PresentExactly | app/services/search_rules.py:146-154 | the ids shown are exactly the ranked ones still there, in ranked order |
| RuleSearch.HitExactly | app/services/search_rules.py:156-183 | a hit is its row with the content of the row its link leads to |
| RuleSearch.HitInContext | app/services/search_rules.py:141-183 | over every table that calls one after another leave, a hit shows a parent text exactly when it links to one, and its own text is a contiguous part of it |
| RuleSearch.HitInContextMeanwhile | app/services/search_rules.py:146-183 | over every interleaving of overlapping index calls, with more of them between the ranking, the rows and the parents: a hit is still the row ranked, shows a parent text exactly when its parent is still there, and then that text contains it |
| RuleSearch.HitInContextAtRest | app/services/search_rules.py:146-183 | over every interleaving, with nothing between rows and parents, every link is shown |

## Left out

- HTTP routes, templates, CSRF, metrics, logging, and the casing, branch and notice lines of the rule text; the model
  serves the selected rows instead of the text made from them.
- Scopes, PKCE, redirect URIs and client registration in OAuth; identifiers are fresh numbers and hashing is injective.
- OAuthProvider.Provider: one call reads one clock value and runs without interruption; interleaving within calls is
  in `OAuthProtocol`. Its ghost state and the protocol's log of logins and sources are bookkeeping that no operation reads.
- OAuthProvenance.AcceptedCodeIsRecent: the bound is 600 s plus the time between the age check and the minting of the
  code, because the clock may move between those two steps.
- OAuthRevocation.RevokedNeverAccepted: a client revokes only tokens it has been handed; a guess at a token that is
  still being made is not covered.
- OAuthProvider.Provider.RevokeAccessToken: takes any token, but its state is known to stay reachable only for a token
  that has been handed out.
- The instant at which Redis expires a key, and the fallback of separate GET and DELETE on old servers; pop is atomic.
- The regular expressions: headings are ordered disjoint non-empty spans, the Markdown header test and the extraction
  of an origin URL are parameters. Lines end at `\n` only in `SpecChunks`.
- Unicode: what counts as white space is a parameter of the chunkers; names of rules are ASCII.
- RuleStaleness.HitsAreRecent: 300 s are counted from the store, so the time from the read's first statement to its
  store is added; for plain app names only.
- RuleCache.HitsAreFresh and RuleCache.HitsAreFreshExactly: for plain app names only (no `:`, `[`, `\`, and not `-`); for others see
  `CacheKeys.NamesMayCollideExactly` and `CacheKeys.OwnKeysFlushedExactly`. Publishing allocates its number and commits
  in one step there; the two steps are apart in `VersionAllocation`. A flush is one step.
- RuleStore.Store.Invalidate: the pages of the scan together hold every key present; a Redis failure half way is left out.
- Redis pattern matching follows its documented rules for `*`, `?`, classes and escapes.
- Row ids, the domain column, limits and offsets of listings, and the audit columns of the rule tables.
- IndexRace.OverlapExactly: a call's ids are drawn at its commit, and its DELETE is one step.
- RuleTransfer.ExportThenImport: stored names are normalised as publishing leaves them, and JSON encoding is the identity.
- RuleStore.Store.GetRules: one call after another; reads whose statements are interrupted are in `RuleCache`.
- RuleHistory.AppendConserves: the section name is not blank; a name of white space only is read as the empty section
  and published to `main`.
- VersionedRules.TrimLower: names are ASCII, because case folding of other alphabets is not modelled.
- RuleHistory.SnapshotAgrees: the snapshot and the export are taken of one state of the tables.
- Patching a rule and the delete functions of the admin pages; deletions appear as
  changes without a flush in `RuleCache`.
- Floating-point rounding in rank fusion: scores are exact.
- Vector distance, full-text ranking and embedding: queries return given id lists, and embedding either fails or
  returns one vector per text.
- CodeGraph.Explore: one method serves both directions, with the links reversed for the upstream one.
- The doc, skill, workflow and spec services, which repeat the rule versions.
