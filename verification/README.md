# Fluxbase: verified models

These Dafny modules model the parts of Fluxbase that carry the most state and branching, and prove
what they guarantee. Verify everything with `dafny verify dfyconfig.toml`.

| module | models |
|---|---|
| `Conversation`, `ToolLoop` | messages, replies and the bounded tool loop of the SQL, web and action agents |
| `Supervisor`, `Turn` | the supervisor's plan, the specialist agents, the router, the synthesizer, the verifier, a whole turn |
| `Settings` | printing the settings tree as dotted keys and finding a value by such a key |
| `CredentialStores`, `Manager` | profiles and credentials over the config file and the keychain |
| `TokenRefresh`, `Client` | request authentication, token refresh, the environment's token |
| `ChatSession` | one chat connection: identity, impersonation, conversations |
| `ProviderCache` | the chat handler's provider cache against the provider records |
| `Chunking`, `Script` | replay chunks of a cached answer; dominant script of a text |
| `LogFollow`, `Timestamps` | `logs execution --follow` and `logs tail` as polling protocols; the order of timestamp texts |
| `Annotations`, `Migrations`, `Imports` | MCP annotation parser, migration list, import rewriter and validator |
| `ByteSize` | the unit of a byte count, in 64-bit integers |
| `Ordering`, `Options` | strict orders (with string comparison) and the optional value |

How the models are built:

- Code that updates state is a class or a method with a loop. Its contract ties the new state to a
  function or predicate on plain values; the properties are then lemmas about that function or
  predicate, for all inputs and all runs.
- Everything outside the code (the model provider, tool execution, the stores, the keychain, the
  server, the clock, cancellation) is an arbitrary stream or parameter that may fail at any point.
  Iteration over a Go map is an arbitrary pick.
- The router runs its agents one after the other, as `internal/ai/supervisor_graph.go` does although
  its header speaks of goroutines.

Where the code and its own words differ, the model follows the code:

- The SQL agent's comment says it pushes back once. It pushes back on every early answer until the
  floor is met or the last iteration is reached (`ToolLoop.PushBackExactly`, `ToolLoop.TwoPushBacks`).
- The transcript protocol holds exactly as long as the provider's tool-calling messages carry the
  assistant role, because they are appended as received (`ToolLoop.RequestsWellFormed`,
  `ToolLoop.OtherRoleBreaksProtocol`).
- The chunker's comment says runes stay intact. They do exactly when no cut without a space falls
  inside one, and always when every window of size - 1 bytes holds a space
  (`Chunking.RunesIntactExactly`, `Chunking.ShortWordsKeepRunes`, `Chunking.LongWordSplitsRune`).
- The script detector's comment says more than 60 percent; exactly 60 percent is enough
  (`Script.DominantScript`, `Script.SixtyPercentIsEnough`).
- Making a provider the default does not reach chatbots without their own provider while any other
  provider is cached (`ProviderCache.NewDefaultServedExactly`, `ProviderCache.NewDefaultNotServed`).
- A name annotation without a value makes the MCP parser panic, so a map that sets the name without
  one does not come back (`Annotations.MapReadsBack`, `Annotations.BareNamePanics`).
- Saving absent credentials to the keychain reads back as empty ones (`CredentialStores.SaveRefines`).
  No command saves absent credentials.
- A keychain entry that a switch to the file store leaves behind is ignored until a profile that points
  at the keychain is installed under the same name; then it is returned. The commands only install
  profiles that do not point at the keychain, so they do not meet this (`CredentialStores.StepRefines`,
  `CredentialStores.StaleEntryReturns`).
- A `node:` package imported in single quotes passes the validator, which searches for it in double
  quotes only (`Imports.RewrittenRejected`, `Imports.SingleQuotedNodePasses`).
- The log followers compare with the last entry shown first only. If that is not the furthest of the
  entries shown first, a later poll can print one of them again (`LogFollow.NeverTwiceExactly`,
  `LogFollow.DisorderRepeats`).
- `logs tail` compares timestamp texts, while the server orders by time and writes fractions without
  zeros at the end. An entry is dropped exactly when the last printed entry, or one before it in the
  reply, lies in the same second and its digits begin the entry's: a tie, `.123` after `.12`, or any
  fraction after a whole second (`LogFollow.TailDropsExactly`, `LogFollow.TailCompleteExactly`,
  `LogFollow.TailLosesEntries`).
- When the first fetch of `logs tail` is empty, polling starts from the clock, read after that fetch and
  in whole seconds: entries stored in between are never asked for, and the rest of that second is
  dropped as above.
- A full page of entries none of which `logs tail` would print, such as a hundred with the timestamp
  printed last, stops it for good (`LogFollow.FullPageStalls`).
- The router's comment says that a failing agent does not fail the turn, since the synthesizer can merge
  what the others found. It returns the first error, and the turn ends there
  (`Turn.AgentFailureEndsTurn`).
- An answer in the wrong language is reported as well grounded, since grounding is then not checked
  (`Turn.ReportExactly`).
- A settings key with a dot in it is printed but cannot be found by the printed key
  (`Settings.KeyReadsBack`, `Settings.DottedKeyIsLost`).

## Model

| member | source | states |
|---|---|---|
| Conversation.Tail | internal/ai/agent_sql.go:289-294 | the seed window is the last n messages of the history, or all of a shorter one |
| ToolLoop.Run | internal/ai/agent_sql.go:100-194 | for every provider and tool behaviour: which calls are made, that request k is the seed plus the blocks of the first k turns, how the run ends, and the rows and usage it collected |
| ToolLoop.ExecuteCalls | internal/ai/agent_sql.go:159-193 | a tool-calling turn appends the model's message and one answer per call in call order, and collects the successful results |
| ToolLoop.TranscriptWellFormed | internal/ai/agent_sql.go:142-193 | the messages appended in any stretch of turns are a sequence of protocol blocks if and only if each tool-calling reply among them had the assistant role |
| ToolLoop.RequestsWellFormed | internal/ai/agent_sql.go:103-193 | every request of a run starts with the seed, and what follows obeys the turn protocol if and only if all tool-calling replies so far had the assistant role |
| ToolLoop.RequestsReplay | internal/ai/agent_sql.go:142-193 | after the seed every request holds, turn by turn, the model's message as received and, next to each call's id, the text its execution yielded, or the early answer and a push-back |
| ToolLoop.OtherRoleBreaksProtocol | internal/ai/agent_sql.go:160-161 | concrete run with a tool-calling reply under another role: its second request breaks the protocol and the run still succeeds |
| ToolLoop.FinishUnique | internal/ai/agent_sql.go:103-157 | the environment determines the number of provider calls, the number of turns and the outcome |
| ToolLoop.FloorMet | internal/ai/agent_sql.go:142-157 | an answer before the last allowed call answers a request with at least floor tool messages; an unmet floor means all calls were used |
| ToolLoop.PushBackExactly | internal/ai/agent_sql.go:142-157 | an answer without tool calls is rejected with a push-back exactly while the floor is unmet and another iteration is left |
| ToolLoop.EndsExactly | internal/ai/agent_sql.go:103-157 | no call follows a cancelled context, a failed or empty reply is the last and decides the error, and an answer is the last reply's text or empty when all calls are used |
| ToolLoop.RowsExactly | internal/ai/agent_sql.go:161-193 | the collected rows are those of the successful tool calls, in turn and call order |
| ToolLoop.UsageTotals | internal/ai/agent_sql.go:124-126 | each figure of the collected usage is the sum of what the replies reported |
| ToolLoop.TwoPushBacks | internal/ai/agent_sql.go:142-157 | concrete run of three iterations with two push-backs |
| ToolLoop.TranscriptToolMessages | internal/ai/agent_sql.go:161-193 | the transcript holds one tool message per counted tool call (no fewer whatever roles the replies carry) |
| Supervisor.ParseSupervisorPlan | internal/ai/agent_supervisor.go:188-210 | the validation loop accepts exactly the decodable plans whose route names known agents only, and returns them unchanged |
| Supervisor.NormalisePlan | internal/ai/agent_supervisor.go:125-164 | the filtering loop and the fallbacks compute the normal form of the plan: language override, route, tool-call floor |
| Supervisor.RouteNormalised | internal/ai/agent_supervisor.go:137-159 | the route is never empty; under a whitelist all entries are on it, and it is the allowed part of the plan in order with repetitions, or the first allowed agent |
| Supervisor.RouteIdempotent | internal/ai/agent_supervisor.go:137-159 | normalising a route twice is normalising it once, so the chat fallback never breaks the whitelist |
| Supervisor.PlanNormalised | internal/ai/agent_supervisor.go:120-164 | an accepted plan normalises to a non-empty route of known agents, the configured language if there is one, and a floor that changes exactly when an investigative plan asks for no tool call, to one; the result would be accepted again and is stable under normalising |
| Turn.TurnState.RunSql | internal/ai/agent_sql.go:34-203 | every request opens with the two system prompts, the last four messages at most and the user's message; nothing without dependencies, else the loop with the plan's floor, its rows and usage, and one output with the fallback for an empty one |
| Turn.TurnState.RunWeb | internal/ai/agent_web.go:47-213 | every request opens with the two system prompts, the last ten messages at most and the user's message; no floor, no stored rows, one non-empty output on success |
| Turn.TurnState.RunAction | internal/ai/agent_specialists.go:118-250 | every request opens with the two system prompts, the last four messages at most and the user's message; the whole effect, including the fixed answer when no action tool is configured |
| Turn.TurnState.RunOneShot | internal/ai/agent_specialists.go:64-103 | the knowledge-base and chat agents make one call that opens the same way; its content, empty or not, is the single output |
| Turn.LoopContributes | internal/ai/agent_web.go:131-213 | a looping agent makes at most the set number of calls, five by default; a success adds one output, the final answer or the fallback for an empty one, a failure none; rows are kept or not, and every reply's usage is counted |
| Turn.AgentAnswers | internal/ai/agent_specialists.go:150-249 | what each agent's answer is made of: the text of a reply without tool calls, or the agent's own fixed text; only the SQL agent keeps rows |
| Turn.NoFloorNoPushBack | internal/ai/agent_sql.go:92-98 | under a plan that is not investigative every turn but the last asked for tools |
| Turn.RunAsks | internal/ai/agent_sql.go:66-76 | whatever the provider answers, the first request of a run is the two prompts, the end of the history and the question, and every later one begins with it |
| Turn.InvestigativeAnswerRests | internal/ai/agent_supervisor.go:161-164 | an investigative plan whose SQL agent answers before its last allowed call: the answered request contains at least the planned number of tool results, hence at least one |
| Turn.OutputsAccumulate | internal/ai/graph.go:105-149 | over any sequence of agent runs the outputs grow by one per success in order, and the final response is the newest output or unchanged |
| Turn.TurnState.Supervise | internal/ai/agent_supervisor.go:70-180 | the one request holds the two prompts and the user's message; the node succeeds exactly on a decodable, valid plan, stores its normal form, and leaves outputs and response alone |
| Turn.SupervisorStores | internal/ai/agent_supervisor.go:118-180 | the stored plan is the decoded one with the configured language if there is one, and that language is the one the answers are to be in |
| Turn.CallsCounted | internal/ai/agent_supervisor.go:106-114 | the usage of the supervisor's call is counted whatever becomes of its reply, that of a one-shot agent when it answers |
| Turn.DedupRoute | internal/ai/supervisor_graph.go:124-132 | the loop with the seen-set keeps the first mention of every agent |
| Turn.DedupSpec | internal/ai/supervisor_graph.go:124-132 | without repetitions the route has the same agents, each once, in the order of their first mention |
| Turn.TurnState.Route | internal/ai/supervisor_graph.go:109-222 | every distinct planned agent runs once in order in its own environment, an unavailable or failing one does not stop the others, and the node succeeds exactly when all did |
| Turn.RoutedExactly | internal/ai/supervisor_graph.go:59-66 | the SQL, knowledge-base, action and chat agents run when planned, the web agent when it is also enabled; any other stop fails without effect |
| Turn.NoPlanMeansChat | internal/ai/supervisor_graph.go:109-115 | without a plan the router asks the chat agent alone |
| Turn.TurnState.Synthesize | internal/ai/supervisor_graph.go:230-248 | no output leaves the response, one output is the response, several are merged by one call; when the step fails nothing changes |
| Turn.SynthesizerExactly | internal/ai/supervisor_graph.go:230-248 | exactly when the step fails, changes nothing, takes the only output or merges several |
| Turn.TurnState.RunTurn | internal/ai/supervisor_graph.go:76-94 | for any turn, failed or not: the nodes that ran, each with its exact effect; only the last may have failed, and a turn that ends without a failing node was cancelled before the next |
| Turn.TurnSummary | internal/ai/supervisor_graph.go:76-263 | after a turn that went through there is one output per planned agent, each agent once, on the whitelist and available; the response is the only output or the merged one, and an investigative turn has a report |
| Turn.FailedTurnKeeps | internal/ai/supervisor_graph.go:76-248 | a failed turn has no report and has lost no output: it added one per agent that succeeded, each planned and available, and none before the router |
| Turn.AgentFailureEndsTurn | internal/ai/supervisor_graph.go:209-222 | the turn goes on to the synthesizer if and only if every planned agent was available and added its output; otherwise it ends at the router without merging or report |
| Turn.TurnState.Verify | internal/ai/agent_synthesizer_verifier.go:117-179 | the verifier behind its gate: nothing on other turns; otherwise the report, the usage of the calls made, and nothing else |
| Turn.TurnState.LanguageCheck | internal/ai/agent_synthesizer_verifier.go:218-273 | only a readable denial counts against the language; a failed call or unreadable reply passes, and its usage is counted |
| Turn.TurnState.GroundingCheck | internal/ai/agent_synthesizer_verifier.go:276-347 | an unreadable reply passes and a failed call does not; issues are those of a readable reply, and its usage is counted |
| Turn.ReportExactly | internal/ai/agent_synthesizer_verifier.go:133-213 | the report faults the language if and only if two different scripts dominate question and answer, or both are Latin and the model, asked under the stated conditions, denies it; and the grounding if and only if the language passed, there are tool results, and the call failed or found against it |
| Turn.VerifierCounts | internal/ai/agent_synthesizer_verifier.go:117-179 | the usage of exactly the verifier calls that are made is counted |
| Settings.Table.Flatten | cli/cmd/settings.go:92-106 | appends one row per leaf of any tree, in some order, with the dotted key of its path and its value, nothing twice and nothing missing |
| Settings.SplitKey | cli/cmd/settings.go:148-165 | the character loop yields the non-empty pieces between dots |
| Settings.Navigate | cli/cmd/settings.go:129-146 | the lookup loop yields null exactly when a step of the key is missing or its last step is a null leaf, and otherwise the value all its steps lead to |
| Settings.FollowExactly | cli/cmd/settings.go:129-146 | a path with a missing step finds nothing, any other exactly one value |
| Settings.PiecesJoin | cli/cmd/settings.go:148-165 | joining two keys by a dot joins their pieces, so the number of dots between pieces and around them does not matter |
| Settings.KeyReadsBack | cli/cmd/settings.go:92-165 | a printed key splits into its own path, and any key at all spells a path, if and only if every key on the path is non-empty and free of dots |
| Settings.RowsNavigate | cli/cmd/settings.go:92-165 | on a well-keyed tree every printed key finds exactly the leaf it was printed from, and the keys are pairwise distinct |
| Settings.FoundKeyIsListed | cli/cmd/settings.go:92-165 | any key that finds a leaf has its normalised form among the rows with that leaf, and normalising is stable |
| Settings.ListingUnique | cli/cmd/settings.go:92-106 | two flattenings of one tree hold the same rows with multiplicity, whatever the map order |
| Settings.DottedKeyIsLost | cli/cmd/settings.go:92-165 | concrete tree whose printed key does not find its leaf |
| CredentialStores.SaveRefines | cli/config/keychain.go:130-154 | a save updates the profile-to-credentials map at that name only, a failed one changes no lookup, and the saved value reads back except for absent credentials in the keychain |
| CredentialStores.SaveFailsExactly | cli/config/keychain.go:130-154 | a save fails exactly for an unknown profile, or a wanted keychain that is missing, does not pass the probe or does not write; then no lookup changes |
| CredentialStores.DeleteRefines | cli/config/keychain.go:157-174 | after a successful delete nothing is found even if an old keychain entry remains; other profiles keep theirs |
| CredentialStores.DeleteErases | cli/config/keychain.go:157-174 | a delete fails exactly for an unknown profile or a keychain that does not erase, without effect; otherwise neither store the profile uses keeps the credentials |
| CredentialStores.RemoveRefines | cli/config/config.go:221-239 | removing a profile leaves all others alone and keeps the current profile empty or existing |
| CredentialStores.SetProfileRefines | cli/config/config.go:213-218 | an installed profile's own credentials are what is found exactly when it does not point at a differing keychain entry |
| CredentialStores.GetIsAbstract | cli/config/keychain.go:107-127 | a lookup returns the map's value for that profile, or an error when the keychain it needs fails |
| CredentialStores.EmptyNameIsCurrent | cli/config/config.go:195-210 | the empty name stands for the current profile, but for the keychain entry's name |
| CredentialStores.ProbeLeaves | cli/config/keychain.go:31-49 | the probe touches its own entry only and leaves it behind only when deleting it fails |
| CredentialStores.StepRefines | cli/config/keychain.go:107-174 | an operation on the two stores is the matching operation on the plain map if and only if it neither installs a profile over a differing keychain entry nor saves absent credentials to the keychain |
| CredentialStores.RunRefines | cli/config/keychain.go:107-174 | over every run of install, save, delete and remove the stores behave as the plain map throughout if and only if every operation meets that condition; then a stale keychain entry is never returned |
| CredentialStores.StaleEntryReturns | cli/config/config.go:213-218 | concrete run that brings a replaced keychain entry back |
| Manager.Config.GetProfile | cli/config/config.go:195-210 | the named profile, or the current one for the empty name, or none |
| Manager.Config.SetProfile | cli/config/config.go:213-218 | the profile is registered under its name and nothing else changes |
| Manager.Config.DeleteProfile | cli/config/config.go:221-239 | fails exactly on an unknown name; the current profile moves only if it was deleted, to any remaining one |
| Manager.KeychainStore.IsAvailable | cli/config/keychain.go:31-49 | the answer per platform, and what the probe entry leaves behind |
| Manager.KeychainStore.Load | cli/config/keychain.go:66-81 | a missing entry is no error, an unreadable one is |
| Manager.CredentialManager.GetCredentials | cli/config/keychain.go:107-127 | the lookup over both stores, and whether the result is the profile's own or a copy from the keychain |
| Manager.CredentialManager.SaveCredentials | cli/config/keychain.go:130-154 | the new contents of both stores and exactly when it fails |
| Manager.CredentialManager.DeleteCredentials | cli/config/keychain.go:157-174 | the new contents of both stores and exactly when it fails |
| TokenRefresh.RefreshDueExactly | cli/client/client.go:157-271 | after a saved refresh a later request attempts the next one if and only if it can read the new credentials, they have an access token, and they expire within a minute; otherwise it changes nothing |
| TokenRefresh.RefreshedAreUsed | cli/client/client.go:200-271 | after a saved refresh the next request uses the new credentials from either store, or cannot read them |
| TokenRefresh.HeaderExactly | cli/client/client.go:157-198 | which token is sent: an access token with an expiry, the new one if it has just been refreshed; else the key, if any |
| TokenRefresh.OwnCredentialsFirst | cli/client/client.go:158-172 | a profile's own token or key is used before the manager is asked |
| TokenRefresh.RefreshRotates | cli/client/client.go:248-259 | the request after a saved refresh has the new access token, the rotated refresh token if there is one, the new expiry and the same key |
| TokenRefresh.UnsavedRefreshIsUsed | cli/client/client.go:248-262 | credentials of the profile itself are refreshed in memory even when saving them fails |
| TokenRefresh.RequestElsewhere | cli/client/client.go:157-271 | a request touches no other profile and keeps its own credentials in the same kind of store |
| TokenRefresh.RefreshSuppresses | cli/client/client.go:157-271 | after a successful refresh with lifetime L above 60 no request in the next L-60 seconds attempts one or changes the stores |
| TokenRefresh.EnvTokenWins | cli/cmd/root.go:177-188 | with the environment's token the header is exactly that token, no refresh happens and nothing changes, whatever the stores hold |
| Client.ApiClient.AddAuth | cli/client/client.go:157-198 | the header, whether a refresh was attempted, and the resulting stores, for stored and environment-made profiles |
| Client.ApiClient.RefreshToken | cli/client/client.go:201-271 | the credentials are replaced field by field and saved where the profile keeps them; if saving fails, credentials that were the profile's own stay updated |
| Client.InitializeClient | cli/cmd/root.go:147-207 | which profile is used, when setup fails, and that the environment's server and token override exactly that profile |
| ChatSession.ChatContext.Impersonate | internal/ai/chat_handler.go:406-442 | only an instance admin naming an existing user changes the identity, wholesale and with claims rewritten |
| ChatSession.ChatContext.HandleStartChat | internal/ai/chat_handler.go:380-520 | the session after the message and the reply: the first failing check decides the error, and an identity change stays even if a later check refuses |
| ChatSession.ChatContext.HandleConnection | internal/ai/chat_handler.go:344-377 | the message loop is the run of its messages up to the first cancel, with the replies in order |
| ChatSession.SwapEndsAdmin | internal/ai/chat_handler.go:406-442 | acting for a user requires admin rights and removes them |
| ChatSession.ClaimsRewritten | internal/ai/chat_handler.go:426-442 | acting for a user, the claims name that user and, behind it, who the session was; the admin's token session is dropped and the metadata roles stay |
| ChatSession.ClaimsAlwaysAgree | internal/ai/chat_handler.go:426-442 | claims and session that name the same user at the start do so after any messages |
| ChatSession.StartedExactly | internal/ai/chat_handler.go:380-520 | a chat starts exactly when every check passes, and holds the conversation found if it belongs to the acting user, or else a new one of that user |
| ChatSession.RefusalSound | internal/ai/chat_handler.go:380-505 | the error of a refusal names a check that did fail |
| ChatSession.OtherMessagesKeep | internal/ai/chat_handler.go:363-376 | only start_chat changes identity or conversations, only a cancel closes, and what each message is answered with |
| ChatSession.RepliesExactly | internal/ai/chat_handler.go:344-377 | one reply per message until the connection is closed, each by the session as it then is |
| ChatSession.OrdinaryIdentityFixed | internal/ai/chat_handler.go:406-442 | without admin rights no sequence of messages changes the identity |
| ChatSession.SwapAtMostOnce | internal/ai/chat_handler.go:400-448 | over any run the identity changes at most once, only from an admin, and afterwards the session is no admin |
| ChatSession.StoredIsOwned | internal/ai/chat_handler.go:450-507 | a conversation is stored only if the identity at that moment owns it and may use the chatbot |
| ChatSession.ConversationsEnteredOwned | internal/ai/chat_handler.go:479-507 | every conversation a session holds was owned by the user current when it entered, on a chatbot that user could use |
| ChatSession.OwnersAreFirstOrCurrent | internal/ai/chat_handler.go:728-754 | so its owner is the connection's first user or the current one |
| ChatSession.ClosedStays | internal/ai/chat_handler.go:523-533 | after a cancel no message has any effect |
| ProviderCache.Backend.GetProvider | internal/ai/chat_handler.go:567-635 | which providers a lookup may return and what it caches, under any store failures |
| ProviderCache.Backend.InvalidateProvider | internal/ai/chat_handler.go:141-148 | exactly that provider leaves the cache |
| ProviderCache.Backend.SetDefaultProvider | internal/ai/handler.go:549-569 | for a known provider the default flag moves and only the new default is invalidated; for an unknown one nothing happens |
| ProviderCache.Backend.UpdateProvider | internal/ai/handler.go:687-761 | the record changes and its provider is invalidated, or nothing happens |
| ProviderCache.Backend.DeleteProvider | internal/ai/handler.go:588-605 | the record goes and its provider is invalidated, or, when it is unknown or the store fails, nothing happens |
| ProviderCache.LookupCoherent | internal/ai/chat_handler.go:567-663 | a lookup on a coherent cache returns the provider of an enabled current record with its current settings, and keeps the cache coherent |
| ProviderCache.LookupAddsOnly | internal/ai/chat_handler.go:567-663 | a lookup evicts and replaces nothing, caches at most what it returns, and nothing when it fails |
| ProviderCache.ServedSettings | internal/ai/chat_handler.go:637-663 | a served provider has the name, display name, type, configuration and model of its current record |
| ProviderCache.DefaultMoves | internal/ai/provider_storage.go:520-544 | making a provider the default leaves exactly one default and nothing else changed |
| ProviderCache.FirstProvider | internal/ai/chat_handler.go:607-634 | with nothing cached a chatbot without its own provider gets an enabled default, or the only enabled provider, or nothing |
| ProviderCache.RunsCoherent | internal/ai/chat_handler.go:137-148 | over any run of lookups and invalidated record changes every cached provider is the one its current, enabled record describes, so no disabled provider is served |
| ProviderCache.ConfiguredProviderServed | internal/ai/chat_handler.go:567-605 | a chatbot whose configured provider is enabled gets exactly that one with current settings, or the failure to build it |
| ProviderCache.NewDefaultServedExactly | internal/ai/chat_handler.go:607-634 | after a default change a chatbot without its own provider gets the new default if and only if no other provider is cached |
| ProviderCache.NewDefaultNotServed | internal/ai/chat_handler.go:607-620 | concrete store and cache in which the new default is not served |
| Chunking.ChunkResponse | internal/ai/chat_handler_cache.go:49-64 | the loop terminates with the greedy chunks of the text |
| Chunking.ChunksKeepText | internal/ai/chat_handler_cache.go:49-64 | every chunk has 1 to size bytes and only single spaces between chunks are lost |
| Chunking.ChunksGreedy | internal/ai/chat_handler_cache.go:49-64 | every chunk is as long as it can be: it ends before the last space within the size, or has the full size where there is none |
| Chunking.JoinRestores | internal/ai/chat_handler_cache.go:49-64 | joining with a space gives the text back if and only if every cut falls before a space that is not the last byte |
| Chunking.WindowsSuffice | internal/ai/chat_handler_cache.go:49-64 | joining gives the text back when every window of size-1 bytes holds a space |
| Chunking.RunesIntactExactly | internal/ai/chat_handler_cache.go:47-64 | no chunk starts inside a rune if and only if no cut without a space falls before a continuation byte |
| Chunking.ShortWordsKeepRunes | internal/ai/chat_handler_cache.go:47-64 | valid UTF-8 with a space in every window of size-1 bytes keeps its runes intact |
| Chunking.LongWordSplitsRune | internal/ai/chat_handler_cache.go:14-64 | a concrete text of three-byte runes is split inside a rune at 80 bytes |
| Script.DominantScript | internal/ai/agent_synthesizer_verifier.go:374-404 | the algorithm over arbitrary map orders returns the verdict: empty without letters, the script with at least 60 percent, else mixed |
| Script.CountIsCardinality | internal/ai/agent_synthesizer_verifier.go:374-390 | the counts are the numbers of positions that hold a letter, and a letter of the script |
| Script.SixtyPercentIsEnough | internal/ai/agent_synthesizer_verifier.go:396-403 | concrete text with exactly 60 percent Latin letters is Latin and not mixed |
| Script.VerdictUnique | internal/ai/agent_synthesizer_verifier.go:382-403 | there is exactly one verdict, so map iteration order cannot show |
| Script.VerdictPermuted | internal/ai/agent_synthesizer_verifier.go:374-404 | the order of the characters does not matter |
| Script.VerdictConcat | internal/ai/agent_synthesizer_verifier.go:374-404 | texts with the same dominant script keep it when joined |
| Script.MismatchExactly | internal/ai/agent_synthesizer_verifier.go:199-213 | the script check fails exactly when two different scripts dominate the two texts, and a language call is considered only when it passes |
| LogFollow.FollowExecution | cli/cmd/logs.go:299-351 | what is shown and what the polling loop prints, for any server; the whole output is strictly ascending if and only if the first fetch is |
| LogFollow.TailLogs | cli/cmd/logs.go:180-226 | the first fetch oldest first, then what the polling loop prints, for any server and any total order of the compared texts; the whole output is in order if and only if the reversed first fetch is |
| LogFollow.OutputSorted | cli/cmd/logs.go:299-351 | whatever is answered and whichever polls fail, first fetch and polls together are strictly ascending if and only if the first fetch is |
| LogFollow.PrintedGrows | cli/cmd/logs.go:327-350 | a further poll only adds to what is printed |
| LogFollow.NeverTwiceExactly | cli/cmd/logs.go:316-350 | no line is printed twice, whatever the server answers, if and only if the lines of the first fetch are distinct and its last is the furthest |
| LogFollow.DisorderRepeats | cli/cmd/logs.go:316-350 | concrete first fetch out of order after which a poll prints a line again |
| LogFollow.KeptExactly | cli/cmd/logs.go:219-225 | of any reply, an entry is printed if and only if it is beyond the last printed one and beyond every entry before it in the reply |
| Timestamps.TextOrderExactly | internal/storage/log_types.go:63-66 | of two times in order, the texts compare the same way if and only if the two do not lie in one second with the digits of the first beginning those of the second |
| LogFollow.TailDropsExactly | cli/cmd/logs.go:219-225 | of a reply in order of time, an entry is dropped if and only if the last printed one or an earlier entry of the reply lies in its second and its digits begin the entry's |
| LogFollow.FreshIsFirsts | cli/cmd/logs.go:219-225 | of entries beyond the last printed one, exactly the first of every key is printed if and only if those firsts are in order |
| LogFollow.TailLosesEntries | cli/cmd/logs.go:189-225 | concrete replies that lose an entry: a tie, a longer fraction of the same digits, and a start in whole seconds |
| LogFollow.PrintedGapFree | cli/cmd/logs.go:198-226 | against a log that grows in the server's order and truthful partial replies, inclusive or not, the printed entries are a first part of what the client keeps of all that follows the start, and of all of it when that is ascending for the client |
| LogFollow.FullPollCatchesUp | cli/cmd/logs.go:198-226 | one complete reply makes up for everything failed or short polls missed; nothing at all is missing then if and only if what follows the start is strictly ascending for the client |
| LogFollow.ExecutionGapFree | cli/cmd/logs.go:327-350 | with distinct line numbers the printed lines are a gap-free first part of those above the start, and all of them after a complete reply |
| LogFollow.TailCompleteExactly | cli/cmd/logs.go:189-226 | after a complete reply the tail has everything that follows its start if and only if no entry lies in the second of the start or of an entry before it with digits that begin with the other's; when none does, it has a gap-free first part after any polls |
| LogFollow.FullPageStalls | cli/cmd/logs.go:203-225 | a full page with nothing beyond the last printed entry is all that any later poll returns, so nothing is printed again |
| Annotations.ParseMCPAnnotations | cli/cmd/mcp.go:665-705 | panics exactly on a name annotation without value, else returns the collected map and the name |
| Annotations.ParseConcat | cli/cmd/mcp.go:665-702 | two sources joined by a newline parse to the first map overridden by the second, with the second's name if it sets one, and panic if either does |
| Annotations.LastLineWins | cli/cmd/mcp.go:690-696 | the last line that sets a key decides its value |
| Annotations.CollectedKeys | cli/cmd/mcp.go:672-696 | a key is in the map exactly when some line sets it |
| Annotations.LineReadsBack | cli/cmd/mcp.go:673-696 | an annotation written as a comment line reads back as itself if and only if its key has no blank and its value is trimmed non-empty text, or absent after a key that does not end in space |
| Annotations.AnnotationLineExactly | cli/cmd/mcp.go:672-688 | a line is an annotation exactly when it is, after white space, a comment that begins, after white space, with the mark; the rest without white space at its end is the body |
| Annotations.TrimExactly | cli/cmd/mcp.go:673-694 | trimming takes off white space at both ends and nothing else |
| Annotations.DefaultNameExactly | cli/cmd/mcp.go:668-670 | the name made from a file name has its last `.ts` removed and underscores for dashes |
| Annotations.MapReadsBack | cli/cmd/mcp.go:665-705 | a map written as comment lines in any order comes back from the parser if and only if its annotations are writable on one line each and the name, if set, has a value; otherwise writable annotations with a bare name panic; the name is the map's or the file's |
| Annotations.NameIsCollected | cli/cmd/mcp.go:668-702 | without a bare name line the tool's name is the last name annotation's value, and the file name's only when there is none |
| Annotations.BareNamePanics | cli/cmd/mcp.go:699-701 | concrete source with a bare name line that panics |
| Migrations.Group | cli/cmd/migrations.go:294-330 | the groups are exactly the migrations with a readable up or down file, with their contents |
| Migrations.BuildPlan | cli/cmd/migrations.go:294-369 | the list is strictly ascending by name and holds exactly the migrations with a readable file |
| Migrations.PlanUnique | cli/cmd/migrations.go:294-369 | any two lists that meet the contract of the list builder for the same files, in any order, are equal |
| Migrations.NothingLost | cli/cmd/migrations.go:309-369 | every readable file's content is in its own slot and every slot comes from its file |
| Migrations.SuffixExact | cli/cmd/migrations.go:309-318 | stripping a suffix is undone by adding it, so two files of one kind never share a migration |
| Imports.RewriteResolves | cli/bundler/bundler.go:126-157 | a rewritten specifier names a protocol, a local file or Deno; it changed exactly if it was bare, and a second rewrite does nothing |
| Imports.BareLeadsTo | cli/bundler/bundler.go:133-157 | a bare specifier leads into the shared directory by a relative path exactly with the `_shared/` prefix, and to the package registry exactly without it, a protocol or the runtime's name |
| Imports.RewriteStable | cli/bundler/bundler.go:121-158 | rewriting a file changes only specifiers and is idempotent span by span |
| Imports.ValidateImports | cli/bundler/bundler.go:96-110 | rejects exactly the code that contains a blocked package by npm name in either quote, or by node name in double quotes |
| Imports.RewrittenRejected | cli/bundler/bundler.go:182-189 | rewrite-then-validate rejects a file if and only if it has a consistently quoted import of a blocked package, bare or by npm name in either quote or by node name in double quotes, or a blocked literal between its imports |
| Imports.UnrewrittenRejected | cli/bundler/bundler.go:96-110 | without the rewriting a file is rejected if and only if such an import already has its npm or node name, or a blocked literal stands between its imports |
| Imports.BlockedImportRejected | cli/bundler/bundler.go:182-189 | an import of a blocked package in a rejected form is rejected after rewriting wherever it stands, in any file |
| Imports.SingleQuotedNodePasses | cli/bundler/bundler.go:104-107 | concrete import of a node package in single quotes that passes, while the same in double quotes does not |
| Imports.BareImportsPassUnrewritten | cli/bundler/bundler.go:182-189 | a file whose imports name no protocol, with no blocked literal between them, is never rejected before rewriting, so the order matters |
| ByteSize.FormatBytes | cli/util/util.go:76-87 | for 1024 and more the divisor is 1024 to the power of the unit, the mantissa lies in [1, 1024), the letter exists, and no 64-bit value overflows |
| ByteSize.UnitUnique | cli/util/util.go:76-87 | no other unit has its mantissa in that range |

## Left out

- Prompt texts, schema and retrieval context, thought and progress events, and model selection: no effect on the properties above.
- The legacy ReAct loop, the response cache lookup and the rest of `handleMessage`: a chat message is taken to leave the session's identity and conversations alone.
- Recovered panics of an agent inside the router: an agent here either succeeds or fails.
- JSON, YAML and value formatting: a decoded plan, settings tree or entry is the input; settings rows keep the leaf itself instead of its printed form, and keychain entries keep the credentials instead of their JSON text.
- Migrations.PlanUnique: the list builder in `cli/cmd/sync.go:225-297` runs the same statements as the modelled one in `cli/cmd/migrations.go`; it is not modelled a second time, its contract is taken to be the same `IsPlan`.
- Log entries that arrive with a timestamp before ones already stored: `LogFollow.Truthful` has the log grow in order of time.
- Log timestamps in a zone other than UTC: `Timestamps.Text` ends in `Z`, as a server in UTC and the client's clock write it.
- Credentials objects shared by pointer: `Manager` keeps credentials as values, and the one in-place update that can be seen later, a refresh of the profile's own object whose save fails, is written out in `Client.ApiClient.RefreshToken`.
- Profiles registered in a hand-edited file under a name other than their own: `Manager.Config.Valid` asks for the same name, as `SetProfile` ensures.
- CredentialStores.SaveRefines: names the profiles it speaks about as neither empty, which stands for the current profile, nor `__test__`, which the keychain probe uses.
- Writing the configuration file, the tenant and debug overrides, and the request headers other than the token.
- The rate limiter, the chatbot, user and conversation stores of a chat session: their answers are parameters of each message.
- Tenant separation of provider records, and lookups that interleave with an invalidation: steps are atomic.
- The matching of import statements by regular expression: a file is given as spans and the text between them; so idempotence is per span.
- Inlining of data files, environment filtering, and the run of the bundler itself.
- Empty and dry-run branches of the migration sync, and the library sort, for which an insertion sort stands in.
- Bytes that are not valid UTF-8, in the modules that work on characters; `Chunking` works on bytes.
- Rounding of the printed mantissa of a byte count.
