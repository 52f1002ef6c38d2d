# EpicStaff: verified models of its protocols and text formats

This project models the parts of EpicStaff in which a small mistake is hard to see and spreads far, and proves what they
promise for every input, every run and every interleaving.

| module | what it models |
|---|---|
| `Text`, `QueryParams`, `NavPath`, `NavAddress` | the one canonical spelling of a plugin page's navigation path: UTF-8, percent escapes, the query multimap in JavaScript object order, and reading a path from an address |
| `NavSync` | the reports a plugin page sends about its address: queueing, rate limit, deferral, and moves by the host |
| `SecretScrubber` | masking secret values in an execution's output |
| `Conversation` | a chat conversation: mode, hand-off, waiting visitor, closing, usage counters |
| `VenvChain` | interleaved runs that create, fill and use shared virtual environments |
| `PluginLogin` | a plugin page's sign-in, token renewal and availability |
| `AgentTask`, `RequestHandler`, `AgentConsumer` | the two ends of the agent request protocol: awaiting a result, handling a request with its `try` statements, and the consumer with its tasks in flight |
| `EnvLine`, `EnvFile`, `EnvFeatures` | reading and rewriting an environment file, and the feature flags and compose profiles in it |
| `VariablePaths` | writing an output at a variable path and mapping paths to inputs |
| `EgressFirewall`, `HostAcl` | the sandbox's egress rules and the plugins' host lists |

A component that changes state has a datatype for the state, a function `Step` (or one function per operation), an
invariant or a reading of the log of events, and a class whose methods update the program's own fields and are proved to
do what the function says. The lemmas then speak of whole runs of the function. Steps are the pieces of code between two
awaits; events come in any order, so a lemma about all runs covers every interleaving. Clocks, the network, Redis, pip,
the file system and the browser appear as event parameters.

Text that the code treats as Unicode is a sequence of characters; navigation paths are the bytes of their UTF-8 form,
which for a path of the grammar are its characters.

## Where the code does less than its documentation says

The models follow the code. Each difference is a lemma with a concrete input, next to the exact condition.

- A rewritten line of an environment file loses a line break other than CR and LF (a form feed, for one), so the next
  line becomes part of its value: `EnvFile.FormFeedLost`. Exactly when one line stays apart:
  `EnvFile.RewriteKeepsApart`; when a whole text does: `EnvFile.ApartExactly`.
- An empty value before a comment reads as the comment: `EnvFile.EmptyValueReadsComment`. Exactly when an empty value is
  read back: `EnvFile.EmptyValueReads`. No caller in `scripts/envtool.py` passes an empty value.
- The session of a plugin login is documented as null unless signed in, and the error as null unless failed. Both stay
  while the page leaves for the login: `PluginLogin.SessionWhileLeaving`. Exactly when: `PluginLogin.ShownOnlyThenKept`.
- An unavailability the API answered is documented to end only by the API. A sign-in held for maintenance and then
  denied ends it: `PluginLogin.UnavailableForgotten`. Exactly when: `PluginLogin.UnavailableStays`.
- The consumer's first retry waits the initial delay even if the cap is lower: `AgentConsumer.FirstDelayAboveCap`.
  Exactly when the delay is the capped doubling: `AgentConsumer.DelayFormula`. The settings refuse such a cap.
- Variables read names as attributes, so an output written at a name every dictionary has (`items`, for one) is not read
  back: `VariablePaths.ItemsHidden`. Exactly when it is: `VariablePaths.PutThenGet`, `VariablePaths.PutThenMap`.
- A missing name with another key behind it maps to a letter of "not found" or to a method of that text:
  `VariablePaths.NotFoundLetter`, `VariablePaths.NotFoundTitle`. Exactly when a missing path gives "not found", a
  letter, an attribute, or an error: `VariablePaths.NotFoundExactly`.
- A bracketed address with a dot behind it keeps its brackets in the host lists: `HostAcl.DotBehindBrackets`. Exactly
  when something is left to take off: `HostAcl.NormalizeAgain`.
- An execution's extra value with the name of a user's secret takes that secret's place in the masking set:
  `SecretScrubber.CredentialReplacesSecret`. Exactly when the secret keeps its place:
  `SecretScrubber.MaskingValuesKept`.
- A host navigation does not clear a deferred report, which then shows the wrong page: `NavSync.HostOvertakes`. Exactly
  when the two stay in step: `NavSync.StepKeepsInStep`, `NavSync.RunStaysInStep`.

One result is about the domain object alone: it records an operator's reply to a conversation that nobody has taken
over, which leaves an open hand-off with nobody waiting (`Conversation.ReplyBeforeTakeOver`; a wait always runs
exactly without such a reply, `Conversation.AwaitingMeansWaiting`). The operator service refuses a reply outside human
mode, so no conversation gets there.

## Model

| member | source | states |
|---|---|---|
| Text.DecodeEncode | plugin-sdk/src/nav-path.ts:107-135 | decoding an encoded component gives it back, for every valid UTF-8 text |
| Text.UnescapeAround | plugin-sdk/src/nav-path.ts:107-113 | escapes never reach across a byte that is neither `%` nor a hex digit |
| Text.DecodeAround | plugin-sdk/src/nav-path.ts:107-113 | decoding a text around an ASCII separator succeeds exactly if both sides decode, and gives both |
| Text.SplitJoin | plugin-sdk/src/nav-path.ts:45-50 | splitting what was joined gives the parts |
| Text.JoinSplit | plugin-sdk/src/nav-path.ts:45-50 | joining what was split gives the text |
| Text.Utf8AllValid | plugin-sdk/src/nav-path.ts:107-113 | the bytes of any Unicode scalar values are valid UTF-8 |
| Text.ValidIsUtf8 | plugin-sdk/src/nav-path.ts:107-113 | valid UTF-8 is the bytes of Unicode scalar values |
| Text.HexIs | plugin-sdk/src/nav-path.ts:5-5 | a hex digit is one of the sixteen, small or capital, with its place as its value |
| Text.EscapeAnyCase | plugin-sdk/src/nav-path.ts:32-40 | an escape in any case is its byte's, in capitals |
| Text.EncodeKeeps | plugin-sdk/src/nav-path.ts:32-40 | letters, digits, `-`, `.`, `_` and `~` are left as they are, and nothing else |
| QueryParams.PartDecodes | plugin-sdk/src/nav-path.ts:50-58 | a part that decodes as a whole has a key and a value that decode |
| QueryParams.PartMeans | plugin-sdk/src/nav-path.ts:50-58 | a part reads as its key and value with `+` a space and sound escapes their bytes, read byte by byte from the raw text; a nameless part gives nothing |
| QueryParams.PlusEscapedPart | plugin-sdk/src/nav-path.ts:57-57 | a part whose `+` are written `%20` reads the same |
| QueryParams.GroupOrder | plugin-sdk/src/nav-path.ts:49-59 | the multimap's keys are in first-seen order |
| QueryParams.GroupValues | plugin-sdk/src/nav-path.ts:49-59 | the multimap holds exactly the values the query gives a key, in order |
| QueryParams.SameValues | plugin-sdk/src/nav-path.ts:49-59 | two multimaps hold the same exactly if the queries agree on every key |
| QueryParams.ObjectOrderShape | plugin-sdk/src/nav-path.ts:64-68 | every key once, array indices first and ascending, the rest as first seen |
| QueryParams.ObjectOrderDetermined | plugin-sdk/src/nav-path.ts:64-68 | the order depends only on the set of keys and the order of those that are no array indices |
| QueryParams.ObjectOrderFixed | plugin-sdk/src/nav-path.ts:64-68 | listing a listed order again changes nothing |
| QueryParams.GroupList | plugin-sdk/src/nav-path.ts:58-69 | printing a multimap's pairs and grouping them gives the multimap back |
| QueryParams.PairReadsBack | plugin-sdk/src/nav-path.ts:50-68 | one printed pair is read back as it was |
| QueryParams.PairsReadBack | plugin-sdk/src/nav-path.ts:50-68 | a printed query is read back pair by pair |
| QueryParams.ReadParams | plugin-sdk/src/nav-path.ts:49-59 | the loop builds the multimap of the query's pairs, which QueryParams.PartMeans reads from the raw text |
| NavPath.FallbacksNeverTaken | plugin-sdk/src/nav-path.ts:45-58 | in a valid path every segment and every param decodes |
| NavPath.PatternIsGrammar | plugin-sdk/src/nav-path.ts:18-18 | the pattern, byte by byte: single slashes, none at the end but for the root, and the characters each side may hold |
| NavPath.ValidMeans | plugin-sdk/src/nav-path.ts:14-30 | a path is valid exactly if it is at most 1024 bytes of that grammar, everything decodes, and no segment stands for `.` or `..` |
| NavPath.PrintReadsBack | plugin-sdk/src/nav-path.ts:61-75 | a printed page reads back as the page, and is valid unless it is too long |
| NavPath.CanonicalIdempotent | plugin-sdk/src/nav-path.ts:41-75 | the canonical form of a canonical form is itself |
| NavPath.CanonicalUnlessTooLong | plugin-sdk/src/nav-path.ts:14-75 | a valid path has no canonical form exactly if its spelling is longer than 1024 |
| NavPath.SameSpellingIffSamePage | plugin-sdk/src/nav-path.ts:32-75 | two valid paths are spelled alike exactly if their segments and ordered, grouped params agree |
| NavPath.SameCanonicalIffSamePage | plugin-sdk/src/nav-path.ts:32-75 | two paths have one canonical form exactly if they mean the same page |
| NavPath.PlusIsSpace | plugin-sdk/src/nav-path.ts:50-58 | any path and the path with its query's `+` written `%20` have the same canonical form, unless that is too long |
| NavPath.PlusSpelled | plugin-sdk/src/nav-path.ts:50-75 | `/s?q=a+b` is spelled `/s?q=a%20b` |
| NavPath.CanonicalSpelled | plugin-sdk/src/nav-path.ts:32-75 | a canonical form is valid and holds only unreserved characters, delimiters and needed uppercase escapes |
| NavAddress.OutsideFixed | plugin-sdk/src/nav-path.ts:137-152 | text that is already in the grammar is left alone |
| NavAddress.OutsideSafe | plugin-sdk/src/nav-path.ts:137-152 | the result holds safe characters and sound escapes only |
| NavAddress.OutsideMeans | plugin-sdk/src/nav-path.ts:137-157 | the result decodes to what a lenient reader saw |
| NavAddress.ValidAddressShown | plugin-sdk/src/nav-path.ts:81-127 | an address that spells a valid path shows that path's canonical form, or none exactly if its encoding is longer than 1024 |
| NavAddress.CanonicalAddressReadsBack | plugin-sdk/src/nav-path.ts:81-120 | an address set to a canonical path reads back as it, in either mode |
| NavAddress.MovedShows | plugin-sdk/src/nav-sync.ts:141-165 | a page is put at its path, or behind a `#` with the rest of the address as it was |
| NavAddress.ShownIsCanonical | plugin-sdk/src/nav-path.ts:99-120 | what an address shows is its own canonical form |
| NavAddress.EncodeOutside | plugin-sdk/src/nav-path.ts:138-152 | the loop computes the specified encoding |
| NavAddress.IsValidNavPath | plugin-sdk/src/nav-path.ts:14-30 | the two loops decide exactly the specified validity |
| NavAddress.CanonicalNavPath | plugin-sdk/src/nav-path.ts:41-75 | the procedure computes exactly the specified canonical form |
| NavSync.NavigateNeverEchoes | plugin-sdk/src/nav-sync.ts:91-165 | a host move, with the events it fires, reports, queues and defers nothing, and the page shows the target |
| NavSync.ReportKeeps | plugin-sdk/src/nav-sync.ts:106-119 | a report keeps the rate limit, the blocks and the timer in step |
| NavSync.DueTimerSends | plugin-sdk/src/nav-sync.ts:121-130 | the first firing of a due timer sends the deferred report |
| NavSync.SpacedMeansLimited | plugin-sdk/src/nav-sync.ts:106-119 | reports spaced by the limiter are at most 110 in any 60 seconds |
| NavSync.StepKeeps | plugin-sdk/src/nav-sync.ts:74-197 | every step before uninstall keeps the invariant |
| NavSync.EveryRun | plugin-sdk/src/nav-sync.ts:91-130 | after any run no 60-second window holds more than 110 reports, and the timer, while set, is due 60,001 ms after the 110th last report; until an uninstall, sent and deferred reports are the blocks of the changes in order, and a report is deferred exactly while the timer is set |
| NavSync.SentAtOnceExactly | plugin-sdk/src/nav-sync.ts:106-119 | after any run a change is sent at once exactly if the timer is not set and fewer than 110 reports were sent in the 60 seconds before |
| NavSync.TimerKeeps | plugin-sdk/src/nav-sync.ts:121-130 | a timer that is due sends the deferred report |
| NavSync.BeforeConnect | plugin-sdk/src/nav-sync.ts:91-104 | until the host connects nothing is sent; what was noticed is kept as one report that sums it up |
| NavSync.ConnectMeans | plugin-sdk/src/nav-sync.ts:170-185 | a host that shows another page than the one this page began on moves it there; else the page's own path is reported, replacing exactly if all that was noticed did |
| NavSync.BadHostPath | plugin-sdk/src/nav-sync.ts:170-185 | a host path without a canonical form is taken for the root |
| NavSync.SilentAfterUninstall | plugin-sdk/src/nav-sync.ts:187-197 | once uninstalled, the sync sends nothing more, whatever the page and its timers do |
| NavSync.HostShowsSent | plugin-sdk/src/nav-sync.ts:106-130 | the host shows the path of the report just sent, and nothing else the page does changes what it shows |
| NavSync.StepKeepsInStep | plugin-sdk/src/nav-sync.ts:91-185 | a step keeps the host, what the sync remembers and the address the page shows in step exactly if it is no host move that overtakes a deferred report |
| NavSync.RunStaysInStep | plugin-sdk/src/nav-sync.ts:91-185 | throughout a run they stay in step exactly if no host move overtakes a deferred report |
| NavSync.OvertakingNavigation | plugin-sdk/src/nav-sync.ts:141-149 | while a report is deferred, a host move keeps them in step exactly if it goes where the report goes |
| NavSync.HostOvertakes | plugin-sdk/src/nav-sync.ts:106-149 | 111 changes at once and a host move elsewhere: out of step |
| NavSync.Sync.constructor | plugin-sdk/src/nav-sync.ts:64-72 | the state after installing |
| NavSync.Sync.ScheduleDeferred | plugin-sdk/src/nav-sync.ts:121-130 | sets the timer once, to the specified time |
| NavSync.Sync.PostReport | plugin-sdk/src/nav-sync.ts:106-119 | sends or defers as specified |
| NavSync.Sync.OnLocationChanged | plugin-sdk/src/nav-sync.ts:91-104 | the whole new state after an address change |
| NavSync.Sync.PageMoved | plugin-sdk/src/nav-sync.ts:74-89 | the whole new state after the page moves |
| NavSync.Sync.OnTimer | plugin-sdk/src/nav-sync.ts:124-129 | the whole new state after the timer |
| NavSync.Sync.NavigateTo | plugin-sdk/src/nav-sync.ts:141-165 | the whole new state after a host move |
| NavSync.Sync.ConnectTo | plugin-sdk/src/nav-sync.ts:170-185 | the whole new state after connecting |
| NavSync.Sync.Close | plugin-sdk/src/nav-sync.ts:187-197 | the whole new state after uninstalling |
| SecretScrubber.PiecesCutTheText | src/sandbox/secret_scrubber.py:68-76 | the kept and masked pieces are the text, and every mask stands for a literal |
| SecretScrubber.JsonFormReads | src/sandbox/secret_scrubber.py:58-59 | the JSON form of a value, read as a JSON string, is the value |
| SecretScrubber.JsonFormPrintable | src/sandbox/secret_scrubber.py:58-59 | it is printable ASCII, and a value of that without quotes and backslashes is its own form |
| SecretScrubber.ShortEscapes | src/sandbox/secret_scrubber.py:58-59 | white space with a short escape is written so |
| SecretScrubber.FirstMatchIsLongest | src/sandbox/secret_scrubber.py:64-65 | the first alternative that matches is the longest literal there |
| SecretScrubber.OrderIrrelevant | src/sandbox/secret_scrubber.py:64-65 | equal-length literals may come in any order |
| SecretScrubber.ScrubDetermined | src/sandbox/secret_scrubber.py:54-76 | the result is the same for every order the set may yield |
| SecretScrubber.SecretsMasked | src/sandbox/secret_scrubber.py:54-76 | every occurrence of a secret, plain or JSON-escaped, begins inside a mask |
| SecretScrubber.KeptTextClean | src/sandbox/secret_scrubber.py:54-76 | no kept chunk holds a secret or its JSON-escaped form |
| SecretScrubber.JsonPayloadMasked | src/sandbox/secret_scrubber.py:58-59 | a secret inside a JSON-encoded string is masked |
| SecretScrubber.OutputShowsKept | src/sandbox/secret_scrubber.py:68-76 | kept text appears as it was, in place |
| SecretScrubber.OutputShowsMask | src/sandbox/secret_scrubber.py:34-76 | a masked literal appears as the one marker, in place |
| SecretScrubber.OutputHidesSecrets | src/sandbox/secret_scrubber.py:32-76 | two texts, each with its own secrets, that are cut alike but for what is masked give the same output |
| SecretScrubber.BuildPattern | src/sandbox/secret_scrubber.py:42-65 | the literals of every non-empty value, by falling length |
| SecretScrubber.MaskingValuesKept | src/sandbox/secret_scrubber.py:79-93 | every non-empty extra value is masked, and exactly when a user's secret keeps its place |
| SecretScrubber.CredentialReplacesSecret | src/sandbox/secret_scrubber.py:79-93 | a secret with the name of a storage credential is masked no more |
| Conversation.EveryRunReads | src/chat/domain/models.py:187-284 | after any run the mode, last message, closing, hand-off time and wait are what the log of events says |
| Conversation.ReadingUnique | src/chat/domain/models.py:232-284 | the first wait-starting event after the last wait-ending one is a unique reading |
| Conversation.BotExactlyWithoutHandoff | src/chat/domain/models.py:232-260 | bot mode exactly while there is no hand-off time, and then nobody waits |
| Conversation.AwaitingMeansWaiting | src/chat/domain/models.py:232-284 | throughout a run an open hand-off has a wait running, exactly if no operator's reply is recorded while it waits to be taken over |
| Conversation.ReplyBeforeTakeOver | src/chat/domain/models.py:262-284 | with such a reply, a hand-off is left with nobody waiting |
| Conversation.ClosedForGood | src/chat/domain/models.py:187-218 | a closed conversation never changes, and every request is turned down |
| Conversation.AnswerReads | src/chat/domain/models.py:187-218 | the answer to any request after any run, from the log: done, turned down as closed and why, already closed, or without a proper closer |
| Conversation.RefusedDropOut | src/chat/domain/models.py:187-284 | a run comes to the same without the requests that were turned down |
| Conversation.HolderReads | src/chat/domain/models.py:196-230 | after any run, who has the conversation and which run holds it are what the log says |
| Conversation.IdleCloseReads | src/chat/domain/models.py:74-85 | from any open state: a Support conversation that no run holds closes for silence at its time after the last message before the close; one that waits for the bot, or is closed, never |
| Conversation.DueTimeStands | src/chat/domain/models.py:62-72 | only a reply, a return or the close moves a due time |
| Conversation.DueTimeReads | src/chat/domain/models.py:62-72 | a visitor is due an answer exactly while the log leaves a wait open, the conversation is no test and not closed, at the response time after the wait began |
| Conversation.CountersRead | src/chat/domain/models.py:286-305 | the counters are the lifetime totals and what was counted since the latest day began |
| Conversation.UsageOnReads | src/chat/domain/models.py:286-305 | the usage on any day, for days in any order |
| Conversation.UsageOnDay | src/chat/domain/models.py:286-305 | for rising days, the usage on a day is the sum of the counts made on it |
| Conversation.Thread.constructor | src/chat/domain/models.py:117-163 | a new conversation |
| Conversation.Thread.Close | src/chat/domain/models.py:196-218 | the whole new state and the answer |
| Conversation.Thread.FreeRun | src/chat/domain/models.py:216-217 | frees the run slot and the late reply |
| Conversation.Thread.SetMode | src/chat/domain/models.py:232-260 | the whole new state and the answer |
| Conversation.Thread.ReturnToBot | src/chat/domain/models.py:220-230 | the whole new state and the answer |
| Conversation.Thread.Record | src/chat/domain/models.py:262-284 | the whole new state and the answer |
| Conversation.Thread.Roll | src/chat/domain/models.py:292-295 | starts a later day's counters |
| Conversation.Thread.CountTokens | src/chat/domain/models.py:297-300 | counts tokens on a day |
| Conversation.Thread.CountTurn | src/chat/domain/models.py:302-305 | counts a turn on a day |
| VenvChain.StepKeeps | src/sandbox/dynamic_venv_executor_chain.py:242-421 | every step keeps the invariant and leaves complete environments alone |
| VenvChain.WrittenForGood | src/sandbox/dynamic_venv_executor_chain.py:289-421 | once `libhash` is written no run installs into the environment or uninstalls from it |
| VenvChain.ExecutesComplete | src/sandbox/dynamic_venv_executor_chain.py:302-421 | in every interleaving code executes only where pip reported exactly its library set as installed |
| VenvChain.ExecutesWhatItAskedFor | src/sandbox/dynamic_venv_executor_chain.py:242-421 | a run executes only where a library is installed exactly if the run asked for it, it is one of the three predefined ones, or it is the storage library and storage was asked for |
| VenvChain.OneInside | src/sandbox/dynamic_venv_executor_chain.py:133-155 | no two runs are inside the create or install stage of one environment |
| VenvChain.NoDeadlock | src/sandbox/dynamic_venv_executor_chain.py:267-417 | every unfinished run can move, or waits for one of its environment that can |
| VenvChain.WithLockKeeps | src/sandbox/dynamic_venv_executor_chain.py:133-155 | a lock made on demand is nobody's and changes nothing else |
| VenvChain.Sandbox.GetVenvLock | src/sandbox/dynamic_venv_executor_chain.py:133-155 | one lock per environment, made when first asked for |
| VenvChain.Sandbox.LeaveLock | src/sandbox/dynamic_venv_executor_chain.py:267-421 | releases the lock and moves on |
| VenvChain.Sandbox.BeginRun | src/sandbox/dynamic_venv_executor_chain.py:245-253 | a run with its library set |
| VenvChain.Sandbox.FinishHash | src/sandbox/dynamic_venv_executor_chain.py:253-267 | the whole new state once the hash is known |
| VenvChain.Sandbox.EnterCreate | src/sandbox/dynamic_venv_executor_chain.py:267-277 | the whole new state once inside the create stage |
| VenvChain.Sandbox.FinishCreate | src/sandbox/dynamic_venv_executor_chain.py:270-280 | the whole new state once venv ended, whatever its exit code |
| VenvChain.Sandbox.EnterInstall | src/sandbox/dynamic_venv_executor_chain.py:307-310 | installs exactly if `libhash` does not name the set |
| VenvChain.Sandbox.FinishUpgrade | src/sandbox/dynamic_venv_executor_chain.py:315-333 | the whole new state after pip was upgraded |
| VenvChain.Sandbox.NextPackage | src/sandbox/dynamic_venv_executor_chain.py:356-394 | the next uninstall, or the first install |
| VenvChain.Sandbox.FinishFreeze | src/sandbox/dynamic_venv_executor_chain.py:335-356 | the whole new state after pip freeze |
| VenvChain.Sandbox.FinishUninstall | src/sandbox/dynamic_venv_executor_chain.py:358-380 | the whole new state after one uninstall |
| VenvChain.Sandbox.FinishInstall | src/sandbox/dynamic_venv_executor_chain.py:394-415 | the whole new state after one install; the last one writes `libhash` |
| VenvChain.Sandbox.FinishCode | src/sandbox/dynamic_venv_executor_chain.py:535-778 | the run ends |
| VenvChain.Sandbox.Fail | src/sandbox/dynamic_venv_executor_chain.py:267-421 | an exception leaves the lock, wherever it comes |
| PluginLogin.StepKeeps | plugin-sdk/src/auth.ts:269-617 | every event keeps the invariant of the login |
| PluginLogin.EveryLogin | plugin-sdk/src/auth.ts:197-617 | always: token exactly with a session; signed in exactly with a token and failed exactly with an error once no sign-in is beginning; a renewal timer has a token and falls due in its last minute or later half, before it expires; sign-in maintenance is maintenance |
| PluginLogin.ObtainsGood | plugin-sdk/src/auth.ts:468-508 | only a good answer gives a token, and only to an open login |
| PluginLogin.HeldTokenReads | plugin-sdk/src/auth.ts:468-581 | after any run a held token, its org and its expiry are the last good answer's, 1000 times its lifetime after it came; the timer stands a minute before that, or at half of the lifetime if that is later |
| PluginLogin.TokenForQuarterHour | plugin-sdk/src/auth.ts:497-581 | a token for 900 seconds expires after 900,000 ms and is renewed after 840,000 |
| PluginLogin.StepShows | plugin-sdk/src/auth.ts:325-550 | which state and error each kind of event shows, and which events give or drop the token, read from the event |
| PluginLogin.StateReads | plugin-sdk/src/auth.ts:325-550 | after any run the state shown is the one the last event that changed it shows, or idle |
| PluginLogin.StepTimer | plugin-sdk/src/auth.ts:407-425 | the timer is set by a token, and gone with it, once it fires, when the page leaves and on the close |
| PluginLogin.StepReaches | plugin-sdk/src/auth.ts:522-617 | how API answers, held and other sign-ins and tokens change the availability and whose maintenance it is |
| PluginLogin.OrgReads | plugin-sdk/src/auth.ts:224-241 | after any run the org to sign in to is the hint, or the stored one until it is forgotten |
| PluginLogin.ShownOnlyThenKept | plugin-sdk/src/auth.ts:81-84 | an event begins to show session or error outside their states exactly if it begins a sign-in, or leaves for one, with either at hand |
| PluginLogin.SessionWhileLeaving | plugin-sdk/src/auth.ts:407-425 | a session is shown while the page leaves to sign in again |
| PluginLogin.AvailabilityReads | plugin-sdk/src/auth.ts:522-617 | the availability, and whose maintenance it is, as the answers so far say |
| PluginLogin.ApiMaintenanceStays | plugin-sdk/src/auth.ts:522-563 | a maintenance the API answered ends only by the API or by a token |
| PluginLogin.UnavailableStays | plugin-sdk/src/auth.ts:522-563 | an unavailability outlasts an event exactly if the login did not answer that it is temporarily unavailable |
| PluginLogin.UnavailableForgotten | plugin-sdk/src/auth.ts:522-563 | held, then denied: the API counts as available |
| PluginLogin.MaintenanceShown | plugin-sdk/src/auth.ts:522-532 | until the API answers, the maintenance state comes with maintenance availability |
| PluginLogin.StaleOrgOnce | plugin-sdk/src/auth.ts:639-659 | a stored org is given up at most once |
| PluginLogin.ClosedGetsNoToken | plugin-sdk/src/auth.ts:315-323 | a closed login gets no token and no timer, and its availability stays |
| PluginLogin.Login.constructor | plugin-sdk/src/auth.ts:224-241 | the state before `start()` |
| PluginLogin.Login.ChangeAvailability | plugin-sdk/src/auth.ts:594-599 | only an open login's availability changes |
| PluginLogin.Login.DropToken | plugin-sdk/src/auth.ts:565-569 | drops token, session and timer |
| PluginLogin.Login.EndMaintenanceOfSignIn | plugin-sdk/src/auth.ts:559-563 | ends only a maintenance a sign-in reported |
| PluginLogin.Login.LoseToken | plugin-sdk/src/auth.ts:510-550 | the whole new state after a sign-in was denied, ended or failed |
| PluginLogin.Login.Hold | plugin-sdk/src/auth.ts:522-532 | the whole new state after a sign-in was held |
| PluginLogin.Login.ForgetStoredOrg | plugin-sdk/src/auth.ts:649-659 | the org hint is gone |
| PluginLogin.Login.OnRefusal | plugin-sdk/src/auth.ts:344-347 | the whole new state after a refusal |
| PluginLogin.Login.Begin | plugin-sdk/src/auth.ts:325-330 | the state once `start()` runs, the first time only |
| PluginLogin.Login.PopupReturned | plugin-sdk/src/auth.ts:712-719 | the state once a popup came back |
| PluginLogin.Login.FinishReturnedLogin | plugin-sdk/src/auth.ts:452-465 | the whole new state after an interactive answer |
| PluginLogin.Login.FinishSilentLogin | plugin-sdk/src/auth.ts:338-354 | the whole new state after a silent answer |
| PluginLogin.Login.ScheduleRenewal | plugin-sdk/src/auth.ts:572-581 | the timer, and none when closed |
| PluginLogin.Login.TakeToken | plugin-sdk/src/auth.ts:497-507 | the whole new state with a token |
| PluginLogin.Login.FinishExchange | plugin-sdk/src/auth.ts:468-508 | the whole new state after the token endpoint answered |
| PluginLogin.Login.LeaveForLogin | plugin-sdk/src/auth.ts:407-425 | the whole new state once the page leaves, or cannot |
| PluginLogin.Login.OnTimer | plugin-sdk/src/auth.ts:577-580 | the timer is cleared as it fires |
| PluginLogin.Login.ObserveAvailability | plugin-sdk/src/auth.ts:605-617 | the whole new state after an API answer |
| PluginLogin.Login.ContinueFetch | plugin-sdk/src/auth.ts:294-299 | a gateway's refusal of the person denies |
| PluginLogin.Login.Close | plugin-sdk/src/auth.ts:315-323 | closed, without a timer |
| AgentTask.HandedOnInOrder | src/crew/services/agent_task_service.py:194-205 | a wait cut short handed on a prefix |
| AgentTask.OutcomeMeans | src/crew/services/agent_task_service.py:165-215 | the same of the specification, entry by entry |
| AgentTask.HandedOnAre | src/crew/services/agent_task_service.py:51-59 | handed on are tool calls and results, starts and ends of tasks, and knowledge searches, and nothing else |
| AgentTask.BlockMs | src/crew/services/agent_task_service.py:184-185 | a read blocks as long as it may and the time left allows, in whole milliseconds, but never for ever |
| AgentTask.AwaitResult | src/crew/services/agent_task_service.py:165-215 | however the stream is split: if the first entry that is malformed, an error or a result is delivered in time, it ends the wait: the payload of a result without a failure's stop reason is returned, an error or a failed result is raised with the payload's own error if it has one; handed on are exactly the live entries before it; else the wait is stopped or times out |
| AgentTask.Dispatcher.Dispatch | src/crew/services/agent_task_service.py:113-155 | the run's keys are deleted however the wait ends |
| RequestHandler.FinallyRuns | src/agent/app/request_handler.py:96-129 | however a body ends, its `finally` runs last, once, after all of it |
| RequestHandler.HandleMeans | src/agent/app/request_handler.py:96-129 | whichever of its steps raise, a request is acknowledged once, last; executed exactly if loaded and built, reported exactly if loading or building failed |
| RequestHandler.HandleThrows | src/agent/app/request_handler.py:96-129 | what leaves the handler: what the acknowledgement raised, else what the report or run raised, or a cancellation; a withdrawn run is no error |
| RequestHandler.ProcessMeans | src/agent/main.py:65-105 | whatever raises, a message is acknowledged once, last, and no `Exception` leaves its task |
| RequestHandler.Handle | src/agent/app/request_handler.py:96-129 | the program does what its `try` statements mean |
| RequestHandler.Process | src/agent/main.py:65-105 | the program does what its `try` statements mean |
| AgentConsumer.NeverTooMany | src/agent/main.py:130-158 | never more tasks in flight than slots, and none of them acknowledged |
| AgentConsumer.AllAcknowledged | src/agent/main.py:130-161 | when the consumer returns, every message it read was acknowledged exactly once and no task is left |
| AgentConsumer.NotStuck | src/agent/main.py:130-161 | until it has returned, some step is open |
| AgentConsumer.ReadsUntilTold | src/agent/main.py:133-161 | in every run the consumer drains or returns only if it was told to stop |
| AgentConsumer.TakesNoMore | src/agent/main.py:133-161 | once told to stop, and not in the middle of a read, it takes no more messages |
| AgentConsumer.FirstAsks | src/agent/main.py:130-142 | it begins by asking for as many messages as it has slots |
| AgentConsumer.AsksForFreeSlots | src/agent/main.py:134-142 | it asks for as many messages as it has free slots, and waits only without any |
| AgentConsumer.AsksAgain | src/agent/main.py:134-152 | after a slot was freed, or after a sleep, it asks again |
| AgentConsumer.WaitsForSlot | src/agent/main.py:137-139 | it waits until a slot is free |
| AgentConsumer.ReadStarts | src/agent/main.py:141-158 | a read starts one task for each message and leaves the others; a failed one starts none |
| AgentConsumer.InterruptedDrains | src/agent/main.py:133-161 | an interruption drains it wherever it awaits something |
| AgentConsumer.ReturnsWhenDrained | src/agent/main.py:160-161 | it returns only once no task is left |
| AgentConsumer.OwnStepOnly | src/agent/main.py:65-105 | a task takes only the step it stands before, and leaves other tasks alone |
| AgentConsumer.DelayFormula | src/agent/main.py:131-152 | the delay is the capped doubling for every retry exactly if the cap is not below the initial delay |
| AgentConsumer.FirstDelayAboveCap | src/agent/main.py:131-152 | with a cap below the initial delay the first retry exceeds it |
| AgentConsumer.SleepsDouble | src/agent/main.py:131-152 | in every run, the k-th sleep since the last good read is the capped doubling |
| AgentConsumer.TaskFollowsProgram | src/agent/main.py:65-105 | whatever its steps do, what `_process_message` runs takes a task of the consumer to exactly one acknowledgement and out of flight |
| AgentConsumer.Consumer.OnCut | src/agent/app/request_handler.py:96-129 | a task cancelled while it loads goes to its acknowledgement, unreported |
| AgentConsumer.Consumer.constructor | src/agent/main.py:130-131 | the state before the first read |
| AgentConsumer.Consumer.SetStop | src/agent/main.py:239-241 | the stop flag is set |
| AgentConsumer.Consumer.Loop | src/agent/main.py:134-139 | stops, waits for a slot, or reads as many as there are free slots |
| AgentConsumer.Consumer.OnSlotFreed | src/agent/main.py:137-139 | goes on once a task finished |
| AgentConsumer.Consumer.OnMessages | src/agent/main.py:153-158 | one task per message, and the delay starts over |
| AgentConsumer.Consumer.OnReadFailed | src/agent/main.py:143-150 | sleeps the current delay |
| AgentConsumer.Consumer.OnSlept | src/agent/main.py:151-152 | doubles the delay up to the cap |
| AgentConsumer.Consumer.Interrupt | src/agent/main.py:133-161 | a permanent error or a cancellation drains |
| AgentConsumer.Consumer.Finish | src/agent/main.py:160-161 | returns only when no task is left |
| AgentConsumer.Consumer.MoveTask | src/agent/main.py:65-98 | one task moves on |
| AgentConsumer.Consumer.OnParsed | src/agent/main.py:70-90 | a message that cannot be parsed goes to its acknowledgement |
| AgentConsumer.Consumer.OnLoaded | src/agent/app/request_handler.py:96-117 | loaded and built, or reported as failed |
| AgentConsumer.Consumer.OnExecuted | src/agent/app/request_handler.py:119-128 | an executed run goes to its acknowledgement |
| AgentConsumer.Consumer.OnReported | src/agent/app/request_handler.py:111-128 | a reported failure goes to its acknowledgement |
| AgentConsumer.Consumer.OnAcked | src/agent/app/request_handler.py:127-129 | an acknowledged delivery is no longer in flight |
| EnvLine.SplitConcat | scripts/envtool.py:501-524 | joined lines break into the same lines exactly if each is one line that ends before the next |
| EnvLine.SplitProper | scripts/envtool.py:501-501 | a text is its lines joined |
| EnvLine.LineParts | scripts/envtool.py:502-504 | what the body of a line keeps of its break |
| EnvLine.KeyLocal | scripts/envtool.py:75-76 | what a line assigns to is settled by its text up to the `=` |
| EnvLine.HeadBuilt | scripts/envtool.py:75-76 | any indent, `export` or not, a name and an `=`, with any white space, precede a value |
| EnvLine.HeadTaken | scripts/envtool.py:75-76 | and nothing else does |
| EnvLine.ParseParts | scripts/envtool.py:75-79 | a line that assigns is its head, its value and its comment |
| EnvLine.Builds | scripts/envtool.py:75-79 | a head, a value that needs no quotes and a comment parse as just those |
| EnvLine.ReadsQuoted | scripts/envtool.py:75-79 | a value in quotes, which may hold white space and `#`, is read without them; the line keeps them |
| EnvLine.UnquoteOnly | scripts/envtool.py:482-483 | any other value keeps its quotes |
| EnvLine.ReadsTrimmed | scripts/envtool.py:478-481 | white space behind a value is no part of it |
| EnvLine.EmptyReads | scripts/envtool.py:75-79 | a head and a comment without a value read as an empty value exactly if there is no comment |
| EnvLine.PlaceholderReadsNothing | scripts/envtool.py:509-509 | a placeholder assigns nothing |
| EnvLine.PlaceholderOnce | scripts/envtool.py:509-509 | a line is the placeholder of one name at most |
| EnvLine.PlaceholderBuilt | scripts/envtool.py:509-509 | a `#`, `export` or not, a name and `=<enter your value>`, with any white space, are a placeholder |
| EnvLine.PlaceholderTaken | scripts/envtool.py:509-509 | and nothing else is |
| EnvFile.ReadEnvValues | scripts/envtool.py:474-485 | the values are the last assignment of each name |
| EnvFile.RewriteAssigned | scripts/envtool.py:500-507 | the first loop rewrites the lines that assign and notes their names |
| EnvFile.TakePlaceholders | scripts/envtool.py:508-514 | the second loop gives each setting the first placeholder of its name |
| EnvFile.RewriteEnvValues | scripts/envtool.py:488-519 | the text written is the specified one |
| EnvFile.AssignsAsRead | scripts/envtool.py:474-507 | reader and editor find the same assignment in a line |
| EnvFile.RewriteKeepsApart | scripts/envtool.py:502-507 | a rewritten line stays one line before the next exactly if its break is CR or LF, or in its comment, or it is last and has a value |
| EnvFile.ApartExactly | scripts/envtool.py:488-519 | the new text breaks into the edited lines, each in its place, and the added ones, exactly if every line is safe |
| EnvFile.ReadsOverlaid | scripts/envtool.py:474-519 | reading the rewritten text gives the old reading overlaid with the settings |
| EnvFile.RewriteTwice | scripts/envtool.py:488-519 | a second rewrite changes nothing |
| EnvFile.OtherLinesKept | scripts/envtool.py:488-519 | every line stays in place: as a setting's line if it is the first placeholder of a missing name, with only its value replaced if it assigns to a set name, else as it was |
| EnvFile.NewLineOf | scripts/envtool.py:498-498 | added lines end in CR LF if the text holds one |
| EnvFile.NewLineFrom | scripts/envtool.py:498-498 | and in LF otherwise |
| EnvFile.FormFeedLost | scripts/envtool.py:502-506 | a form feed at the end of a rewritten line is lost |
| EnvFile.EmptyValueReads | scripts/envtool.py:75-79 | a line rewritten with an empty value reads as empty exactly if it has no comment |
| EnvFile.EmptyValueReadsComment | scripts/envtool.py:474-519 | "A=1 # c" rewritten with an empty value reads as "# c" |
| EnvFeatures.ProfilesReadBack | scripts/envtool.py:284-298 | a list of profiles parses back to itself |
| EnvFeatures.ParsedClean | scripts/envtool.py:284-286 | parsed profiles are stripped, not empty, not `none`, and without commas |
| EnvFeatures.ParsedAre | scripts/envtool.py:284-286 | parsed profiles are the parts between commas, stripped, but for empty ones and `none` in any case |
| EnvFeatures.FlagsAndProfilesAgree | scripts/envtool.py:289-298 | a feature's profile is active exactly if its flag is true; `dev` exactly for local files; other profiles as before |
| EnvFeatures.FeaturesWritten | scripts/envtool.py:284-298 | the same read back from the file the values were written to |
| VariablePaths.PutThenGet | src/crew/utils/set_output_variables.py:49-69 | a written output is read back, cleaned and merged if both are dictionaries, exactly if the last key is not a name of a dictionary's own attribute; else that attribute is read |
| VariablePaths.PutGoesThrough | src/crew/utils/set_output_variables.py:49-69 | without hooks, a write goes through exactly if the walk comes to a dictionary, or to a list that has the last index; names are made on the way, indices are not |
| VariablePaths.ItemsHidden | src/crew/utils/set_output_variables.py:49-69 | an output at `items` is hidden by the method, one at `__result__` is read back |
| VariablePaths.HookReadBack | src/shared/dotdict/dotdict.py:50-75 | a hook is read back as written; a later write of a key then raises exactly if the properties are more than an empty dictionary, after it stored its value, or if the setters refuse the key, before |
| VariablePaths.RefusesMeans | src/shared/dotdict/dotdict.py:50-55 | setters let a key pass exactly if they can be searched and do not hold it |
| VariablePaths.QuietMeans | src/shared/dotdict/dotdict.py:73-75 | properties let a write pass exactly if they are an empty dictionary |
| VariablePaths.UpdateMeans | src/shared/dotdict/dotdict.py:69-71 | a dictionary takes an update exactly if it takes every item, and then holds them over what it held |
| VariablePaths.CleanCopy | src/shared/dotdict/dotdict.py:232-251 | what the variables keep of a value differs from it in proxies only |
| VariablePaths.CleanKeepsPlaces | src/crew/utils/map_variables.py:7-24 | cleaning leaves every text, number, list and key in its place |
| VariablePaths.CopyKeepsPlaces | src/shared/dotdict/dotdict.py:232-251 | so does the copy the variables keep, with dictionaries of their own kind |
| VariablePaths.OtherPathsKept | src/crew/utils/set_output_variables.py:49-69 | a path unrelated to the written one reads as before, also after a write that raised |
| VariablePaths.MissingThenRaises | src/crew/utils/set_output_variables.py:53-56 | a dictionary made on the way turns a missing path into one that raises |
| VariablePaths.RootMergesCommute | src/crew/utils/set_output_variables.py:33-47 | root updates that write apart go through and give the same in either order |
| VariablePaths.UpdateRoot | src/crew/utils/set_output_variables.py:37-47 | the loop computes the root update, up to the item that raises |
| VariablePaths.RootNeedsNames | src/crew/utils/set_output_variables.py:33-47 | a root update goes through only if all its keys are texts |
| VariablePaths.RootAllIs | src/crew/utils/set_output_variables.py:33-47 | the result of a root update, and whether it goes through, do not depend on the order of the items |
| VariablePaths.MapReads | src/crew/utils/map_variables.py:98-120 | what a mapped path gives that is found, missing or raises, in every mode; filling in goes on from "not found" behind the first missing name |
| VariablePaths.NumberParts | src/crew/utils/map_variables.py:98-104 | the parts of a number that a path can name are numbers |
| VariablePaths.NotFoundExactly | src/crew/utils/map_variables.py:98-120 | filling in raises exactly if an index behind the first missing name does not fit; else it gives "not found" exactly if nothing follows, or a name comes last that is no attribute there, an attribute exactly if such a name comes last, and a letter exactly if an index comes last |
| VariablePaths.PutThenMap | src/crew/utils/map_variables.py:98-129 | writing at a path and mapping it back gives the output exactly if the last key is not a name of a dictionary's own attribute |
| VariablePaths.NotFoundLetter | src/crew/utils/map_variables.py:100-114 | an index behind a missing name gives a letter of "not found" |
| VariablePaths.NotFoundTitle | src/crew/utils/map_variables.py:98-117 | with `movie` missing, `variables.movie.title` gives a method of the text "not found" |
| VariablePaths.MapVariable | src/crew/utils/map_variables.py:98-120 | the walk computes the specified value |
| EgressFirewall.BuildIpv4Rules | src/sandbox/egress_firewall.py:90-120 | the loops build the specified chain |
| EgressFirewall.FirstMatchMeans | src/sandbox/egress_firewall.py:98-114 | accepting rules first: rejected is what none of them matches and a rejecting one does |
| EgressFirewall.RulesMean | src/sandbox/egress_firewall.py:48-120 | a packet is rejected exactly if it is the user's, to a blocked range, and neither DNS to a nameserver nor TCP to a storage endpoint |
| EgressFirewall.OrderIrrelevant | src/sandbox/egress_firewall.py:90-120 | the order and repetition of the carve-outs do not matter |
| EgressFirewall.BlockedAre | src/sandbox/egress_firewall.py:48-62 | the blocked ranges, as octets |
| HostAcl.SuffixIsLabels | src/plugins_egress/plugin_host_acl.py:55-66 | the suffix test holds exactly if the host is labels before the domain's |
| HostAcl.AllowsMeansEntries | src/plugins_egress/plugin_host_acl.py:48-66 | a list allows a host exactly if it is a name and some entry allows it |
| HostAcl.NameMeans | src/plugins_egress/plugin_host_acl.py:62-65 | a name has a character, no dot at its ends and no two dots in a row |
| HostAcl.SpellingsOf | src/plugins_egress/plugin_host_acl.py:40-45 | what normalises to a plain host is that host, with a dot behind, in brackets, or both; in any case |
| HostAcl.NotTheDomain | src/plugins_egress/plugin_host_acl.py:12-16 | `*.domain` never allows the domain itself, nor a name that merely ends in its letters |
| HostAcl.NormalizeAgain | src/plugins_egress/plugin_host_acl.py:40-45 | a host normalised again stays exactly if, with its brackets off once, it does not end with two dots, is not bracketed, and is not bracketed but for a dot behind |
| HostAcl.DotBehindBrackets | src/plugins_egress/plugin_host_acl.py:40-45 | a dot behind brackets keeps the brackets |
| HostAcl.AnswersAreFresh | src/plugins_egress/plugin_host_acl.py:69-106 | over any file changes the cache answers as a fresh reading, if signatures tell contents apart |
| HostAcl.StaleAnswer | src/plugins_egress/plugin_host_acl.py:87-90 | a changed file with its old signature is answered from the old one |
| HostAcl.HostPolicy.constructor | src/plugins_egress/plugin_host_acl.py:72-76 | nothing is cached |
| HostAcl.HostPolicy.Reload | src/plugins_egress/plugin_host_acl.py:83-102 | the cache after looking at the file |
| HostAcl.HostPolicy.Ask | src/plugins_egress/plugin_host_acl.py:78-81 | the answer is the fresh one |

## Left out

- Navigation paths: lone surrogates, which no UTF-8 text holds, and the one warning about an address that cannot be shown.
- NavSync: the DOM (history objects, frames, event dispatch); what a page's own `onNavigate` does to the address; a clock that goes back.
- SecretScrubber: regular expression matching is the leftmost alternation it specifies; the setting that turns masking of user secrets off.
- Conversation: who may call what, the run slot's start and release by the orchestrators, retention, and the binding's limits, contract checks and display names.
- Conversation.UsageOnDay: only for days from the stored one on; Conversation.UsageOnReads says what the counters give for other days.
- VenvChain: the hash (equal names mean equal sets), more than one event loop (each has its own locks), user code that changes its environment, and the jail, network and timeout around the execution.
- VenvChain.ExecutesComplete: "installed" is what pip reported; that a later successful install may replace an earlier library by another version is not modelled.
- VenvChain.Sandbox.Fail: an exception of a step. A run cancelled while it waits for pip leaves that pip running outside the lock, where it may still change the environment; the model has no such process.
- PluginLogin: which flows are under way (events may come in any order, which covers all of them), listeners that call back in, popups beyond their sign-in step, and the retry of a refused request.
- AgentTask: the request's content, time-to-live of keys, and a callback's own failure, which the loop swallows.
- RequestHandler: a task cancelled before its first step, which runs nothing; logging.
- AgentConsumer: a second cancellation while the last tasks finish; an acknowledgement that Redis refuses counts as made.
- EnvFile.ReadsOverlaid: assumes values that need no quotes, as the writer does not quote (`EnvLine.GoodValue`: one line, not empty, no white space at the ends or before a `#`, not begun with a quote), and lines that are safe, which is exact (EnvFile.ApartExactly).
- EnvFeatures.FeaturesWritten: assumes that the profiles need no quotes; a kept profile may begin with a quote or hold white space before a `#`.
- EnvFile: a text that begins with a second byte order mark; letters of a name outside ASCII; the temporary file and its mode; `update_env_file`, which only appends.
- VariablePaths: update in place and aliasing (a write gives a new tree; assignments in the original copy what they are given); the text of a path and its defaults; attributes set on lists, which no dump shows; an output with a dictionary that has a key `__properties__` or `__setters__`, which registers expressions; values other than JSON's; the part of a dictionary update stored before an item raises.
- VariablePaths.PutGoesThrough: for variables without hooks; what hooks let pass is said one dictionary at a time (VariablePaths.HookReadBack, VariablePaths.RefusesMeans).
- VariablePaths.OtherPathsKept: a write through `__class__` (`variables.__class__.foo` sets it for every dictionary) or into `__dict__`, which the model lets fail.
- VariablePaths.NotFoundExactly: what an attribute with two underscores holds (`__doc__` is a text); the model gives every attribute the attributes of a method and no elements.
- EgressFirewall: the text of the rules, IPv6 (one rule), and reading nameservers and storage endpoints.
- HostAcl: JSON and the request line's format; letters outside ASCII are not lower-cased.
- The setup wizard, notices, storage, HTTP services and the other modules of the repository: no property comparable to these.
