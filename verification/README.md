# Verification of odch-gateway

The gateway connects an NMDC hub (a Unix socket carrying framed JSON) with HTTP clients and
external bots. This project models the parts of it that are state machines, protocols or
arithmetic, and proves what they keep over every run. `dafny verify dfyconfig.toml` checks it
(Dafny 4.11).

| file | what it models | main results |
|---|---|---|
| `RateLimiter.dfy` | the token-bucket limiter with its eviction pass | every answer equals an exact window condition on the key's own earlier grants; eviction is invisible; rate bound; when exactly the next token is there |
| `Framing.dfy` | the frame encoder, the exact reader and the incremental decoder | chunking independence; round trip with its exact condition; frames that are not text make no difference |
| `Reconnect.dfy` | the reconnect delay | closed form over every run of sessions |
| `BotMirror.dfy` | registry, handlers, command queue, reconnects, the re-adding loop | the hub's bot users converge to the registry, exactly under three conditions |
| `BotForwarder.dfy` | per-bot event forwarders on the shared bus | in-order, duplicate-free, exact from the subscription on without lag, catches up, silent once its registration ends |
| `Dispatch.dfy` | command engine and bot registration | who is registered after any run, by token; exclusive dispatch; which names are kept from the built-ins and which built-ins can still run after any run; when a bot's claim is not honoured |
| `ModTable.dfy` | the bans and gags tables | purging is invisible but for one answer, with its exact condition; the ledger of rows in force |
| `Moderation.dfy` | chat moderation, gag gate, API writes, maintenance | rank safety over runs; the exact output of a run; the gag gate and the ban gate; maintenance is invisible; exactly when a nick is heard, or kicked on joining |
| `Tells.dfy` | stored messages and delivery passes | conservation, creation order, sent once |
| `HubLive.dfy` | users and operators seen on the hub, operator relay, user listing | reachable states characterised; when listed and flagged operators agree; relay recipients; pages partition the users |
| `WsLimit.dfy` | the WebSocket connection counter | overshoot bound, attained; the limit holds exactly without overlap; failed upgrades lock it |
| `SocketQueue.dfy` | the hub socket loop, the bounded command queue, and the locks that other tasks hold while they queue | the states in which the loop has stopped for good; when a read, or a run, can end in one |
| `Common.dfy` | an option type and white-space trimming used by several files | |

The source's concurrent loops and handlers that share state are state machines over their atomic steps;
objects it updates in place are classes whose methods are proved against functions of the old
state, and the results over runs are lemmas about those functions.

## What the proofs say about the code

Nine promises do not hold as stated; each has a lemma giving the input or the run that breaks it
and the condition under which it does hold.

- A round trip through the hub framing holds if and only if every message is at most
  1,048,576 bytes: the sender does not check, and a larger message ends the session at its header
  (`Framing.RoundTrip`, `Framing.OversizeEndsSession`).
- Unregistering any bot hands every other bot's claimed commands back to the built-in engine
  (`Dispatch.UnregisterUnclaimsOthers`); the claims of the bots still registered are honoured
  exactly when each was claimed since the last unregistration (`Dispatch.HonouredExactly`).
- With w handlers allowed between the check and the increment, up to 99 + w WebSocket
  connections are accepted, so the limit of 100 is kept exactly when w is 1
  (`WsLimit.LimitKeptIffNoOverlap`). The counter is the number of live connections exactly when
  no accepted upgrade has failed, and a hundred failures close the endpoint for good
  (`WsLimit.BoundedOvershoot`, `WsLimit.FailedUpgradesLockOut`).
- Listed operators are exactly the users flagged as operators if and only if each operator the
  latest full list names is an operator in its last entry there and has neither sent its own info
  nor left since (`HubLive.AgreementIff`, `HubLive.OverriddenOperator`).
- The hub's bot users end up as the registered bots, over all runs, exactly when handlers for one
  nick queue their commands in the order in which they updated the registry, no handler is dropped
  between its update and its send, and lag skips no reconnect event
  (`BotMirror.MirrorConvergesIff`). Handlers otherwise interleave freely, a handler is dropped only
  if its client goes away while the queue is full (`BotMirror.AbandonBreaksMirror`), and lag skips
  nothing while the re-adding loop is at most 1024 events behind (`BotMirror.KeepingUpConverges`).
- A gag need not be lifted by an ungag: a delete by id through the bot API removes it without an
  event (`Moderation.DeletedGagSpeaks`). Ungags account for every gag exactly when no gag on
  the nick is deleted that way (`Moderation.UngagsSufficeIff`); counting both, a nick is heard
  exactly when its books balance (`Moderation.HeardIff`).
- A purge shows in one answer, that of a delete by id: exactly when the row would still be stored,
  expired, and an earlier purge met it expired (`ModTable.PurgeShowsInDelete`,
  `ModTable.PurgedRowIsNotFound`).
- A claimed built-in is not off: its aliases still run it. After any run it is off exactly when
  each of its names was claimed since the last unregistration (`Dispatch.BuiltinOffIff`,
  `Dispatch.AliasStillRuns`).
- The command queue does more than delay senders: its only consumer is the socket loop, which takes
  nothing from it while handling a read. The loop has stopped for good in exactly three situations:
  a frame's command finds the queue full; a frame about users waits for the user map, whose holders
  (mass message, operator relay) have more to send than fits; a nick frame waits for the registry
  behind a writer, and the re-adding loop holds it with more to send than fits
  (`SocketQueue.StuckIffDoomed`). One read can lead there exactly under the condition of
  `SocketQueue.ReadBlocksIff`; a mass message to 257 users and one departing user suffice
  (`SocketQueue.MassMessageStopsLoop`).

## Assumptions

- Clocks are monotone; moderation handlers run one at a time and the clock advances between
  them, so creation times are strictly increasing; they run to completion. Database calls succeed.
- Registration tokens are fresh (they are random UUIDs), and a bot can present its token only once
  its register handler has queued the add, as the response comes after that.
- The hub starts a session with no virtual users and keeps the latest profile it was sent.
- A database and a command engine are configured: without them the source starts no re-adding loop
  and no bot comes back after a reconnect. The loop has subscribed before the hub first connects.
- `Dispatch` takes registering and unregistering as single steps; in the source the disabled set
  changes only after the handler has waited for room in the queue, so between `BotMirror`'s steps it
  lags behind the registry, and for good if the handler is dropped there.
- Locks other than those of `SocketQueue` are held only
  briefly, never across a send.
- Time and tokens are reals in the limiter and integers elsewhere.
- Lower-casing, white space and UTF-8 validity are parameters.

## Model

| member | source | states |
|---|---|---|
| RateLimiting.RateLimiter.constructor | src/api/rate_limit.rs:29-35 | a new limiter holds no buckets and is consistent with an empty history |
| RateLimiting.RateLimiter.TryAcquire | src/api/rate_limit.rs:39-66 | allows a request exactly when no window ending now would hold more grants to its key than a full bucket plus the refill over that window; more than 101 buckets remain only if all were touched within 300 s |
| RateLimiting.IdleBucketIsFull | src/api/rate_limit.rs:43-47 | an idle time of 300 s earns at least the capacity, so forgetting the bucket loses nothing |
| RateLimiting.RefillInTwoSteps | src/api/rate_limit.rs:54-58 | refilling over two intervals is refilling once over their sum |
| RateLimiting.LevelAtLeast | src/api/rate_limit.rs:54-62 | refill, cap and spend unfold to a minimum over all earlier grants |
| RateLimiting.TakeIsPermits | src/api/rate_limit.rs:49-65 | a call on a consistent map answers the window condition and leaves a consistent map with tokens between 0 and the maximum |
| RateLimiting.RunIsExact | src/api/rate_limit.rs:39-66 | in every run with non-decreasing times each answer is the window condition on the key's own earlier grants, with or without eviction |
| RateLimiting.EvictionInvisible | src/api/rate_limit.rs:43-58 | every run gets the same answers as from a limiter that never forgets a key |
| RateLimiting.RateBound | src/api/rate_limit.rs:39-66 | in any interval of d seconds a key is granted at most max + d * max / 60 requests |
| RateLimiting.OnlyOwnGrantsMatter | src/api/rate_limit.rs:49-65 | deleting denied requests of a key, or any requests of other keys, changes none of its other answers |
| RateLimiting.BurstIsCut | src/api/rate_limit.rs:97-113 | of requests for one key at one instant exactly the first max are allowed |
| RateLimiting.NextTokenAt | src/api/rate_limit.rs:54-65 | in every run, once a key's grants are its maximum at one instant, its request d seconds later is allowed exactly when d * max >= 60 |
| RateLimiting.NextTokenAfterBurst | src/api/rate_limit.rs:49-65 | a fresh key has its maximum allowed at once, and one more d seconds later exactly when d * max >= 60 |
| RateLimiting.FullBurstAfterWindow | src/api/rate_limit.rs:54-58 | in every run a key with no grant in the last 60 s has a full burst allowed |
| RateLimiting.EvictsExactly | src/api/rate_limit.rs:43-47 | another key's bucket survives a call exactly if at most 100 are stored or it was used within 300 s, and unchanged |
| Framing.NumberRoundTrip | src/hub/socket.rs:132-134 | a number that fits is read back from its big-endian bytes |
| Framing.BytesRoundTrip | src/hub/socket.rs:171-172 | and its big-endian bytes are the ones it was read from |
| Framing.HeaderIsBigEndian | src/hub/socket.rs:171-172 | the header is the four base-256 digits of the length, the most significant first |
| Framing.LengthWraps | src/hub/socket.rs:171 | the announced length is that of the message modulo 2^32 |
| Framing.ParseFindsFrames | src/hub/socket.rs:131-150 | frames before an unfinished or oversize one are found once each and in order |
| Framing.EveryStreamIsFrames | src/hub/socket.rs:131-150 | every byte stream is such a sequence of frames and a stuck suffix |
| Framing.ParseAppend | src/hub/socket.rs:129-150 | later bytes never change what was parsed from earlier ones |
| Framing.ChunkingIndependence | src/hub/socket.rs:107-151 | for every cut into reads: same messages as one pass, failure at the same position, otherwise a buffer holding exactly the unfinished frame, under 4 + 1,048,576 bytes |
| Framing.RoundTrip | src/hub/socket.rs:129-176 | sent messages arrive unchanged, in order, with nothing left over, if and only if all are within the limit |
| Framing.OversizeEndsSession | src/hub/socket.rs:129-139 | a message over the limit, whatever its contents and however the stream is cut, ends the session exactly at its header after everything before it was handed on |
| Framing.DeliveredIsText | src/hub/socket.rs:145-147 | however the stream is cut, everything handed on is UTF-8 |
| Framing.InvalidFrameIsInvisible | src/hub/socket.rs:144-149 | a frame that is not UTF-8, after any complete frames and before any bytes, changes nothing that is handed on or left over, however both streams are cut |
| Framing.ReadFrameInvertsEncode | src/hub/socket.rs:170-193 | the exact reader returns the sent message and the rest of the stream if and only if it is within the limit |
| Framing.ReadFrameRejects | src/hub/socket.rs:179-193 | a frame that is not UTF-8 is taken off and reported; an oversize one is reported with only its header taken off |
| Framing.ReadFrameAtEnd | src/hub/socket.rs:182-191 | a stream that ends within a frame, or before one, is reported and used up |
| Framing.SessionRoundTrip | src/hub/socket.rs:82-150 | the reply read exactly and the events after it read in any chunks are what was sent if and only if nothing is over the limit |
| Framing.ParsedMessagesFit | src/hub/socket.rs:136-138 | no message over the limit is ever handed on |
| Framing.HubConnection.SendJson | src/hub/socket.rs:170-176 | writes one frame after what was written before |
| Framing.HubConnection.ReadJson | src/hub/socket.rs:179-193 | takes one frame off the incoming bytes or reports why not |
| Framing.HubConnection.OnRead | src/hub/socket.rs:122-151 | one read has the effect the chunking theorem is about and leaves a bounded buffer |
| Framing.HubConnection.TakeFrame | src/hub/socket.rs:144-149 | hands on the first frame if it is text and drains it either way |
| Framing.HubConnection.ProcessBuffer | src/hub/socket.rs:131-150 | the drain loop hands on every complete frame in the buffer |
| Reconnect.Run | src/hub/socket.rs:39-66 | the sleep after a session is min(300, 5 * 2^k), k iterations after the last reset |
| Reconnect.BackoffShape | src/hub/socket.rs:16-19 | the sleep stays in 5..300, never decreases in k, and is at the cap exactly from k = 6 |
| Reconnect.SleepsInARun | src/hub/socket.rs:47-65 | a clean close is followed by 5 s, any other session by no less than the sleep before |
| Reconnect.SleepDoubles | src/hub/socket.rs:39-65 | the first sleep and the one after a clean close are 5 s, any other twice the one before up to 300 s |
| Reconnect.SleepAfterReset | src/hub/socket.rs:39-65 | k iterations after a reset the sleep is min(300, 5 * 2^k) |
| BotMirror.StepKeepsInv | src/api/bot.rs:578-681 | every step of handlers, socket loop and re-adding loop keeps queue, hub and registry in agreement per nick |
| BotMirror.LastQueuedAgrees | src/api/bot.rs:610-624 | the last queued add or remove for a nick is what the registry asks for, profile included, unless its handler is about to queue |
| BotMirror.MirrorConverges | src/main.rs:330-346 | in every run in which handlers for one nick queue in turn, none is dropped before its send and no reconnect event is skipped, once that event is handled and the queue drained the hub's bot users are exactly the registered bots, profiles included |
| BotMirror.KeepingUpConverges | src/main.rs:348-350 | the same, instead of requiring that no reconnect event is skipped, for every run in which the re-adding loop is never more than the bus capacity behind |
| BotMirror.MirrorConvergesIff | src/api/bot.rs:578-681 | of the eight combinations of permitting such reordering, such drops and such lag, convergence holds over all runs exactly when none is permitted |
| BotMirror.ReorderBreaksMirror | src/api/bot.rs:660-681 | an unregister that validated the old token and a re-registration of the same nick, queueing in the other order, leave a virtual user that no registered bot owns |
| BotMirror.LagBreaksMirror | src/main.rs:348-350 | 1024 events published after a reconnect, before the loop sees it, can leave a registered bot without a virtual user |
| BotMirror.AbandonBreaksMirror | src/api/bot.rs:578-624 | a register handler dropped while it waits for room in a full queue leaves a registered bot for which no add was ever queued |
| BotMirror.NoUnregisterBeforeAdd | src/api/bot.rs:639-665 | in every run an unregistration never begins with the token of a registration that has not queued its add yet |
| BotMirror.OnlyOwnHandlers | src/api/bot.rs:578-674 | a nick's registry entry changes only by a registration or a removal for that nick |
| BotForwarder.InOrderSubscribedOnly | src/api/bot.rs:878-925 | over all interleavings a channel gets an in-order, duplicate-free selection of events with subscribed tags |
| BotForwarder.ExactWithoutLag | src/api/bot.rs:884-918 | without lag it gets exactly the filtered bus from the forwarder's start, which the next row ties to the subscription, to its position |
| BotForwarder.OnlySinceSubscription | src/api/bot.rs:884-918 | from any reachable state in which a forwarder subscribes it sends only later events with subscribed tags; without lag exactly those up to its position |
| BotForwarder.ForwarderCatchesUp | src/api/bot.rs:599-608 | from every reachable state a current registration's forwarder can by its own steps reach the end of the bus, having sent every subscribed event since its start unless it lagged |
| BotForwarder.MatchingMembers | src/api/bot.rs:913-917 | the filtered bus consists of the positions in range whose tag is subscribed |
| BotForwarder.ReplacedForwarderIsSilent | src/api/bot.rs:893-911 | a registration that is gone or replaced never becomes current again and its forwarder sends nothing more |
| BotForwarder.CurrentUntilEnded | src/api/bot.rs:893-911 | a registration ends exactly when its nick is unregistered or registered again |
| BotForwarder.EndedForwarderIsSilent | src/api/bot.rs:893-911 | from that step on its forwarder sends nothing, whatever happens |
| BotForwarder.EndedForwarderExits | src/api/bot.rs:893-911 | the first event it looks at after that ends its loop for good |
| Dispatch.RegistryIsLatest | src/api/bot.rs:578-674 | after every run a nick is registered exactly when some registration of it has since been neither replaced nor removed with its own token, and its bot has that registration's token, lower-cased claims and events |
| Dispatch.UnregisterNeedsToken | src/api/bot.rs:24-31 | after every run an unregistration with the token in force removes that bot and frees every claimed name; with any other token it changes nothing |
| Dispatch.ServesIff | src/bot/mod.rs:136-150 | after every run a bot may be sent a command exactly when the registration in force for its nick claimed the name and asked for "command" events |
| Dispatch.DisabledIsClaimedSinceReset | src/bot/mod.rs:98-109 | after every run the names kept from the built-ins are the lower-cased claims registered since the last unregistration |
| Dispatch.BuiltinOffIff | src/bot/mod.rs:133-160 | after every run no chat message runs a built-in exactly when its own name, unless that is an alias, and every alias for it were claimed since the last unregistration |
| Dispatch.AliasStillRuns | src/bot/commands/mod.rs:131 | after a bot claims "quote" the built-in no longer runs under that name but still runs as "q" |
| Dispatch.HonouredExactly | src/bot/mod.rs:133-150 | all commands claimed by registered bots are routed to bots exactly when each was claimed since the last unregistration |
| Dispatch.HonouredAfter | src/api/bot.rs:683-686 | an unregistration keeps the other bots' claims honoured exactly when they claim nothing |
| Dispatch.UnregisterUnclaimsOthers | src/api/bot.rs:683-686 | a run of two bots in which one leaving takes the other's command away |
| Dispatch.ParseReadsCommand | src/bot/mod.rs:122-133 | a command with arguments, in whatever white space, reads back as its lower-cased name and its arguments |
| Dispatch.ParseReadsBare | src/bot/mod.rs:122-133 | so does a command without arguments, with none |
| Dispatch.ParseOther | src/bot/mod.rs:122-125 | a message that does not start with "!" after white space, or is only white space, is no command |
| Dispatch.CommandEngine.constructor | src/bot/mod.rs:78-88 | a new engine has every given built-in and all its aliases registered, nothing disabled and no bots |
| Dispatch.AliasesAreLast | src/bot/mod.rs:91-96 | an alias stands for the last built-in registered with it |
| Dispatch.CommandEngine.RegisterBuiltin | src/bot/mod.rs:91-96 | adds the handler name and points every alias to it |
| Dispatch.CommandEngine.DisableCommands | src/bot/mod.rs:99-104 | adds the lower-cased names to the disabled set |
| Dispatch.CommandEngine.EnableAll | src/bot/mod.rs:107-109 | empties the disabled set |
| Dispatch.CommandEngine.RegisterBot | src/api/bot.rs:578-629 | inserts or replaces the bot, queues its add and disables its claims |
| Dispatch.CommandEngine.UnregisterBot | src/api/bot.rs:660-697 | with the bot's token removes it, queues the remove and clears the disabled set; otherwise reports why and changes nothing |
| Dispatch.CommandEngine.TryHandle | src/bot/mod.rs:113-182 | either one built-in runs and no bot is sent anything, or none runs and at most one claiming and subscribing bot is sent exactly one Command, one if there is such a bot |
| ModTable.CheckFindsNewest | src/db/queries.rs:404-414 | the check finds a row in force if there is one and none in force is newer |
| ModTable.ListIsActiveNewestFirst | src/db/queries.rs:257-266 | the listing is exactly the rows in force, newest first |
| ModTable.CheckAfterCreate | src/db/queries.rs:384-414 | a new row is the one the check finds from its creation exactly until it expires, and afterwards it does not show |
| ModTable.PurgeDeletesExactlyExpired | src/db/queries.rs:521-537 | a purge deletes exactly the rows no longer in force |
| ModTable.StepKeepsWellFormed | src/db/queries.rs:223-274 | every statement keeps ids and creation times increasing |
| ModTable.PurgeInvisible | src/db/queries.rs:521-537 | purges inserted anywhere change no later insertion, check, listing, unban or ungag answer, nor a delete by id of an unexpired row |
| ModTable.PurgeShowsInDelete | src/api/bot.rs:154-164 | purges change the answer of a delete by id exactly when the row would still be stored, expired, and a purge before ran after it had expired |
| ModTable.PurgedRowIsNotFound | src/db/queries.rs:521-537 | a run of creation, expiry, purge and delete by id in which the purge shows |
| ModTable.StoredUnlessPurged | src/db/queries.rs:521-537 | over every run a row that would be stored without purges is stored with them unless a purge met it expired |
| ModTable.LedgerStep | src/db/queries.rs:384-433 | every statement balances: rows on a nick lasting to a moment are gained by creation and lost by lifting or deleting by id, never by a purge |
| ModTable.LiftRemovesOne | src/bot/commands/mod.rs:682-684 | lifting a gag in force removes exactly one gag in force |
| ModTable.LiftRemovesNewest | src/bot/commands/mod.rs:682-684 | the row lifted is the newest in force for the nick and every other row stays |
| Moderation.PermissionsUnchanged | src/db/queries.rs:37-62 | no hub event and no chat command changes anyone's permission, a missing user counting as 0 |
| Moderation.EffectIffOutranks | src/bot/commands/mod.rs:47-62 | a chat moderation command has an effect exactly when its caller is an operator above its target and there is something to lift |
| Moderation.RankSafety | src/bot/commands/mod.rs:497-697 | in every run without API permission changes an effective command had a caller of initial rank at least 2 strictly above its target, so never itself |
| Moderation.TopRankUntouched | src/bot/commands/mod.rs:47-62 | in such a run no chat command has any effect on someone of maximal permission |
| Moderation.PermissionAfter | src/api/moderation.rs:225-428 | a permission changes only by an accepted registration, unregistration or password for that nick, to the level each gives it |
| Moderation.StoredAfter | src/db/event_processor.rs:57-80 | users are never removed, and a nick is added exactly when seen, when it joins unbanned, or by an accepted registration or password |
| Moderation.OutputsExact | src/bot/commands/mod.rs:497-697 | over every run the hub commands and bus events are, each once and in order, exactly those called for by the ranks and the rows in force |
| Moderation.BanGate | src/db/event_processor.rs:70-80 | over every run joins kick exactly the nicks that join while some ban on them is in force, each once and in order |
| Moderation.JoinStep | src/db/event_processor.rs:70-80 | a banned join stores nothing; any other queues nothing and leaves the nick stored with the permission it had, or 0 |
| Moderation.AddressBanBindsNobody | src/api/moderation.rs:92-95 | a ban by address changes no check of any nick |
| Moderation.GagGate | src/hub/socket.rs:223-258 | over every run the published and the echoed chat are the messages sent while no gag was in force, each once and in order; every other message got one notice |
| Moderation.MaintenanceInvisible | src/db/event_processor.rs:128-143 | leaving every maintenance tick out of a run changes no bus event, no other hub command, no permission and no row in force |
| Moderation.TickPurges | src/db/event_processor.rs:128-143 | a tick leaves exactly the rows that never expire or expire later, in both tables |
| Moderation.Ledger | src/db/queries.rs:223-433 | over every run the lasting bans, and gags, on a nick are those at first plus those created minus those lifted minus those deleted by id |
| Moderation.HeardIff | src/hub/socket.rs:223-258 | a message is published exactly when as many lasting gags on its sender were lifted or deleted as there were at first or were created since |
| Moderation.KickedOnJoinIff | src/db/event_processor.rs:70-80 | a joining nick is kicked exactly when more lasting bans on it were there at first or created since than were lifted or deleted |
| Moderation.SpeaksOnlyAfterRemovals | src/bot/commands/mod.rs:671-697 | a nick with m gags lasting until a moment is heard at that moment only after m removals, each an announced ungag or a delete by id of one of its rows |
| Moderation.DeletedGagSpeaks | src/api/bot.rs:414-424 | a permanently gagged nick is heard after one delete by id and no ungag |
| Moderation.UngagsCoverIff | src/bot/commands/mod.rs:671-697 | for a nick that is heard, ungags account for all its initial lasting gags exactly when no more of its gags were deleted by id than were created since |
| Moderation.UngagsSufficeIff | src/api/bot.rs:414-424 | ungags alone account for every gag, over all runs, exactly when no gag on the nick is deleted by id |
| Moderation.Gateway.OnHubChat | src/hub/socket.rs:223-258 | the chat branch: notice, or echo and publish |
| Moderation.Gateway.OnJoin | src/db/event_processor.rs:70-80 | a banned nick is kicked and nothing else; any other is stored |
| Moderation.Gateway.UpsertUser | src/db/queries.rs:37-62 | creates with permission 0 or keeps the permission |
| Moderation.Gateway.OnMaintenanceTick | src/db/event_processor.rs:128-143 | purges both tables |
| Moderation.Gateway.RequireOutranks | src/bot/commands/mod.rs:47-62 | denies exactly callers below operator or not above the target |
| Moderation.Gateway.BanCommand | src/bot/commands/mod.rs:497-543 | the ban command against the step function |
| Moderation.Gateway.UnbanCommand | src/bot/commands/mod.rs:545-571 | the unban command against the step function |
| Moderation.Gateway.KickCommand | src/bot/commands/mod.rs:573-612 | the kick command against the step function |
| Moderation.Gateway.GagCommand | src/bot/commands/mod.rs:614-669 | the gag command against the step function |
| Moderation.Gateway.UngagCommand | src/bot/commands/mod.rs:671-697 | the ungag command against the step function |
| Moderation.Gateway.BanUser | src/api/moderation.rs:80-114 | the ban endpoint, by nick or address |
| Moderation.Gateway.UnbanUser | src/api/moderation.rs:117-147 | the unban endpoint, which reports a nick without a ban in force |
| Moderation.Gateway.GagUser | src/api/moderation.rs:150-177 | the gag endpoint |
| Moderation.Gateway.UngagUser | src/api/moderation.rs:180-210 | the ungag endpoint, which reports a nick without a gag in force |
| Moderation.Gateway.CreateBanRow | src/api/bot.rs:115-139 | the bot API's ban: a row and nothing else, no validation, kick or event |
| Moderation.Gateway.DeleteBanRow | src/api/bot.rs:154-164 | deletes a ban by id and reports whether there was one |
| Moderation.Gateway.CreateGagRow | src/api/bot.rs:376-399 | the bot API's gag: a row and nothing else |
| Moderation.Gateway.DeleteGagRow | src/api/bot.rs:414-424 | deletes a gag by id and reports whether there was one; no event |
| Tells.ConservedInOrder | src/db/queries.rs:280-314 | sent then pending is exactly what was created for a nick, in creation order; no tell is sent twice; delivered means sent |
| Tells.PassDeliversItsSnapshot | src/db/event_processor.rs:169-195 | every tell a pass read as pending is delivered by its end, whatever was created meanwhile |
| Tells.PassDeliversAll | src/db/event_processor.rs:169-195 | once the pass an event started has nothing left to send, every tell stored for that nick when it started has been sent and marked |
| Tells.TriggersIff | src/db/event_processor.rs:57-80 | chat starts a pass unless it is "!tell" after any white space, a join unless the nick is banned |
| Tells.EventProcessor.CreateTell | src/db/queries.rs:280-295 | appends a tell with a fresh id |
| Tells.EventProcessor.SendTell | src/db/event_processor.rs:177-192 | sends the oldest pending tell, takes it off the front and touches nobody else's |
| Tells.EventProcessor.DeliverTells | src/db/event_processor.rs:169-195 | an uninterrupted pass sends all pending tells of the nick, oldest first |
| Tells.EventProcessor.ProcessEvent | src/db/event_processor.rs:57-83 | delivers on chat that does not start with "!tell" and on a join that is not banned |
| HubLive.LiveIsLatest | src/hub/socket.rs:269-329 | after every sequence of messages the map holds the last word on each nick and the operator list that of the latest full list |
| HubLive.AlwaysCoherent | src/hub/socket.rs:502-555 | in every reachable state keys are the stored nicks and flagged operators are listed |
| HubLive.AgreementAfterList | src/hub/socket.rs:509-549 | after a full list the two sets are equal exactly when no operator entry is overridden |
| HubLive.OverriddenOperator | src/hub/socket.rs:509-549 | a list repeating an operator's nick as an ordinary user leaves it in the operator list without the flag |
| HubLive.AgreementWithoutDuplicates | src/hub/socket.rs:509-549 | in particular after a duplicate-free list |
| HubLive.AgreementStep | src/hub/socket.rs:308-319 | between lists equality survives exactly the messages that are not about a listed operator |
| HubLive.AgreementIff | src/hub/socket.rs:269-549 | over every sequence of messages listed operators are exactly the flagged ones if and only if each named operator's last entry in the latest list says so and it has sent no info and not left since |
| HubLive.RecipientIff | src/opchat.rs:57-72 | after every run the operator relay reaches exactly the operators by their last entry in the latest list who have sent no info and not left since, except sender and relay |
| HubLive.StrictOrderIsUnique | src/api/users.rs:74 | a strictly sorted listing is determined by its members, whatever order they were collected in |
| HubLive.LessIsLexicographic | src/api/users.rs:74 | the order on nicks is lexicographic and ascending |
| HubLive.PagesPartition | src/api/users.rs:76-79 | pages at 0, L, 2L, ... concatenate to the sorted list of all users, each once |
| HubLive.PageSize | src/api/users.rs:76-79 | a limit outside 1 to 1000 is taken as the nearer bound and a negative offset as 0, so a page has that many users or all that are left |
| HubLive.HubState.OnMyInfo | src/hub/socket.rs:285-329 | stores the user without the operator flag |
| HubLive.HubState.OnUserQuit | src/hub/socket.rs:269-283 | removes the user and leaves the operator list |
| HubLive.HubState.OnUserList | src/hub/socket.rs:502-549 | the list loop computes the fold the theorems are about |
| HubLive.HubState.RelayPm | src/opchat.rs:42-73 | one copy to each online flagged operator other than sender and relay, to nobody else, all of them listed operators |
| HubLive.HubState.ListUsers | src/api/users.rs:37-87 | the page is the clamped slice of the one strictly sorted listing, which exists, and the total is the number of users |
| HubLive.HubState.Collect | src/api/users.rs:41-72 | the values of the map, each once, in whatever order |
| HubLive.HubState.SortByNick | src/api/users.rs:74 | sorts by nick and permutes |
| WsLimit.BoundedOvershoot | src/api/websocket.rs:75-100 | with at most w handlers between check and increment counter plus window is at most 99 + w, and the counter is the number of live connections plus those whose upgrade failed |
| WsLimit.FailedUpgradesLockOut | src/api/websocket.rs:95-100 | a hundred failed upgrades are never given back: such a state is reachable with no connection open, and no run from it accepts one |
| WsLimit.LimitKeptIffNoOverlap | src/api/websocket.rs:15-90 | the bound is attained; every run keeps the limit exactly when w is 1 |
| SocketQueue.StuckIffDoomed | src/hub/socket.rs:131-150 | the loop never gets past its current frame, whatever happens, exactly if the frame queues a command and the queue is full, or it waits for a lock whose holders have more to send than there is room |
| SocketQueue.IdleLoopDrains | src/hub/socket.rs:159-163 | while it waits for its next event the loop can empty the queue, whatever locks are held |
| SocketQueue.MassMessageStopsLoop | src/bot/commands/mod.rs:744-755 | a mass message to one user more than the queue holds and one frame about users stop the loop for good, though nobody else sends and no frame queues a command |
| SocketQueue.ReaddStopsLoop | src/main.rs:330-346 | so do a re-adding of one bot more than the queue holds, a waiting writer of the registry and one nick frame |
| SocketQueue.ReadBlocksIff | src/hub/socket.rs:129-150 | handling a read can stop the loop for good exactly when, for some frame, everything queued, to be sent by lock holders and others, and queued by earlier frames leaves no room for its command, or exceeds the capacity while the frame writes the user map and part of it is sent under that map's lock, taken during the read or held since before with no earlier writing frame |
| SocketQueue.LoopBlocksIff | src/hub/socket.rs:113-166 | over whole runs, with or without other senders, the loop can stop for good exactly when some frame may queue a command, or some frame may write the user map and a mass or operator message may have a recipient |

## Left out

- Sockets, HTTP routing, authentication, SSE and WebSocket transport, startup and shutdown: I/O.
- JSON parsing and printing: messages start as decoded records, and a frame that is not JSON is not distinguished.
- f64 rounding in the limiter, and the internals of tokio channels: the bus is a log with a cursor per receiver, and a queue a sequence, bounded where its capacity matters (`BotMirror`, `SocketQueue`).
- Looking up first-seen dates and permissions for the user listing, and the password checks of the registration endpoints.
- Splitting a chat command's arguments into target, duration and reason, and the textual replies to the caller.
- Commands other than ban, unban, kick, gag and ungag; watches, sessions, chat history, statistics, webhooks, settings and key-value storage.
- `close_orphaned_sessions`: it names a column the schema does not have (src/db/queries.rs:546), so it is not modelled as closing sessions.
- Chat published by the HTTP endpoints (`bot_chat`, `send_message`): it does not pass the gag gate.
- Private messages to bots: a subscriber is served by two loops, and only the forwarder is modelled.
- A virtual user of the gateway's own operator chat with the same nick as a registered bot.
- The check of a nick's gag and the publication of its message are one step; a gag inserted by another handler between them is not modelled.
- Moderation.PermissionsUnchanged: `topic`, `massmessage`, `say` and the other built-ins are not among its events; none of them writes the users table.
- Tells.ConservedInOrder: the endpoint that marks a tell delivered without sending it is not among the steps.
- ModTable.PurgeInvisible: rows that share a creation time are ordered by insertion, which SQL does not promise.
