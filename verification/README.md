# Verified model of better-telegram-mcp

A Dafny model of the stateful parts of the server, with proofs about whole runs: how inline-button presses are
delivered, how the session file and its locks are shared between processes, how pending sign-ins and sessions are
kept, and the algorithms beside them (spelling suggestions, peer resolution, folders, clock correction).

`dafny verify dfyconfig.toml` checks everything.

| file | what it models |
|---|---|
| Delivery.dfy, DeliverySafety.dfy | polling mode as interleaved, crashable steps; no replay, no silent loss, peeks |
| CallbackQueue.dfy | queue mode: exactly once, in order |
| BotBackend.dfy | the backend object, proved to perform those steps |
| Callbacks.dfy | the `callbacks` tool action and the cursor it hands back |
| ResumeLog.dfy, ChatRendering.dfy | the resume map as a trimmed append log, and how its chat ids compare |
| Matcher.dfy | difflib's ratio: two-row table, recursion, best candidate |
| Flock.dfy, SessionFile.dfy, SessionStorage.dfy | the session file as an atomic register under a file lock |
| SessionLock.dfy | the connection lock across processes, Connect and Disconnect |
| OrderedDict.dfy, SessionStores.dfy | the KV session store against the in-memory one, with deaths between writes |
| PendingOtp.dfy, AuthProvider.dfy, SignInHistory.dfy | pending codes in KV and in memory, the cleanup that stops early, and what becomes of a code |
| LoginFlow.dfy | the single-user sign-in flow between awaits |
| Peers.dfy, Folders.dfy, Clock.dfy | peer ids, cache and sweep; folders; clock offset |

Outside behaviour enters as parameters: Telegram's answers, file and network faults, the clock, and what other
processes do. Telegram's `getUpdates` is modelled by its documented contract (Bot API, method `getUpdates`): a call
with offset o forgets every id below o and answers with an ascending prefix of what is left; a negative offset keeps
that many of the newest. `rename` is atomic as in IEEE Std 1003.1-2017, System Interfaces, `rename()`.

Where a promise does not hold on every input, the model keeps the code's behaviour and proves exactly when it holds:

- a press can be handed out twice after a crash exactly when it is still pending at Telegram and not below the cursor
  the new process finds: the filed one, or none when the file cannot be read (`ReplayIffUnprotected`); right after a
  read, with a file that reads back, that is exactly when neither the cursor write nor the confirming call succeeded
  (`ReturnIsDurable`, `ReplayedPress`);
- a process that dies in the middle of a read leaves a press it held to be received exactly when neither the cursor
  file had been written for the batch nor the confirming call had dropped it, and the file did not cover the press from
  before, as it can when it could not be read (`CrashLosesExactly`, `PressLostInDeath`); where it reads back that is
  all of the batch or none (`CrashLosesAllOrNothing`);
- a since_id makes Telegram drop exactly the presses at or below it that are pending, were handed to nobody and are not
  below the backend's own cursor, so the cursor returned by a *peek* must not be fed back, although the tool's result
  says to (`SinceSkipsIffFresh`, `PeekFedBack`); in queue mode a consuming read passes over exactly the unread
  entries at or below its since_id, if it finds anything behind them (`QueueSinceSkipsIff`);
- the writer of the queue file, which cuts it back to its newest 200 lines once it has more than 500, loses presses
  exactly when the reader then still has an unread one among the lines that go (`CutLosesIff`);
- a registration in the resume log that reports success is lost exactly when an earlier write left the file without a
  final newline, or when the rewrite that trims the log is cut short before it has written the new line
  (`RegisteredIsFoundIff`); an older session then comes back exactly when one of the key's older lines survived
  (`StaleReturnsIff`, `TornAnswersOld`); and one made under a numeric chat id is found only when the id has at most
  six digits, because `fmt.Sprint` renders the JSON-decoded float in exponent form (`RegisteredMatchesIff`);
- cleanup's early exit equals a full scan exactly when no fresh entry stands before a stale one; a KV restore and
  two overlapping registrations of one user are the two ways to get there (`EarlyExitIff`, `StepKeepsOrderIff`,
  `ResumeHidesStale`, `OverlapHidesStale`);
- an evicted code comes back exactly when a restore completes whose user was evicted while it was connecting, or when
  cleanup evicts an entry that a slow restore had put over a newer one (`EvictedResumesIff`, `SlowRestoreRevives`);
- a revoked pending sign-in can be completed again exactly when the revocation left a fresh copy in KV, or a restore of
  it completes, however stale its code is by then (`RevokedResumesIff`, `RestoreOutlivesRevocation`);
- an accepted sign-in is not stored exactly when no entry of the user stands any more, because dropping it raises an
  error, and it throws a newer registration away exactly when the entry that stands is not its own
  (`AcceptedSignInIff`);
- with user-mode forms only, the server is CONFIGURED without anybody having signed in exactly when its state is resolved
  before the first accepted sign-in, by a restart or by `setup_complete`, while the environment or a readable saved form
  names credentials (`ConfiguredUnsignedIff`, `ConfiguredWithoutSignIn`);
- a handler that clears the sign-in state clears another attempt's exactly when the form was submitted again while it
  waited and nothing has cleared that since, after an accepted sign-in as after a refused one (`DiscardsAnotherIff`);
- an MTProto client runs without the lock exactly when the lock is given back while its goroutine is alive
  (`UnlockedClientIff`, `TimedOutClient`);
- an import that found no session replaces one exactly when the last rename since published one that is not empty, as
  two imports that overlap can (`ImportReplacesIff`, `ImportsCanOverwrite`).

The comment on `sweepPeers` says that a zero id sweeps only the cheap sources; the code walks both chat lists for it
too, and the model follows the code.

## Model

| member | source | states |
|---|---|---|
| Delivery.StepKeepsInv | internal/telegram/bot.go:412-464 | every step of the polling protocol keeps: no pending press is below a delivered one unless delivered itself, and every press out of reach is delivered, in hand, lost with a dying process or skipped by a since_id |
| DeliverySafety.EveryPressAccounted | internal/telegram/bot.go:412-464 | over every run with fed-back or absent since_ids, a press that is forgotten or below a cursor was handed out, is in the batch in progress, or died with a process that held it, beyond a restarted reader; without a crash the last is impossible |
| DeliverySafety.CrashLosesExactly | internal/telegram/bot.go:642-680 | at any point of any run, with any faults, a crash leaves a held press receivable if and only if neither the file was written for its batch nor the confirm dropped it, and the file does not cover it from before |
| DeliverySafety.CrashLosesAllOrNothing | internal/telegram/bot.go:642-655 | over every run whose cursor file reads back that is one answer for the whole batch: a crash loses all of it or none |
| DeliverySafety.LostIsNeverReceived | internal/telegram/bot.go:657-680 | over those runs what is recorded as lost was never handed out and can no longer be received |
| DeliverySafety.ReceivableIsReceived | internal/telegram/bot.go:412-464 | and what is receivable is received: a restarted process has a run of plain reads that hands it out |
| DeliverySafety.SkippedIsNeverReceived | internal/telegram/bot.go:420-429 | a press that a since_id made Telegram drop is never returned by any later read |
| DeliverySafety.FedBackSkipsNothing | internal/telegram/bot.go:420-429 | a since_id taken from a delivered press makes Telegram drop no unreceived one |
| DeliverySafety.NeverReplays | internal/telegram/bot.go:405-411 | over every run whose crashes, and unreadable cursor files, find handed-out presses protected by the cursor that remains, consuming reads hand out strictly increasing ids |
| DeliverySafety.SecuredRunNeverReplays | internal/telegram/bot.go:642-653 | if the cursor file reads back and every read that returned presses wrote its cursor or had it confirmed, no id is ever handed out twice, wherever the process crashes |
| DeliverySafety.ReturnIsDurable | internal/telegram/bot.go:682-703 | after a batch is returned a crash is harmless if and only if the write persisted, the confirm arrived, or the batch held no press |
| DeliverySafety.ReplayIffUnprotected | internal/telegram/bot.go:657-680 | at any point of any run, a restart and one read repeat a press if and only if one that was handed out is pending and not below the cursor the restart finds, which is none for an unreadable file |
| DeliverySafety.PeekTakesNothing | internal/telegram/bot.go:457-461 | a peek without since_id hands out and skips nothing and leaves exactly the same presses to be received |
| DeliverySafety.PeekChangesNoRead | internal/telegram/bot.go:435-440 | any later read gets from Telegram what it would have got without the peek |
| DeliverySafety.SinceSkipsIffFresh | internal/telegram/bot.go:420-429 | a read with since_id makes Telegram drop exactly the presses at or below it that are pending, handed to nobody and not below the cursor in force |
| DeliverySafety.NegativeSinceSkips | internal/telegram/bot.go:420-440 | the same for ids below -1, which Telegram reads as "keep the newest", exactly when no cursor is in force |
| CallbackQueue.QueueDeliversExactlyConsumed | internal/telegram/bot.go:470-512 | over every run with an orderly writer and a working cursor file, what is handed out is exactly the presses of the consumed part of everything queued, in order, less those a process died holding and those the writer cut away unread |
| CallbackQueue.ReadExtendsConsumed | internal/telegram/bot.go:486-510 | a read takes the entries right after the consumed ones, but for what was cut away, and its cursor moves exactly past them |
| CallbackQueue.CursorGrows | internal/telegram/bot.go:507-510 | the cursor strictly grows on a non-empty consuming read; a peek changes nothing |
| CallbackQueue.SortedSorts | internal/telegram/bot.go:499-503 | whatever the writer did, the batch is drawn from a sorted rearrangement of the eligible lines |
| CallbackQueue.QueueBatchIsOldest | internal/telegram/bot.go:485-506 | whatever the writer and the caller did, a batch holds usable lines at or above the offset, at most the limit, and leaves one out only when it is full of older ones |
| CallbackQueue.RestartRepeatsIffUncovered | internal/telegram/bot.go:657-703 | over every run with an orderly writer, whatever cursor writes fail and whatever cursors callers pass, a restart can repeat a press if and only if one that was handed out is still in the file and not below the cursor it finds, which is none for an unreadable file |
| CallbackQueue.OrderlyNeverRepeats | internal/telegram/bot.go:470-512 | with a working cursor file everything handed out lies below the filed cursor |
| CallbackQueue.CutLosesIff | contrib/tg-relay/relay.sh:37 | over every run the writer's cutting of the file loses presses if and only if once an unread one is among the lines it removes, and those are never handed out |
| CallbackQueue.QueueSinceSkipsIff | internal/telegram/bot.go:420-433 | a consuming read of the queue steps over exactly the unread entries at or below its since_id |
| BotBackend.Backend.GetCallbackQueries | internal/telegram/bot.go:412-464 | the method's result, cursor, file and effect on Telegram's queue are those of the protocol, in both modes and for every fault |
| BotBackend.Backend.ReadQueue | internal/telegram/bot.go:470-512 | missing, unreadable and malformed input, the limit, and the cursor moved only by a non-empty consuming read |
| BotBackend.Backend.ConfirmUpdates | internal/telegram/bot.go:645-655 | the cursor is set and filed first, then Telegram drops the batch if the call arrives |
| BotBackend.Backend.StoreCursor | internal/telegram/bot.go:682-703 | memory always, file only when there is a path and the write works |
| BotBackend.Backend.LoadCursorFile | internal/telegram/bot.go:657-680 | once per process; an unreadable file leaves no cursor |
| BotBackend.OnlyCallbacks | internal/telegram/bot.go:971-979 | keeps the presses in order |
| BotBackend.PollIsARun | internal/telegram/bot.go:412-464 | every polling call is a run of the protocol to the same state, returning what that run delivers |
| BotBackend.PollAnswers | internal/telegram/bot.go:412-464 | every polling call, peek or not, succeeds exactly when the answer can be read, with the presses among the first updates left after the request: as many as answered, at most the limit, which counts as 1 to 100 |
| BotBackend.PeekAnswersAsRead | internal/telegram/bot.go:405-411 | a peek answers what a consuming call in its place would answer, in both modes |
| BotBackend.DrainIsAStep | internal/telegram/bot.go:431-433 | every call over the queue file is one step of the queue reader with the same result |
| BotBackend.DrainAnswers | internal/telegram/bot.go:470-512 | and its answer, peek or not: nothing for a missing file, an error for an unreadable one, and the presses of the batch otherwise |
| Callbacks.HandleCallbacks | internal/tools/messages.go:439-539 | refusals happen before the backend is asked, and otherwise it is asked once, consuming unless this is a peek; in the fields a caller sees: exactly the well-formed presses of the watched message from allowed senders with a whole match are accepted, each other one gets the reason of its own defect, and every accepted one that is due is acknowledged; the cursor covers everything read |
| Callbacks.RejectedFor | internal/tools/messages.go:541-560 | acceptance and each reason, as conditions on the fields |
| Callbacks.Partition | internal/tools/messages.go:474-521 | every press is in exactly one of accepted, ignored and skipped |
| Callbacks.OnlyKeepsOrder | internal/tools/messages.go:474-521 | each group keeps the order in which the presses were read |
| Callbacks.AnswersOnlyDue | internal/tools/messages.go:500-511 | a peek acknowledges nothing, and a press already answered is never acknowledged again |
| Callbacks.CursorIsFromRead | internal/tools/messages.go:472-481 | the cursor is the one passed in or a read press's id, and at least as large as all of them |
| Callbacks.ChainSkipsNothing | internal/tools/messages.go:534-537 | along any chain of calls that feed back the cursor computed from the presses of each consuming read, no unreceived press is dropped, whatever arrives, fails or crashes |
| ResumeLog.LogHoldsNewest500 | internal/telegram/bot.go:559-572 | after any registrations whose writes are whole, with failed appends and skipped trims among them, the log is the newest lines written, at least 500 if there are as many, and at most 500 once trimmed |
| ResumeLog.NewestWinsWhileKept | internal/telegram/bot.go:574-610 | over those runs a lookup answers with a key's latest session while fewer than 500 registrations followed it, and with it or nothing afterwards, never with an older one |
| ResumeLog.TrimKeepsSurvivors | internal/telegram/bot.go:564-571 | trimming does not change the answer for a surviving key |
| ResumeLog.TornSwallows | internal/telegram/bot.go:542-549 | a registration appended to a log without a final newline has no effect although it reports success, whatever becomes of the trim |
| ResumeLog.FailedAnswer | internal/telegram/bot.go:545-556 | what every lookup answers after a registration that reported an error |
| ResumeLog.ValidSessionIff | internal/telegram/bot.go:46 | exactly "session_" or "cse_" followed by 10 to 48 letters or digits |
| ResumeLog.SessionIdIsFound | internal/telegram/bot.go:525-610 | every such id, registered, is the next lookup's answer |
| ResumeLog.RegisteredIsFoundIff | internal/telegram/bot.go:525-572 | a new session whose registration reported success is found by the next lookup if and only if the log ended in a newline and the trim's rewrite, if cut short, got as far as the new line |
| ResumeLog.RegisteredAnswer | internal/telegram/bot.go:525-610 | after any successful registration, in any state and for any fate of the trim, the answer for every key: the new session if its line landed, else what the surviving older lines say |
| ResumeLog.StaleReturnsIff | internal/telegram/bot.go:559-572 | an older session comes back if and only if the new line was lost and an older line of the key was not |
| ResumeLog.ResumeMap.RecordResumeSession | internal/telegram/bot.go:525-557 | the four results and the new log for every write outcome |
| ResumeLog.ResumeMap.LookupResumeSession | internal/telegram/bot.go:576-611 | the loop returns the newest valid match |
| ChatRendering.RegisteredMatchesIff | internal/telegram/bot.go:599 | a registered chat id matches a looked-up integer if and only if it is that integer's decimal text, or the same number below seven digits |
| Matcher.BestIsBest | internal/tools/result.go:110-125 | the table finds a common substring of maximal length, earliest in a and then in b |
| Matcher.BestIsUnique | internal/tools/result.go:110-125 | that description determines it |
| Matcher.LongestBlock | internal/tools/result.go:110-125 | the two-row loops compute it |
| Matcher.MatchingRunes | internal/tools/result.go:106-132 | the recursion counts what is matched left of, in and right of the best block, and terminates |
| Matcher.MatchedText | internal/tools/result.go:103-132 | the count is the length of a common subsequence of both texts |
| Matcher.MatchedBlocks | internal/tools/result.go:106-132 | the count adds up the lengths of common blocks, one behind the other in both texts, with no shared character in any gap between them, each the best of the segment it split |
| Matcher.MatchCountIff | internal/tools/result.go:106-132 | and there is only one such list: the count is n if and only if that list adds up to n |
| Matcher.TypoIsCaught | internal/tools/result.go:91-101 | two letters exchanged still score 0.75 |
| Matcher.MatchedBetween | internal/tools/result.go:103-132 | the count lies between every common substring's length and the longest common subsequence's |
| Matcher.LcsBounds | internal/tools/result.go:103-132 | the textbook recurrence bounds every common subsequence |
| Matcher.LcsAttained | internal/tools/result.go:103-132 | and one attains it |
| Matcher.NothingMatchedIff | internal/tools/result.go:103-132 | nothing is matched exactly when the texts share no character |
| Matcher.SimilarityRange | internal/tools/result.go:94-101 | the score is in [0, 1] and 1 exactly for equal texts |
| Matcher.SimilarityIsShare | internal/tools/result.go:94-101 | it is the share of both texts' characters that is matched |
| Matcher.ClosestMatch | internal/tools/result.go:73-87 | the first candidate of maximal similarity, in lower case, when some is at least 0.6, and "" when none is |
| Flock.LockKeepsExclusion | internal/telegram/sessionlock_unix.go:104-121 | granting and releasing keep an exclusive holder alone |
| SessionFile.StepKeepsInv | internal/telegram/sessionfile.go:77-113 | every step of any client, a killed process and a power failure keep: published inodes are whole and flushed, and lock modes match what each client is doing |
| SessionFile.EveryLoadReadsTheRegister | internal/telegram/sessionfile.go:45-75 | over every interleaving, a completed load answers with exactly the bytes of the latest rename if there are any, and "not found" exactly for an absent or empty file |
| SessionFile.StoreThenLoad | internal/telegram/sessionfile.go:45-113 | a store and then a load is a run that answers with exactly the stored bytes |
| SessionFile.StoresAreAlone | internal/telegram/sessionlock_unix.go:104-121 | while one client is storing no other is loading or storing |
| SessionFile.RegisterIsLastRename | internal/telegram/sessionfile.go:86-112 | over every run without a power failure the register is what the last completed rename published; no other step and no failed call changes it |
| SessionFile.ImportAlone | internal/telegram/telethon.go:29-58 | undisturbed, an import seeds an absent session and leaves any other alone |
| SessionFile.ImportsCanOverwrite | internal/telegram/telethon.go:39-56 | two overlapping imports can both find nothing, and the later replaces what the earlier wrote |
| SessionFile.ImportReplacesIff | internal/telegram/telethon.go:39-56 | an import that found nothing replaces a session if and only if the last rename between its load and its own rename published one that is not empty |
| SessionStorage.Storage.StoreSession | internal/telegram/sessionfile.go:77-113 | all or nothing for every failing call, with no temporary file left |
| SessionStorage.Storage.LoadSession | internal/telegram/sessionfile.go:45-75 | the file's bytes, whole, if there are any, and otherwise the right error |
| SessionStorage.StoreAndLoad | internal/telegram/sessionfile.go:45-113 | what one storage has written another reads, byte for byte |
| SessionStorage.StoreCallIsARun | internal/telegram/sessionfile.go:77-113 | for every fault a StoreSession call is a run of the shared file's steps that leaves the file as the method does |
| SessionStorage.LoadCallIsARun | internal/telegram/sessionfile.go:45-75 | and so is a LoadSession call |
| SessionLock.StepKeepsInv | internal/telegram/user.go:138-252 | a process holds the lock exactly while connecting or connected, and an exclusive holder is alone |
| SessionLock.OnlySharersOverlap | internal/telegram/sessionlock_unix.go:38-83 | over every run of any number of processes, two are connected at once only if both share |
| SessionLock.RefusedIff | internal/telegram/sessionlock_unix.go:45-60 | over every run an attempt is refused if and only if some process is connecting or connected and the two do not both share |
| SessionLock.UnlockedClientIff | internal/telegram/user.go:203-252 | over every run a client runs without the lock at some point if and only if some process gives the lock back with a goroutine alive |
| SessionLock.UserBackend.Connect | internal/telegram/user.go:138-234 | succeeds if and only if it was started, or prepared with the lock free and a client that gets ready; each error exactly for its own cause; started exactly when the lock is held; a failure leaves the lock table as it was |
| SessionLock.UserBackend.Disconnect | internal/telegram/user.go:236-252 | gives the lock back and is idempotent |
| SessionLock.ConnectCallIsARun | internal/telegram/user.go:138-234 | for every outcome a Connect call is a run of the lock machine with the same result and lock table |
| SessionLock.DisconnectCallIsARun | internal/telegram/user.go:236-252 | and so is a Disconnect call |
| SessionStores.KvRefinesMemory | src/better_telegram_mcp/auth/kv_session_store.py:75-123 | on every operation sequence the KV store answers as the in-memory store does, listing order included |
| SessionStores.KvTellsHistory | src/better_telegram_mcp/auth/kv_session_store.py:75-123 | after any operations each user loads what was stored last and not deleted since, and the listing holds exactly those, in the order in which they were first stored |
| SessionStores.OpAgrees | src/better_telegram_mcp/auth/in_memory_session_store.py:50-81 | each operation gives the same answer and keeps the two in agreement |
| SessionStores.CrashesNeverDangle | src/better_telegram_mcp/auth/kv_session_store.py:75-123 | over every history of operations and deaths between writes, the index names only users whose blob exists, once each |
| SessionStores.CrashIsAllOrNothing | src/better_telegram_mcp/auth/kv_session_store.py:91-108 | after a death the listing is the one before the operation or the one after it |
| SessionStores.OrphanIffBetweenWrites | src/better_telegram_mcp/auth/kv_session_store.py:75-123 | load finds what the listing omits exactly when the death fell between an operation's two writes |
| SessionStores.RetryCompletes | src/better_telegram_mcp/auth/kv_session_store.py:75-123 | repeating an interrupted operation completes it |
| SessionStores.KvSessionStore.StoreSession | src/better_telegram_mcp/auth/kv_session_store.py:75-82 | performs the two writes of the model |
| SessionStores.KvSessionStore.LoadAllSessions | src/better_telegram_mcp/auth/kv_session_store.py:91-108 | lists the indexed users that have a blob, in index order |
| SessionStores.KvSessionStore.DeleteSession | src/better_telegram_mcp/auth/kv_session_store.py:114-123 | reports whether the blob existed; index first, blob second |
| PendingOtp.RunKeepsIndexed | src/better_telegram_mcp/auth/pending_otp_store.py:81-191 | after any run the index names exactly the users with a non-empty blob, without duplicates |
| PendingOtp.CleanedFinds | src/better_telegram_mcp/auth/pending_otp_store.py:145-191 | cleanup removes exactly the expired entries of every user |
| PendingOtp.PendingOtpStore.CleanupExpired | src/better_telegram_mcp/auth/pending_otp_store.py:145-191 | and returns their number |
| PendingOtp.CleanupIsInvisible | src/better_telegram_mcp/auth/pending_otp_store.py:103-124 | no later load, whatever happens in between, can tell whether a cleanup ran |
| PendingOtp.PendingOtpStore.LoadPendingOtp | src/better_telegram_mcp/auth/pending_otp_store.py:103-124 | finds a fresh entry; purges a stale one, its blob and its index entry |
| PendingOtp.PendingOtpStore.SavePendingOtp | src/better_telegram_mcp/auth/pending_otp_store.py:81-101 | adds the entry and indexes the user once |
| PendingOtp.PendingOtpStore.DeletePendingOtp | src/better_telegram_mcp/auth/pending_otp_store.py:126-143 | reports whether it existed; an emptied user is unindexed |
| PendingOtp.OperationsLeave | src/better_telegram_mcp/auth/pending_otp_store.py:81-143 | what a load, a save and a delete leave for every other look-up, with the index right |
| AuthProvider.EvictedNeverResumes | src/better_telegram_mcp/auth/telegram_auth_provider.py:337-367 | over every run whose restores are undisturbed, a user whose code cleanup evicted finds nothing to complete until a new code is requested |
| AuthProvider.EvictedResumesIff | src/better_telegram_mcp/auth/telegram_auth_provider.py:342-367 | over every run, with the restore split at its await, an evicted code comes back if and only if a restore completes after the eviction of its user, or cleanup evicts an entry whose KV copy is another, fresh one |
| AuthProvider.SlowRestoreRevives | src/better_telegram_mcp/auth/telegram_auth_provider.py:349-360 | of two overlapping restores of one code the slower one brings it back after its eviction |
| SignInHistory.RevokedResumesIff | src/better_telegram_mcp/auth/telegram_auth_provider.py:337-420 | over every run after a revocation without a new request, there is something to complete at some point if and only if KV was left with a fresh copy or a restore of the user completes |
| SignInHistory.RevokedUntouched | src/better_telegram_mcp/auth/telegram_auth_provider.py:397-420 | and while nothing is done for the user, at each later point exactly while that copy is fresh |
| SignInHistory.AcceptedSignInIff | src/better_telegram_mcp/auth/telegram_auth_provider.py:372-394 | over every run from the start of a sign-in, an accepted one is stored if and only if some entry of the user still stands, and throws another registration away, in memory and KV, if and only if that entry is not its own |
| SignInHistory.SessionsWereAskedFor | src/better_telegram_mcp/auth/telegram_auth_provider.py:317-395 | over every run, through KV, restores and restarts, each stored session was signed in with a code that its user asked for |
| AuthProvider.EarlyExitIff | src/better_telegram_mcp/auth/telegram_auth_provider.py:446-455 | popping until the first fresh entry equals a full scan if and only if no fresh entry stands before a stale one |
| AuthProvider.StepKeepsOrderIff | src/better_telegram_mcp/auth/telegram_auth_provider.py:257-271 | a step keeps insertion order chronological if and only if the entry it writes fits where the dictionary puts it |
| AuthProvider.EarlyExitRefinesFullScan | src/better_telegram_mcp/auth/telegram_auth_provider.py:442-455 | over every run of such steps cleanup removes exactly the entries older than 300 seconds |
| AuthProvider.SeparateRegistrationsCleanUp | src/better_telegram_mcp/auth/telegram_auth_provider.py:257-271 | in particular over every run without completed restores in which each registration of a user follows a pop of the previous one |
| AuthProvider.ResumeHidesStale | src/better_telegram_mcp/auth/telegram_auth_provider.py:349-358 | a KV restore puts an old entry behind a younger one, and cleanup never reaches it |
| AuthProvider.OverlapHidesStale | src/better_telegram_mcp/auth/telegram_auth_provider.py:260-271 | two overlapping registrations of one user have the same effect |
| AuthProvider.TelegramAuthProvider.CleanupPending | src/better_telegram_mcp/auth/telegram_auth_provider.py:442-455 | the loop, its count, and its agreement with a full scan in chronological order |
| AuthProvider.TelegramAuthProvider.CompleteUserAuth | src/better_telegram_mcp/auth/telegram_auth_provider.py:317-395 | a failed sign-in keeps the pending entry, a successful one drops it from memory and KV |
| AuthProvider.TelegramAuthProvider.RegisterPendingOtp | src/better_telegram_mcp/auth/telegram_auth_provider.py:248-286 | pops and re-inserts, with the same creation time in memory and KV |
| SignInHistory.RegisteredIsResumed | src/better_telegram_mcp/auth/telegram_auth_provider.py:248-367 | the next completion finds what was registered, field by field, also after a restart for 300 seconds and not longer |
| LoginFlow.CodeBelongsToBackend | src/better_telegram_mcp/credential_state.py:479-495 | over every interleaving, a remembered code implies a live step backend, the one it was submitted to |
| LoginFlow.PasswordUsesOwnCode | src/better_telegram_mcp/credential_state.py:519-529 | a password is only tried with a code submitted to the same backend |
| LoginFlow.RefusalClears | src/better_telegram_mcp/credential_state.py:496-517 | once a refused handler has ended, and until a phone number is submitted again, no step backend and no code exist at any point of any run, and code and password forms find none |
| LoginFlow.DiscardsAnotherIff | src/better_telegram_mcp/credential_state.py:503-567 | over every run from the submission of a code or password, the end of its handler, refused or accepted, clears another attempt's state if and only if the form was submitted again meanwhile and nothing has cleared that since |
| LoginFlow.StrandedSetup | src/better_telegram_mcp/credential_state.py:547-560 | which can leave SETUP_IN_PROGRESS with a code on its way and no backend that could take it |
| LoginFlow.ConfiguredMeansSignedIn | src/better_telegram_mcp/credential_state.py:547-567 | in runs of user-mode forms in which the state is not resolved again CONFIGURED is reached only after a successful sign_in |
| LoginFlow.ConfiguredUnsignedIff | src/better_telegram_mcp/credential_state.py:190-235 | over every run of user-mode forms, resets, restarts and setup_complete calls, CONFIGURED is reached without a sign-in if and only if the state is resolved before the first accepted sign-in while the environment, or a readable form submitted and not deleted since, names credentials |
| LoginFlow.ConfiguredWithoutSignIn | src/better_telegram_mcp/server.py:600-613 | a form, then a restart or setup_complete: CONFIGURED without any sign-in, since the form is saved before its code is checked |
| LoginFlow.OtpCallIsARun | src/better_telegram_mcp/credential_state.py:479-517 | an uninterrupted code form is the named run for its outcome: an accepted one configures and counts a sign-in, any other leaves the state alone |
| LoginFlow.PasswordCallIsARun | src/better_telegram_mcp/credential_state.py:519-542 | and so is an uninterrupted password form |
| LoginFlow.CredentialState.SubmitOtpCode | src/better_telegram_mcp/credential_state.py:479-517 | the module variables after a code form, for each outcome of sign_in |
| LoginFlow.CredentialState.SubmitStepPassword | src/better_telegram_mcp/credential_state.py:519-542 | the same for a password form |
| LoginFlow.CredentialState.ResolveCredentialState | src/better_telegram_mcp/credential_state.py:190-235 | the state after resolving, and nothing else changes |
| LoginFlow.CredentialState.ResetState | src/better_telegram_mcp/credential_state.py:382-396 | back to the start, whatever becomes of the saved form |
| LoginFlow.ShortStepsAgree | src/better_telegram_mcp/credential_state.py:190-235 | resets and resolutions in the interleaved model leave the variables as these methods do |
| LoginFlow.CredentialState.SaveCredentials | src/better_telegram_mcp/credential_state.py:314-352 | the same for the credential form |
| Peers.RoundTripIff | internal/telegram/user_folders.go:271-282 | a peer's id decodes back to it if and only if it is in its kind's range |
| Peers.RefSpelling | internal/telegram/serialize.go:94-105 | the numbers the Bot API uses |
| Peers.DecodedIsEncoded | internal/telegram/user.go:478-501 | whatever peer an id decodes to has that id as its reference |
| Peers.ReferencesDoNotCollide | internal/telegram/serialize.go:94-105 | in range, equal references mean the same kind and id |
| Peers.SweepFindsIffCovered | internal/telegram/peercache.go:114-149 | after a sweep an id is known if and only if it was, or a peer in the folders, the contacts or the first 1000 entries of either list has it |
| Peers.CoveredIff | internal/telegram/peercache.go:114-195 | what a sweep covers, source by source: pinned, included and excluded chats, contacts that carry a hash, the first 1000 entries of each list |
| Peers.PeerCache.SweepDialogs | internal/telegram/peercache.go:176-195 | at most 1000 entries, stopping as soon as the id is known |
| Peers.PeerCache.SweepPeers | internal/telegram/peercache.go:114-149 | at most every 15 seconds; sources in order, stopping early only when the id is found |
| Peers.PeerCache.SweepContacts | internal/telegram/peercache.go:153-171 | indexes the contacts that carry a usable hash |
| Peers.PeerCache.RememberFilterPeers | internal/telegram/user_folders.go:218-228 | indexes every peer the folders name |
| Peers.PeerCache.ResolveNumeric | internal/telegram/user.go:456-476 | a result always has the id asked for, and there is one if and only if the manager, the index or a permitted sweep knows it |
| Folders.NextFolderID | internal/telegram/user_folders.go:245-256 | the least free id in 2..255; fails only when all 254 are taken |
| Folders.ReorderFolders | internal/telegram/user_folders.go:148-183 | the request without repeats, then the others; fails exactly on an empty or unknown id |
| Folders.ReorderIsPermutation | internal/telegram/user_folders.go:164-183 | what is sent is a permutation of the existing folders |
| Folders.DedupKeepsOrder | internal/telegram/user_folders.go:164-176 | the requested ids go in the order in which they are first named |
| Folders.OthersKeepOrder | internal/telegram/user_folders.go:178-182 | the folders left out keep their relative order |
| Folders.SetFolderChat | internal/telegram/user_folders.go:114-134 | adds or removes by reference, refusing a chat already in or not in the folder |
| Folders.WithoutRefMembers | internal/telegram/user_folders.go:114-134 | removing leaves exactly the chats with another reference |
| Folders.WithoutRefKeepsOrder | internal/telegram/user_folders.go:114-134 | in the order they had |
| Folders.RemoveUndoesAdd | internal/telegram/user_folders.go:114-134 | removing a chat undoes adding it |
| Clock.MeasurementError | internal/telegram/clock.go:75-105 | the measured offset is within half a second plus half the trip of the true one |
| Clock.ResidualSkew | internal/telegram/clock.go:56-70 | a correct host is never shifted, and what remains is always below 8 seconds |
| Clock.CorrectedWhenWrong | internal/telegram/clock.go:27-36 | 8 seconds or more is always corrected, less than 2 never |

## Left out

- SimilarityRange: scores are exact rationals; float64 rounding, which could tie two candidates of very long texts, is not modelled.
- SortedSorts: equal update ids in the queue keep their file order here; the library sort may order them either way.
- GetCallbackQueries: JSON decoding and the wording of API errors are left out; an answer that does not decode counts as a failed call that Telegram processed, and update ids are natural numbers.
- HandleCallbacks: regular expressions and the timestamps in an entry are parameters or left out.
- RegisteredMatchesIff: ids whose float64 rounding changes them (beyond 2^53) are compared as if exact; they do not match in either reading.
- RoundTripIff: ids are unbounded integers, so a channel id within 10^12 of the int64 limit does not wrap around.
- ConfiguredMeansSignedIn: the multi-user branch of the credential module is not modelled; its per-user state lives in the provider.
- EveryLoadReadsTheRegister: a power failure may undo the newest renames, since the directory is not flushed; the register is then the newest rename that survived.
- SweepContacts: the peer manager's own store is a parameter of the lookups; how it stores what it is given is not modelled.
- titleIndex and the serializers: display only.
- Foreign calls (Bot API methods other than getUpdates, MTProto requests, HTTP) and encryption of stored blobs.
- Keyboards, help, configuration, aliases, URL and path guards, deployment: branch-by-branch validation or I/O that would only add easy members.
- The Python twins of the Go bot code: same logic.
