# Mostrix: chat router, chat store, trade ledger and image headers, verified

A Dafny model of the parts of Mostrix whose correctness is hardest to see by reading: the subscription router for
shared-key chats, the transcripts and inner-id files on disk, the trade-key ledger and dispute rows, and the scanner
that reads image sizes from file headers. `dafny verify dfyconfig.toml` checks the whole project.

Code that changes state is written as classes with loops and fields, and each method is proved equal to a function of
the old state and its inputs; what the program promises is then proved of those functions, over every run. Whatever
the program does not decide is an input: which subscribes, fetches, appends and commits succeed, the clocks, the
relay's events, the iteration order of hash maps, the interleaving of tasks. Cryptography, display widths, JSON,
base64 and the calendar are records of functions (`Crypto`, `Widths`, `Codec`, `Format`) with the few laws they need.

| file | component |
|---|---|
| `ChatSecurity.dfy` | token bucket, outer-id window |
| `ChatUtils.dfy` | cursor clamping, unwrap, dual-read merge, history fetch |
| `ChatSubscriptions.dfy` | make-before-break rebuild of the live subscriptions |
| `ChatRouter.dfy` | the router task: commands, bookkeeping, hydration, live pipeline |
| `ChatRouterSteps.dfy` | what one command, live event, rebuild and backfill does, and what a run makes of it |
| `ChatLog.dfy`, `ChatRouterProofs.dfy`, `ChatHandoff.dfy` | what every run of the router keeps |
| `Text.dfy`, `ChatRender.dfy` | string functions, the greedy line wrapper |
| `Attachments.dfy`, `ChatStorage.dfy`, `ChatRoundTrip.dfy`, `ChatStorageProofs.dfy`, `ChatTranscripts.dfy` | transcripts on disk |
| `InnerIds.dfy` | the durable inner-id set and its cache |
| `Orders.dfy`, `TradeLedger.dfy`, `AdminDisputes.dfy` | order rows, trade indices, dispute rows |
| `FileValidation.dfy` | PNG and JPEG header scanner |

## What was found

Each of these is a lemma with a concrete input or an exact condition.

- A failed rebuild of the subscriptions leaves a newly tracked chat unheard, and tracking it again does not repair
  that: every further track is a no-op (`HeardIffSubscribed`, `RetrackRepairsNothing`).
- Rotation forgets the counter (`FirstIndexAfterRotation`). Re-installing a mnemonic under which some trade index was
  handed out lets a later reservation hand it out again; no other rotation does (`RotationIsSafeIff`).
- A reservation that a rotation overtakes is saved with a key of the old identity (`SaveKeepsRowsIff`).
- What is written to an order row between the two database calls of a DM upsert is undone by it: a last-seen update is
  lost (`InterleavedUpdateIsLost`), and a save gets the old trade keys and index back (`InterleavedSaveIsUndone`).
  Outside such schedules a row loses none of its own columns (`UpsertsDoNotInterfere`).
- A dispute settled between the two database calls of a re-take is reopened (`InterleavedRetakeReopens`); a finalized
  row stays finalized in every run exactly when no take that would reopen it is in flight (`FinalityIsAbsorbing`).
- A failed read of an inner-id file is cached as an empty set (`FailedReadRepeats`), and an append behind a file that
  does not end in a line break loses an id (`AppendAddsIdIff`).
- A message without words whose text, with the line break in front of it, ends in an odd number of line breaks hides
  the next one in a transcript. An empty text does, a single space does not (`WordlessHidesNextIff`, `AllComeBackIff`).
- Behind a file whose last part holds a line break or a header of its own, or spoils the sender's label, a message is
  saved twice (`SaveTwiceIsSaveOnceIff`); a message that hides the next leaves such a part (`RunLoadsWhatItHolds`).
- A word of zero display width at the start of a line is glued to the next one (`WordsSurviveIff`).
- The documentation of `upsert_from_small_order_dm` (src/models.rs:480-486) promises an insert for an unknown order. The
  code never inserts: a row built without an existing one has no trade index and is refused (`DmNeverInserts`).

## Model

| member | source | states |
|---|---|---|
| ChatRouterProofs.RunDeliversAtMostOnce | src/util/chat_listener.rs:643-736 | in any run of batches and live events, if one inner id is handed on twice for a chat, a batch with an untrack of that chat dropped it in between |
| ChatRouterProofs.RunNeverDeliversSeeds | src/util/chat_listener.rs:660-664 | no id of the durable set a chat was seeded with is handed on before the chat is untracked |
| ChatRouterProofs.DropNeedsUntrack | src/util/chat_listener.rs:665-668 | every drop in the log of a run was written by a batch that untracks that chat |
| ChatRouterProofs.RunKeepsInv | src/util/chat_listener.rs:477-566 | in every reachable state each target sits under its secret's public key, signs with the derived key, has a non-empty allow-list and an inner-id set; inner sets, limiters and window agree with the log |
| ChatRouterProofs.ReplayKeepsBooks | src/util/chat_listener.rs:651-669 | replaying outcomes after all commands were applied leaves every tracked chat with its inner-id set, in whatever order it was tracked and untracked within the batch |
| ChatRouterProofs.RunDeliversAllowedSenders | src/util/chat_utils.rs:328-375 | every message handed on in a run comes from a signer on its target's allow-list |
| ChatRouterSteps.RunDeliveredOrigin | src/util/chat_listener.rs:643-736 | every message a run hands on was, right before, let through by the limiter of its chat and opened from a live event for that target with a new inner id, or was fetched by a backfill of its batch for the target it is handed to |
| ChatRouterSteps.RunRefusedIsNotOpened | src/util/chat_listener.rs:704-710 | in a run, the step that logs a refusal does the same under any other cryptography: nothing was decrypted |
| ChatRouterSteps.LiveDeliversIff | src/util/chat_listener.rs:697-734 | a routed event that is no recent duplicate is handed on as m exactly when the limiter has a token, the envelope opens to m and the inner id of m is new; otherwise only the limiter's answer is logged |
| ChatRouterSteps.RoutesTo | src/util/chat_listener.rs:747-760 | a GiftWrap goes to the chat at its first p tag while legacy is accepted, kind 14 to a chat that signs with its author key, anything else nowhere |
| ChatRouterSteps.RunTargetIsLastTrack | src/util/chat_listener.rs:477-566 | in every reachable state a chat key is tracked exactly when some command set it and none behind it set it again or untracked the chat; its target carries that command's chat id, allow-list, local key and secret |
| ChatRouterSteps.TrackStores | src/util/chat_listener.rs:531-552 | a track that changes the tracked set stores the command's chat id, allow-list, local key and secret at the chat key alone, and asks for a backfill from the command's cursor, or from the clock when that is earlier |
| ChatRouterSteps.OutcomeMeaning | src/util/chat_listener.rs:477-566 | a command asks for a rebuild exactly when it changes the tracked set, and reports nothing otherwise |
| ChatRouterSteps.RebuildLogs | src/util/chat_listener.rs:335-385 | a rebuild subscribes to the signing keys and chat keys of the tracked set exactly when the subscribes it needs succeed and there is a chat to serve; it touches nothing but subscriptions |
| ChatRouterSteps.BackfillAsks | src/util/chat_utils.rs:394-450 | a backfill asks for kind 14 from its cursor on, at most 604800 seconds back and never ahead of the clock, and for GiftWrap 604800 seconds back |
| ChatRouterSteps.BackfillHandsOn | src/util/chat_listener.rs:582-616 | a backfill hands on exactly the fetched messages not before its start whose inner id is new, each id once; without an answer, nothing |
| ChatRouterSteps.BackfillIsSorted | src/util/chat_utils.rs:448 | it hands them on oldest first |
| ChatRouterSteps.RunSeedsStored | src/util/chat_listener.rs:660-664 | in a run every chat is seeded with the ids that were durable when its batch was handled |
| ChatRouterSteps.PendingsInOrder | src/util/chat_listener.rs:657-659 | backfills are scheduled in the order of the commands that asked for them |
| ChatRouterSteps.BackfillsInOrder | src/util/chat_listener.rs:676-686 | and carried out in that order |
| ChatRouterProofs.RunLimitsAlone | src/util/chat_listener.rs:697-716 | a chat's allow/refuse answers are those of a fresh limiter serving its arrivals alone, and any stretch of arrivals causes at most 60 + (t - s)/2 unwraps |
| ChatRouterProofs.DuplicateSpendsNothing | src/util/chat_listener.rs:697-703 | an event still in the outer window, or routed nowhere, changes nothing and spends no token |
| ChatRouterProofs.RunOuterIsWindow | src/util/chat_listener.rs:697-703 | in every run the outer window is what offering the routed live events, and nothing else, makes of an empty one |
| ChatRouterProofs.ReadmittedAfterCapOthers | src/util/chat_listener.rs:697-703 | between two times one outer event gets past the window in a run, at least 4096 distinct others do |
| ChatRouterProofs.NoResubscribeMeansUnchanged | src/util/chat_listener.rs:518-530 | a batch that reports no resubscribe left the tracked set unchanged and schedules no backfill |
| ChatRouterProofs.TrackAcceptedIff | src/util/chat_listener.rs:482-553 | exactly when a track is accepted; other chats are untouched and the cursor never starts ahead of the clock |
| ChatRouterProofs.UntrackUndoesTrack | src/util/chat_listener.rs:554-563 | an untrack right after the track of a new chat restores the tracked set |
| ChatRouterProofs.UntrackRemovesExactly | src/util/chat_listener.rs:554-563 | an untrack removes every target of its chat and no other, and reports so exactly when there was one |
| ChatRouterProofs.BackfillHandsOnOnlyFetched | src/util/chat_listener.rs:582-616 | what a backfill hands on was fetched, is dated at or after the cutoff and goes to its own chat |
| ChatRouterProofs.Kind14RoutingIsUnique | src/util/chat_listener.rs:747-760 | kind-14 routing finds a target exactly when one signs with the author key, whatever the map's iteration order |
| ChatRouterProofs.RunSubscriptionsExact | src/util/chat_listener.rs:335-385 | while calls succeed, after every step of a run the relay serves exactly the recorded subscriptions on exactly the tracked keys |
| ChatRouterProofs.RunKeepsCover | src/util/chat_listener.rs:329-334 | over any run with any failures, a covered chat that keeps its target is covered by every set of open subscriptions there ever is |
| ChatRouterProofs.HeardIffSubscribed | src/util/chat_listener.rs:350-374 | a chat not served before a rebuilding batch is served after it exactly when the needed subscribes succeed |
| ChatRouterProofs.RetrackRepairsNothing | src/util/chat_listener.rs:519-530 | behind the batch that tracks a chat, whatever its subscribes did, any number of repeated tracks leaves the whole state as it was |
| ChatRouter.ChatRouterTask.ApplyRouterCmd | src/util/chat_listener.rs:477-566 | one command updates the targets in place as specified |
| ChatRouter.ChatRouterTask.HandleBatch | src/util/chat_listener.rs:645-687 | drain, apply all, replay bookkeeping, resubscribe once, then hydrate |
| ChatRouter.ChatRouterTask.HydrateHistory | src/util/chat_listener.rs:582-616 | one backfill, with its dedupe through the inner-id set |
| ChatRouter.ChatRouterTask.HandleEvent | src/util/chat_listener.rs:688-734 | route, outer window, rate limit, unwrap, inner-id set, emit, in this order |
| ChatRouter.ChatRouterTask.ResolveTarget | src/util/chat_listener.rs:747-760 | the search over the map's values returns the specified target |
| ChatHandoff.GapFreeHandoff | src/util/chat_listener.rs:673-686 | for every chat a batch newly tracks, every addressed event the relay ever publishes, inside the window of a backfill it predates, is handed on exactly once, unless already accepted |
| ChatHandoff.SubscribeThenFetch | src/util/chat_listener.rs:670-686 | in a batch the subscribe that covers a chat precedes the fetch of its history |
| ChatHandoff.NewTargetIsPending | src/util/chat_listener.rs:543-552 | every newly tracked target has a backfill with its own secret waiting, and its batch resubscribes |
| ChatHandoff.BackfillKnows | src/util/chat_listener.rs:593-610 | a fully answered backfill makes every addressed event inside its window known |
| ChatLog.AtMostOnce | src/util/chat_listener.rs:718-721 | between two hand-overs of one inner id to one chat there is a drop of that chat |
| ChatLog.SessionAccount | src/util/chat_listener.rs:603-608 | within a session the known ids are the seeds plus the ids handed on, each once and none of them a seed |
| ChatLog.AttemptsBound | src/util/chat_security.rs:27-59 | the decrypt work of one session obeys the bucket bound |
| ChatSubscriptions.MakeBeforeBreak | src/util/chat_listener.rs:335-385 | a tracked chat covered before a rebuild is covered at every intermediate step of it, whatever calls fail |
| ChatSubscriptions.FailureChangesNothing | src/util/chat_listener.rs:350-374 | exactly when a rebuild fails; then the recorded ids are unchanged, and with the rollback so are the open subscriptions |
| ChatSubscriptions.SuccessIsExact | src/util/chat_listener.rs:383-384 | a rebuild that succeeds leaves exactly the recorded ids open, filtering exactly the tracked keys |
| ChatSubscriptions.OneCallAtATime | src/util/chat_listener.rs:335-385 | a rebuild opens or closes one subscription at a time, and the history holds the open ones after every call |
| ChatSubscriptions.LiveSubs.Resubscribe | src/util/chat_listener.rs:335-385 | the rebuild in place, with every call that can fail |
| ChatSubscriptions.LiveSubs.Clear | src/util/chat_listener.rs:99-110 | both subscriptions are dropped and forgotten |
| ChatSubscriptions.LiveSubs.ReplaceGiftwrap | src/util/chat_listener.rs:433-447 | the slot holds the new id and the old subscription is closed |
| ChatSubscriptions.LiveSubs.ReplaceKind14 | src/util/chat_listener.rs:433-447 | the slot holds the new id and the old subscription is closed |
| TokenBucket.ChatRateLimiter.AllowAt | src/util/chat_security.rs:48-58 | one request refills, is answered and pays |
| TokenBucket.ChatRateLimiters.Allow | src/util/chat_security.rs:81-83 | only the bucket of the asked conversation changes |
| TokenBucket.AllowedIffEveryWindowHasRoom | src/util/chat_security.rs:48-58 | a request is let through exactly when every window ending at it has room for one more within 60 plus one event per two seconds |
| TokenBucket.WindowBound | src/util/chat_security.rs:18-21 | any stretch of requests from time s to t admits at most 60 + (t - s)/2 |
| TokenBucket.TokensInRange | src/util/chat_security.rs:48-58 | tokens stay between 0 and 60 over any run |
| TokenBucket.SpacedRequestsAllowed | src/util/chat_security.rs:18-21 | a request at least two seconds after the previous one is never refused |
| OuterWindow.OuterIdLru.Insert | src/util/chat_security.rs:111-122 | set and queue stay in step; true exactly for an id not in the window |
| OuterWindow.WindowIsLastAccepted | src/util/chat_security.rs:90-122 | the queue is exactly the last min(cap, n) accepted ids |
| OuterWindow.ReacceptedAfterCapOthers | src/util/chat_security.rs:110-122 | an id is accepted again only after at least cap distinct others |
| OuterWindow.WindowWellFormed | src/util/chat_security.rs:111-122 | after any insertions the window has no duplicate and at most cap ids |
| ChatUtils.WindowIncludesPresentIff | src/util/chat_utils.rs:400-407 | the history window opens at or before now exactly when the clock is past the first week of 1970 or the cursor is a non-negative time |
| ChatUtils.Unwrap | src/util/chat_utils.rs:328-375 | the function computes the branches of the source; an empty list accepts nothing and GiftWrap needs dual-read |
| ChatUtils.UnwrapIff | src/util/chat_utils.rs:328-375 | a GiftWrap unwraps to m exactly when legacy is accepted, it opens to m and the sender of m is allowed; any other event exactly when there is a signing key and it opens to m under that key and the allow-list; and when each error is returned |
| ChatUtils.UnwrapAllPicks | src/util/chat_utils.rs:437-447 | of a fetched list exactly the envelopes that open yield a message, in the order fetched |
| ChatUtils.OrderAllowedSigners | src/util/chat_utils.rs:162-171 | both trade keys, or nothing when the counterparty is missing or oneself |
| ChatUtils.DisputeAllowedSigners | src/util/chat_utils.rs:177-189 | the party, and the admin when known, without repetition |
| ChatUtils.MergeDualRead | src/util/chat_utils.rs:477-503 | the merge loop computes the kind-14 list followed by the new legacy events |
| ChatUtils.MergeIds | src/util/chat_utils.rs:482-489 | the ids of a merge are the union of both lists |
| ChatUtils.MergeNoDuplicates | src/util/chat_utils.rs:482-489 | a merge is duplicate-free whenever the kind-14 list is |
| ChatUtils.MergeKeepsLegacyOrder | src/util/chat_utils.rs:484-488 | what is kept of the legacy list keeps its order |
| ChatUtils.MergeFailsIffBothFail | src/util/chat_utils.rs:491-501 | it fails exactly when both fetches fail, and starts with the kind-14 list |
| ChatUtils.FetchChatMessages | src/util/chat_utils.rs:394-450 | the fetch pushes what unwraps and sorts it |
| ChatUtils.FetchedMeaning | src/util/chat_utils.rs:394-450 | a fetch fails exactly without a signing key or an answer; otherwise it yields what the fetched envelopes open to, oldest first, and in the order fetched within one second |
| ChatUtils.SortByTimeSorts | src/util/chat_utils.rs:448 | history is sorted by time with nothing lost or added |
| ChatUtils.SortByTimeIsStable | src/util/chat_utils.rs:448 | messages of one timestamp keep their order |
| ChatRender.WrapTextToLines | src/ui/helpers/chat_render.rs:13-55 | the loop returns the greedy wrapping, for every width and every word width |
| ChatRender.GreedyWraps | src/ui/helpers/chat_render.rs:10-12 | words keep their order and every line fits or is one word |
| ChatRender.GreedyIsOptimal | src/ui/helpers/chat_render.rs:22-46 | no other split into consecutive legal lines has fewer lines |
| ChatRender.WordsSurviveIff | src/ui/helpers/chat_render.rs:39-43 | the wrapped text has the words of the original exactly when no line of several words starts with a zero-width word |
| ChatRender.WideWordsSurvive | src/ui/helpers/chat_render.rs:39-43 | words at least one column wide always survive |
| ChatRender.WrappedMeaning | src/ui/helpers/chat_render.rs:13-55 | of words at least one column wide, the lines are the words in order with one space between two, each within the width or a single word, and as few as that allows |
| ChatRender.NoWidthNoWrap | src/ui/helpers/chat_render.rs:15-17 | with no width the text comes back as it is |
| ChatRender.WrappedLinesAreClean | src/ui/helpers/chat_render.rs:26-53 | wrapping a text with words yields no empty line and nothing to trim, hence no blank line |
| Attachments.PlaceholderRoundTrip | src/ui/helpers/attachments.rs:31-82 | the placeholder parser undoes the printer for every file name |
| Text.WhiteSpaceIs | src/ui/helpers/attachments.rs:72 | what `trim` removes and words are split at: 25 code points, by number |
| Attachments.PlaceholderIff | src/ui/helpers/attachments.rs:68-82 | a body is a placeholder of a kind and file name exactly when, up to white space around it, it is what would be printed |
| Attachments.ShownAs | src/ui/helpers/attachments.rs:31-146 | icons, kind names, key hint and placeholder text, letter by letter |
| Attachments.SerializeAttachment | src/ui/helpers/attachments.rs:45-66 | the map filled step by step is the specified one |
| Attachments.SerializeThenParse | src/ui/helpers/attachments.rs:44-148 | a saveable attachment comes back with its URL trimmed and only a 32-byte key |
| Attachments.ParsedIff | src/ui/helpers/attachments.rs:102-148 | a body is an attachment exactly when it is a JSON object that names a known type, a URL that is not blank and a file; the key is kept exactly when it decodes to 32 bytes |
| Attachments.UnsaveableIsPlaceholder | src/ui/helpers/attachments.rs:45-48 | an attachment without a URL is stored as the placeholder, which still names its kind and file |
| Attachments.RoundTripsIff | src/ui/helpers/attachments.rs:44-130 | it comes back unchanged exactly when its URL is trimmed and its key absent or 32 bytes |
| Attachments.ReserializesIff | src/ui/helpers/attachments.rs:45-66 | what was read back is written as it stood exactly when the URL was trimmed |
| ChatStorage.TranscriptFile.Save | src/ui/helpers/chat_storage.rs:260-317 | a save appends one block unless the last block already stands for the message |
| ChatStorage.TranscriptFile.Rewrite | src/ui/helpers/chat_storage.rs:327-366 | a rewrite replaces the file by the transcript of the messages, or leaves it |
| ChatStorage.TranscriptFile.Load | src/ui/helpers/chat_storage.rs:223-245 | a load returns the parsed blocks, or nothing |
| ChatRoundTrip.ParsePrintedBlock | src/ui/helpers/chat_storage.rs:86-105 | a printed block parses to the sender its label names, its time and its body |
| ChatRoundTrip.TranscriptRoundTrip | src/ui/helpers/chat_storage.rs:223-245 | splitting and parsing the transcript of any list of messages, with or without words, yields each as stored and in order, but for those behind a message that hides the next |
| ChatRoundTrip.AllComeBackIff | src/ui/helpers/chat_storage.rs:223-245 | all messages come back exactly when none but the last is a text without words that ends, with the break in front of it, in an odd number of line breaks |
| ChatRoundTrip.StoredMeaning | src/ui/helpers/chat_storage.rs:115-120 | what is stored has the same time, the same words or the attachment in normal form with its display text, and the same sender exactly when the label names it |
| ChatStorageProofs.SavedIsLastLoaded | src/ui/helpers/chat_storage.rs:122-153 | behind no file, or one that ends in a separator, a save that reports success has kept the message: the last message a load yields is it as stored, or for an attachment has its sender, its time and its URL or a placeholder of its file name |
| ChatStorageProofs.SavedTextIsLoaded | src/ui/helpers/chat_storage.rs:260-317 | over every run in which no message hides the next, every text message whose save reported success since the last rewrite is among the loaded ones |
| ChatStorageProofs.SaveKeepsLoaded | src/ui/helpers/chat_storage.rs:304-316 | a save loses nothing that could be loaded before it |
| ChatStorageProofs.SameAttachmentIsKept | src/ui/helpers/chat_storage.rs:142-147 | an attachment whose URL was just saved for the same sender and second is not written again |
| ChatStorageProofs.PlaceholderIsKept | src/ui/helpers/chat_storage.rs:148-150 | nor is one whose placeholder stands there |
| ChatStorageProofs.UnreadFileIsAppended | src/ui/helpers/chat_storage.rs:280-316 | a file that could not be read is appended to unseen; a failed write changes nothing and is reported, unless the message was seen to be there |
| ChatStorageProofs.RewriteIsFixedPoint | src/ui/helpers/chat_storage.rs:360-365 | loading a printed file and rewriting it reproduces it byte for byte |
| ChatStorageProofs.AttachmentRewriteIff | src/ui/helpers/chat_storage.rs:115-120 | for an attachment, exactly when its URL is trimmed |
| ChatStorageProofs.SaveTwiceIsSaveOnceIff | src/ui/helpers/chat_storage.rs:294-316 | behind any text, the second save of a message changes nothing exactly when the message was already last, or what stands behind the last separator has no line break and no " - " and still reads as the sender in front of the label |
| ChatStorageProofs.SaveTwiceIsSaveOnce | src/ui/helpers/chat_storage.rs:294-316 | so behind no file, or one that ends in a separator, saving twice is saving once, even if the first save could not read or the second cannot write |
| ChatStorageProofs.RunKeepsTranscript | src/ui/helpers/chat_storage.rs:260-366 | after any run of saves and rewrites with any failures, the file is the transcript of the messages it holds |
| ChatStorageProofs.RunLoadsWhatItHolds | src/ui/helpers/chat_storage.rs:223-317 | so at any time a load yields them as stored; saving a message twice is saving it once, exactly unless it was not there and the message before it hides the next |
| ChatTranscripts.OrderRoundTrip | src/ui/helpers/chat_storage.rs:86-105 | every list of order messages with dates of the calendar and saveable attachments round trips with its senders |
| ChatTranscripts.DisputeRoundTripIff | src/ui/helpers/chat_storage.rs:49-84 | so does every list of dispute messages, each with its sender exactly when it is an admin message or has no target party |
| ChatTranscripts.SinceFromFile | src/ui/helpers/chat_storage.rs:472-476 | the cursor is never ahead of the clock and behind no stored message that is not |
| ChatTranscripts.FutureTimestampsCannotHideHistory | src/ui/helpers/chat_storage.rs:469-476 | far-future timestamps in a transcript cannot close the history window before now |
| ChatTranscripts.WordlessHidesNextIff | src/ui/helpers/chat_storage.rs:380-383 | a message without words hides the next from a load exactly when its text, with the break in front of it, ends in an odd number of line breaks |
| ChatTranscripts.BlockIs | src/ui/helpers/chat_storage.rs:368-384 | a block is sender, date and time on one line and under it the text wrapped at 80 columns or the attachment; a time outside the calendar prints as question marks |
| ChatTranscripts.OrderLabelsAre | src/ui/helpers/chat_storage.rs:93-99 | the labels of order transcripts, with the older ones still understood |
| ChatTranscripts.DisputeLabelsAre | src/ui/helpers/chat_storage.rs:56-64 | the labels of dispute transcripts |
| InnerIds.InnerIdStore.WithInnerIdSet | src/ui/helpers/chat_storage.rs:662-692 | the first touch parses the file, later ones do not |
| InnerIds.InnerIdStore.Remember | src/ui/helpers/chat_storage.rs:703-736 | insert, append, roll back on failure |
| InnerIds.InnerIdStore.IsKnown | src/ui/helpers/chat_storage.rs:694-696 | membership in the cached set |
| InnerIds.RunAgrees | src/ui/helpers/chat_storage.rs:698-736 | after any run of known, remember and restart, with any failed appends, cache and files agree |
| InnerIds.RememberMeaning | src/ui/helpers/chat_storage.rs:698-736 | remember returns true exactly when the id was absent and is now durable |
| InnerIds.RecordedAtMostOnce | src/ui/helpers/chat_storage.rs:698-707 | so at most once per id and file, restarts included |
| InnerIds.AppendAddsIdIff | src/ui/helpers/chat_storage.rs:662-676 | an append adds exactly its id exactly when only white space stands behind the last line break |
| InnerIds.LoadAgreesIff | src/ui/helpers/chat_storage.rs:662-665 | a first touch agrees with the file exactly when the read succeeds or there is nothing to read |
| InnerIds.FailedReadRepeats | src/ui/helpers/chat_storage.rs:663-665 | on the first touch of a file, an id that is on disk is recorded and written again exactly when the read fails |
| InnerIds.ParseIdIff | src/ui/helpers/chat_storage.rs:666-675 | a line is an id exactly when it is 64 hexadecimal digits of either case |
| InnerIds.ReadOnce | src/ui/helpers/chat_storage.rs:683-692 | from the first touch on, what is known does not depend on reads |
| InnerIds.RestartHeals | src/ui/helpers/chat_storage.rs:678-692 | behind a restart the next successful read agrees with the disk, whatever went wrong before |
| Orders.OrderTable.New | src/models.rs:281-348 | insert, or update when the id is taken; an index that is not positive is refused |
| Orders.OrderTable.UpsertFromDm | src/models.rs:487-553 | succeeds exactly when the row exists and the payload names no other order; a refused upsert changes nothing |
| Orders.OrderTable.UpdateLastSeenDmTs | src/models.rs:595-612 | keeps the newer timestamp |
| Orders.OrderTable.UpdateStatus | src/models.rs:575-593 | changes the status of one row |
| Orders.UpsertWrites | src/models.rs:429-553 | after an accepted upsert the row describes the order as the DM does, holds the public key and the secret the DM determines in the columns named for them, or those it had, and keeps all that is local; other rows stay |
| Orders.CounterpartyIsLastResolved | src/models.rs:436-447 | over every run in which upserts of an order come one at a time, its counterparty key and chat secret are those the last DM that determined any left since the row was saved |
| Orders.SaveWrites | src/models.rs:281-348 | a save that is not refused writes the order, the caller's keys, index and role, and nothing else |
| Orders.UpdatesWrite | src/models.rs:575-612 | each update sets its own columns of one row, if the row is there, and nothing else |
| Orders.DmNeverInserts | src/models.rs:516-525 | an upsert never inserts and never changes trade keys, index or maker flag; exactly when it is refused |
| Orders.DmsCreateNoRows | src/models.rs:516-525 | over any interleaving of upserts, updates and saves, the rows there are were there before or were saved |
| Orders.ColumnSurvivesIff | src/models.rs:507-518 | trade keys, trade index and maker flag, last seen, dispute id or solver chat of a row survive every run that does not write them exactly when the upserts in flight read the row as it is now |
| Orders.UpsertsDoNotInterfere | src/models.rs:429-478 | over any run in which nothing writes such a column between the read and the write of an upsert of that order, the row ends as if the steps that write it had run alone |
| Orders.RunKeepsIdentity | src/models.rs:459-471 | over any interleaving of DM upserts and updates, a row that is not saved anew keeps its trade keys, trade index and maker flag |
| Orders.InterleavedSaveIsUndone | src/models.rs:389-427 | a save between the read and the write of an upsert loses its trade keys, trade index and maker flag to the old ones, whatever they are |
| Orders.MismatchedPayloadChangesNothing | src/models.rs:494-502 | an upsert whose payload names another order leaves every run that goes on around it as it would have been |
| Orders.DmAndSaveDescribeAlike | src/models.rs:448-477 | a DM and a save write the same description of the same order |
| Orders.RepeatedOrderChangesNothing | src/models.rs:429-478 | a DM that repeats the saved order leaves the row as it was exactly when it resolves no counterparty and brings no other request id |
| Orders.LastSeenIsNewest | src/models.rs:595-612 | last seen is the newest timestamp applied since the row was saved, over every run in which no last-seen update or save of the order stands between the read and the write of one of its upserts |
| Orders.NewestIsMaximum | src/models.rs:595-612 | while the row is not saved anew, that is the maximum of its first value and all timestamps applied |
| Orders.InterleavedUpdateIsLost | src/models.rs:507-518 | an update between read and write is lost, for every row, payload and timestamp, unless the row already held one at least as new |
| TradeLedger.UserStore.ReserveNextTradeIndex | src/models.rs:145-164 | an uninterrupted reservation returns the next index and its key, or changes no row |
| TradeLedger.UserStore.UpdateLastTradeIndex | src/models.rs:119-132 | raises the counter, never lowers it |
| TradeLedger.UserStore.ReplaceAllAtomic | src/models.rs:87-117 | new identity and no orders, or no change |
| TradeLedger.RaiseMeaning | src/models.rs:119-132 | a raise leaves the counter at the larger of the index and where it was, and nothing else changed |
| TradeLedger.HandedOutIffDerivable | src/models.rs:176-183 | an uninterrupted reservation hands out the index after the last one exactly when that fits 32 bits |
| TradeLedger.SaveOrderWrites | src/models.rs:281-348 | a save that is not refused writes the order with the reserved index and its key, and nothing else |
| TradeLedger.IndicesIncrease | src/models.rs:134-164 | under any interleaving, indices handed out between two rotations are strictly increasing in commit order |
| TradeLedger.IndicesNeverReused | src/models.rs:134-164 | over any run in which no rotation goes back to a mnemonic with issued indices, those of one mnemonic are strictly increasing, rotations included |
| TradeLedger.DistinctMnemonicsAreFresh | src/models.rs:98-117 | no rotation does if no mnemonic is installed twice |
| TradeLedger.RotationIsSafeIff | src/models.rs:87-117 | behind a rotation, no continuation (without overflow or a further rotation to a used mnemonic) repeats an index of its mnemonic, exactly when none was ever handed out under the installed one |
| TradeLedger.FirstIndexAfterRotation | src/models.rs:98-117 | an uninterrupted first reservation behind a rotation hands out the index after the base |
| TradeLedger.SmallNumbersNeverOverflow | src/models.rs:155 | no run overflows the counter if the numbers brought in stay below the 64-bit maximum by more than its length |
| TradeLedger.OverflowAllowsReuse | src/models.rs:155 | an overflowing reservation hands out nothing and leaves a counter from which any index can be handed out again |
| TradeLedger.CommitsIffNotOvertaken | src/models.rs:145-163 | a reservation among any steps of other tasks goes through, with the index after the one it read, exactly when nobody changed the users table between its read and its commit; otherwise it hands out nothing and changes no row |
| TradeLedger.RowsAreSavesSinceRotation | src/models.rs:87-97 | after any run an order has a row exactly when it was saved since the last rotation, and it is the row its last save wrote |
| TradeLedger.RunKeepsRows | src/models.rs:265-275 | over any run whose saves use current reservations, every row holds the key of the current mnemonic and its own index |
| TradeLedger.SaveKeepsRowsIff | src/models.rs:281-348 | a save keeps the rows current exactly when its reservation was made under the current mnemonic |
| AdminDisputes.DisputeTable.New | src/models.rs:783-907 | a take inserts or overwrites, and refuses a finalized row and missing parties |
| AdminDisputes.DisputeTable.SetStatusByDisputeId | src/models.rs:1163-1185 | advances exactly the open rows of the dispute and reports whether there was one |
| AdminDisputes.DisputeTable.SetStatusSettled | src/models.rs:1141-1148 | sets one row's status |
| AdminDisputes.DisputeTable.SetStatusSellerRefunded | src/models.rs:1154-1161 | sets one row's status |
| AdminDisputes.FinalityIsAbsorbing | src/models.rs:1202-1207 | a finalized row stays finalized through every run exactly when every take in flight on it, having looked before it was finalized, brings a terminal status |
| AdminDisputes.OutcomeSurvivesIff | src/models.rs:1141-1185 | its exact status survives every run without a direct setter of that row exactly when every take in flight on it brings that status |
| AdminDisputes.RelayNeverOverwrites | src/models.rs:1163-1185 | a relay event gives the open rows of its dispute its status, leaves finalized rows and other disputes alone |
| AdminDisputes.TakeWrites | src/models.rs:783-907 | a take goes through exactly when both keys are known and the row has no outcome; it leaves the buyer's key as the buyer's and the seller's as the seller's, no chat seen, and every other row alone |
| AdminDisputes.LateWritesCreateNothing | src/models.rs:892-900 | the late write of a re-take overwrites the row it found, or nothing |
| AdminDisputes.SettersWrite | src/models.rs:1141-1161 | the direct setters record their own outcome on one row |
| AdminDisputes.SeenWrites | src/models.rs:1117-1135 | a chat seen is recorded on the side it was seen on, in the rows of that dispute |
| AdminDisputes.TerminalNames | src/models.rs:1189-1207 | the outcomes are settled, seller-refunded and released, by these names |
| AdminDisputes.InterleavedRetakeReopens | src/models.rs:892-900 | a dispute settled between the two calls of a re-take is reopened, exactly unless the re-take brings a terminal status |
| FileValidation.ReadImageDimensions | src/util/file_validation.rs:140-183 | the byte loop stays in bounds, terminates and computes the specified result |
| FileValidation.JpegSizeIff | src/util/file_validation.rs:148-179 | behind SOI a size is returned exactly when passable items are followed by a recognised frame header of that size |
| FileValidation.StandardStream | src/util/file_validation.rs:166-177 | for every stream of well-formed segments the first recognised frame header of length at least 8 with a size gives the result |
| FileValidation.ScanIsSound | src/util/file_validation.rs:150-178 | every returned size stands in a real frame header behind passable items |
| FileValidation.ScanIsComplete | src/util/file_validation.rs:150-178 | behind passable items the frame header is found |
| FileValidation.PngHeader | src/util/file_validation.rs:141-147 | a PNG signature with an IHDR chunk yields width and height exactly when both are positive |
| FileValidation.PngSizeIff | src/util/file_validation.rs:141-147 | behind the PNG signature a size is returned exactly when the words at 16 and 20 are there and positive, and they are width and height |
| FileValidation.FrameMarkersAre | src/util/file_validation.rs:166-169 | the markers looked for are C0 to C3, C5 to C7 and C9 to CB |
| FileValidation.OtherFilesHaveNoSize | src/util/file_validation.rs:140-183 | anything that starts neither like a PNG file nor with SOI has no size |
| FileValidation.SizesArePositive | src/util/file_validation.rs:145-174 | for every byte string only positive sizes are returned |

## Left out

- Cryptography and everything of mostro_core (ECDH, HKDF, NIP-44, wrapping, key derivation): functions in `Crypto` and `Derive`; that kind-14 unwrapping checks the allow-list, and that different secrets have different signing keys, are assumptions where a lemma names them.
- Emission behind `emit_messages`: the bounded update channels drop a batch when the UI queue is full, and an order chat without a local trade key is skipped; the claims are about what is handed to `emit_messages`.
- The end of the router task (a closed command channel or notification stream), and the three attempts and delays of one subscribe, which are one step that succeeds or fails.
- ChatHandoff.GapFreeHandoff: assumes at most 100 events in the window, queries answered in full, a token in the bucket at the first live delivery, and that the relay delivers what its open subscriptions cover; an event refused by the limiter is not retried by the source.
- TokenBucket.WindowBound: time and tokens are reals, so `f64` rounding is not modelled; the clock is assumed not to run backwards, as `Instant` promises.
- JSON, base64 and date syntax: laws of `Codec`, for objects of the program's own keys, and of `Format`; dates are covered for the years 0 to 9999, and a time that holds a dash is taken to be unreadable.
- A failed append or rewrite writes nothing: torn writes, and a write that succeeds before its sync fails, are not modelled.
- ChatRoundTrip.TranscriptRoundTrip: covers attachments with a URL; one without is printed as a placeholder, whose file name could hold line breaks. Text that is itself attachment JSON is read back as an attachment.
- ChatStorageProofs.SaveTwiceIsSaveOnceIff: covers messages that have words or an attachment; for an attachment not the texts whose last part holds both a line break and a dash, where the answer would rest on what the JSON reader takes.
- InnerIds.RunAgrees: assumes that reads of existing files succeed and that files end in a line break before the run; both conditions are exact (`LoadAgreesIff`, `AppendAddsIdIff`). Ids in bech32 form, which the program never writes, are not parsed.
- File paths and the check that a chat id is a UUID.
- `User::save`, which writes the counter back unconditionally, and the deletion of single order rows.
- Order columns derived from buyer and seller keys (`order_chat_counterparty_and_shared_hex`) are one given function; deserialised user info of disputes is part of `details`.
- `DisputeStatus::from_str` is taken to accept exactly the kebab-case names that the SQL compares with.
- JPEG fill bytes and the frame headers CD to CF, which the scanner does not handle; extension tables and the PDF header check.
- Rendering, popups, key handling, navigation, settings, order labels and timelines, proof of work, schema migrations, and the consumers of chat updates.
