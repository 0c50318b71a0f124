# Galaxy Workspace: a verified model

This project models the parts of the repository where state has to stay
consistent over time, and proves what they promise over every run. Protocols are
state machines whose steps are the stretches between awaits, with the network,
the other processes and crashes as free choices; next to each machine stands the
imperative form of the code, methods over fields and loops, proved to do what the
machine's step does. A step that cannot happen leaves the state as it is.

- **Draft recovery** (`recovery*.dfy`): views with a cache, a memoised load and a
  single-flight save loop, the engine's revision compare-and-set, and a network
  that delays, reorders and loses requests and answers. Confirmed means durable,
  no save is ever a blind overwrite, the save loop ends, a written text whose
  requests are answered is saved, and what is on screen survives a reload.
- **Product memory** (`product_*.dfy`): identities, the canonical key, merging of
  weaker products and every counter, over insertion-ordered dictionaries. Equal
  quality of compatible products, aliases as a partition of history, and the
  conservation of observations hold in every reachable memory, and what ends up as
  one product and what stays apart is said by the parts that are known.
- **Turn host** (`agent_host*.dfy`, `chat_messages.dfy`): submissions, one worker
  at a time, questions, tool calls, a finish that spans two awaits, and restarts,
  with the chat's fold over the event log. Every message goes to its own
  conversation's worker, and its outcome is final.
- **Sending from the chat** (`submission*.dfy`): the composer with its pending
  submission, the post, the check of a send that stayed unanswered, and reloads.
- **Event delivery** (`event_*.dfy`): the append-only log, paged replay, live
  sending, expiry and reconnection for any number of clients.
- **OneDrive** (`onedrive_walk.dfy`, `account*.dfy`): the limited walk over any
  folder graph, and the account slots with late sign-in answers.
- **Drafts** (`drafts*.dfy`): draft, HEAD, manifest and working files, with local
  application and the installation of material.
- **Tablet settings** (`tablet*.dfy`): reviewed changes as a compare-and-set on an
  external device on which a write may land late, with undo and crashes;
  nothing is written without a decision to write it.
- **Smaller cores**: bounded text extraction (`office_*.dfy`), the container of
  a signed update (`ota.dfy`), and citations and links in reports (`links.dfy`,
  `document_links.dfy`, `relative_links.dfy`, `chat_content.dfy`).

Bookkeeping such as traces, accepted histories and logs of recordings is ghost or
only specification; no operation decides by it.

## Findings

Where a promise does not hold of the code everywhere, the code is kept as it is
and the exact condition is proved.

- `invalidateRecovery` called directly while a load or a save of its key is unanswered
  can make unsaved text look kept. Called when no load is unanswered and no save loop
  is under way it is harmless: the run theorems allow it. Otherwise it can go wrong,
  whatever the texts, and the exact condition on them is proved, with a concrete run.
  The only caller, the storage event, never reaches such a key.
- A restart of the host records nothing about open questions, so the chat goes on
  showing them. Chat and host agree again exactly if none was open, and a run from any
  initial host shows one that is.
- A conversation can read as busy with no worker left. Exactly three calls do it: `stop`
  on a worker that has finished, `answer` to a question that a finished worker left
  open, and a completed turn whose status is itself a busy one. For each there is a run
  from any initial host. A restart repairs it.
- A check that finds no submission hands the text back; if the request is still under
  way, or was recorded in the meantime, the old submission arrives all the same and
  sending again makes a second one, as a run for any text shows. A submission that was
  never posted, or whose post was answered, cannot come back.
- A citation whose percent-encoded slash hides a dot segment, or leads to a path
  with a leading slash, does not survive rewriting; the first kind also changes
  again when rewritten twice.

## Model

| member | source | states |
|---|---|---|
| RecoveryResults.ConfirmedIsDurable | AI Centric Galaxy Tab S9/src/recovery-store.ts:49-153 | Over every run, with any number of views, lost, late and reordered answers, timeouts and conflicts: a view that is ready, not saving, error-free and owes no queued rewrite holds exactly the engine's value at the revision it recorded |
| RecoveryResults.NoBlindOverwrite | AI Centric Galaxy Tab S9/server/recovery.ts:45-69 | Revision r + 1 was made by a save posted over revision r, by a view that had been told of r; the row is always the newest accepted value |
| RecoveryResults.StaleSaveIsNeverAccepted | AI Centric Galaxy Tab S9/server/recovery.ts:59-63 | Once another save was accepted over the same revision a stale one is never accepted, however late it arrives, and accepted values are never rewritten |
| RecoveryResults.StaleViewKeepsItsText | AI Centric Galaxy Tab S9/src/recovery-store.ts:113-132 | The view behind a refused save keeps its text, says so, stops, and the row stays as it was |
| RecoveryResults.OneSaveInFlight | AI Centric Galaxy Tab S9/src/recovery-store.ts:88-138 | Of two saves of one view under way, one was given up, and whatever is answered to that one changes no view |
| RecoveryResults.SaveLoopEnds | AI Centric Galaxy Tab S9/src/recovery-store.ts:92-135 | Once writing stops, the save loop of a view moves at most three more times, whatever happens elsewhere |
| RecoveryResults.LatestWriteIsConfirmedOrFlagged | AI Centric Galaxy Tab S9/src/recovery-store.ts:139-153 | When the loop has ended after a write, flushes, reloads and other views included, that very text is on screen, and it is the engine's at the recorded revision unless an error is shown |
| RecoveryProgress.WrittenTextIsSaved | AI Centric Galaxy Tab S9/src/recovery-store.ts:88-153 | From any reachable state, with no other writer: a written text, once its load and its posts are answered, ends confirmed, without an error, and is the row's value |
| RecoveryProgress.ChatTextIsSaved | AI Centric Galaxy Tab S9/src/recovery-store.ts:88-153 | The same for any chat text: none is refused for what it says |
| RecoveryCopies.TextSurvivesReloads | AI Centric Galaxy Tab S9/src/recovery-store.ts:29-48 | From the opening of a page, whatever its loads and saves do: while the browser takes its copies and no other page rewrites them, a reload shows the text that was on screen |
| RecoveryCopies.WrittenTextIsCopied | AI Centric Galaxy Tab S9/src/recovery-store.ts:139-153 | A valid text that is written is on screen at once and in the browser, or the notice says that it is not; an invalid one changes nothing |
| RecoveryResults.StorageEventChangesNothing | AI Centric Galaxy Tab S9/src/recovery-store.ts:176-183 | The browser's storage event only ever reaches a key without a cache entry, so in every reachable state it changes nothing |
| RecoveryResults.InvalidatedLoadIsDurableOnlyByChance | AI Centric Galaxy Tab S9/src/recovery-store.ts:164-175 | Invalidating while a load is under way keeps "confirmed means durable" if and only if the browser's copy, where it is usable and owes no rewrite, equals the engine's value |
| RecoveryResults.InvalidatedSaveIsDurableOnlyByChance | AI Centric Galaxy Tab S9/src/recovery-store.ts:164-175 | Invalidating while a save is under way, a load answered first, found or not, and the save accepted afterwards: durable if and only if the two texts are equal or a rewrite is owed |
| RecoveryResults.InvalidatedSaveAcceptedFirstIsDurable | AI Centric Galaxy Tab S9/src/recovery-store.ts:164-175 | With the save accepted before the new load is answered, it is durable whatever the texts |
| RecoveryResults.InvalidatingAnUnansweredLoadCanGoWrong | AI Centric Galaxy Tab S9/src/recovery-store.ts:164-175 | Whatever the engine answers to an unanswered load, a browser copy another tab wrote makes an invalidation during it go wrong |
| RecoveryResults.InvalidatingAnUnansweredSaveCanGoWrong | AI Centric Galaxy Tab S9/src/recovery-store.ts:164-175 | Whatever text is being saved, another view's save makes an invalidation during it go wrong |
| RecoveryResults.InvalidationCanConfirmUnsavedText | AI Centric Galaxy Tab S9/src/recovery-store.ts:164-175 | A concrete run in which a direct invalidation makes text that only the browser has look kept |
| RecoveryProtocol.RunKeeps | AI Centric Galaxy Tab S9/src/recovery-store.ts:49-153 | The protocol invariant and the growth of the accepted history over every run |
| RecoveryServer.RecoveryTable.Recovery | AI Centric Galaxy Tab S9/server/recovery.ts:34-44 | The row of a recognised key, or found = false with revision 0 |
| RecoveryServer.RecoveryTable.SaveRecovery | AI Centric Galaxy Tab S9/server/recovery.ts:45-70 | The revision compare-and-set: accepted if and only if the key is recognised, the value absent or valid and of its kind, and the revision in range and the row's; every refusal and its reason, the new row on acceptance, every other row untouched |
| RecoveryServer.CheckMeans | AI Centric Galaxy Tab S9/server/recovery.ts:45-69 | A save is accepted if and only if the value is absent or valid and of the key's kind, and the revision is in range and is the one the row holds; then the row's next revision is one more |
| RecoveryView.InvalidMeans | AI Centric Galaxy Tab S9/shared/recovery.ts:28-60 | A draft is refused if and only if a field is too long, a list too long, or a style unknown, its unanswered submission included |
| RecoveryClient.RecoveryStore.RecoverySnapshot | AI Centric Galaxy Tab S9/src/recovery-store.ts:29-48 | Fills the cache from the browser's copy once and then answers from it; the view of the key becomes what the protocol's step gives, and every other key stays |
| RecoveryClient.RecoveryStore.HydrateRecovery | AI Centric Galaxy Tab S9/src/recovery-store.ts:49-87 | The part up to the request: memoised, one load at a time; the view of the key becomes what the protocol's step gives, and every other key stays |
| RecoveryClient.RecoveryStore.LoadAnswered | AI Centric Galaxy Tab S9/src/recovery-store.ts:60-74 | The part after an answer: adopted only if nothing was typed since; a browser-only text is queued for a rewrite; the view of the key becomes what the protocol's step gives, and every other key stays |
| RecoveryClient.RecoveryStore.LoadFailed | AI Centric Galaxy Tab S9/src/recovery-store.ts:75-82 | The part after a failed or timed-out load; the view of the key becomes what the protocol's step gives, and every other key stays |
| RecoveryClient.RecoveryStore.Persist | AI Centric Galaxy Tab S9/src/recovery-store.ts:88-138 | One save loop per key; the view of the key becomes what the protocol's step gives, and every other key stays |
| RecoveryClient.RecoveryStore.LoopHead | AI Centric Galaxy Tab S9/src/recovery-store.ts:92-111 | One turn of the loop up to the request: nothing left to save, no known revision, or a post over the recorded revision; the view of the key becomes what the protocol's step gives, and every other key stays |
| RecoveryClient.RecoveryStore.PostAccepted | AI Centric Galaxy Tab S9/src/recovery-store.ts:112-125 | An accepted save: the revision is recorded, and confirmed only if the text is still the one sent; the view of the key becomes what the protocol's step gives, and every other key stays |
| RecoveryClient.RecoveryStore.PostFailed | AI Centric Galaxy Tab S9/src/recovery-store.ts:126-132 | A refused, failed or timed-out save; the view of the key becomes what the protocol's step gives, and every other key stays |
| RecoveryClient.RecoveryStore.WriteRecovery | AI Centric Galaxy Tab S9/src/recovery-store.ts:139-153 | A write: refused if invalid, otherwise browser copy, cache and save loop; the view of the key becomes what the protocol's step gives, and every other key stays |
| RecoveryClient.RecoveryStore.RunMicrotask | AI Centric Galaxy Tab S9/src/recovery-store.ts:72-73 | The queued rewrite of a browser-only text; the view of the key becomes what the protocol's step gives, and every other key stays |
| RecoveryClient.RecoveryStore.InvalidateRecovery | AI Centric Galaxy Tab S9/src/recovery-store.ts:164-175 | Forgetting one key; the view of the key becomes what the protocol's step gives, and every other key stays |
| RecoveryClient.RecoveryStore.InvalidateEverything | AI Centric Galaxy Tab S9/src/recovery-store.ts:164-175 | Forgetting every key; the view of the key becomes what the protocol's step gives, and every other key stays |
| RecoveryClient.RecoveryStore.OnStorageEvent | AI Centric Galaxy Tab S9/src/recovery-store.ts:176-183 | The storage event; the view of the key becomes what the protocol's step gives, and every other key stays |
| ProductLedger.CompatibleProductsHaveEqualQuality | app/core/product_memory.py:193-235 | In every memory reachable from empty, any two products judged compatible have equal identity quality |
| ProductTwins.BetterMeans | app/core/product_memory.py:335-344 | One identity is better than another if and only if it knows all the parts the other knows and more, or alone knows the codename and knows at least as many parts |
| ProductTwins.PoorerTwinsNeverCoexist | app/core/product_memory.py:218-235 | In every reachable memory two products that share a known codename know equally many parts, and two that share a known maker and model know the same parts |
| ProductTwins.FullIdentityAbsorbs | app/core/product_memory.py:199-235 | A fully known identity, once recorded, is a product, and no poorer identity of the same device is one any longer, though it is still found |
| ProductTwins.PoorerProfilesAreAnswered | app/core/product_memory.py:199-216 | A profile is answered whenever a product of the same device knows its parts and more |
| ProductTwins.UnrelatedIdentitiesStayApart | app/core/product_memory.py:193-235 | An identity that shares neither a known codename nor a known maker and model with anything else recorded has a product of its own, under its name alone |
| ProductTwins.OwnersAreTheSameDevice | app/core/product_memory.py:199-235 | Over all recordings and merges an identity belongs to itself or to a richer one of its own codename or, if it knows none, of its own maker and model: nothing foreign is merged |
| ProductLists.NothingIsListedTwice | app/core/product_memory.py:405-418 | In every reachable memory no product lists a session or an alias twice |
| ProductMemory.BestNext | app/core/product_memory.py:209-216 | A later key is chosen only if it is strictly better, so of the best compatible keys the first is canonical |
| ProductLedger.AliasesPartitionWhatWasRecorded | app/core/product_memory.py:141-169 | Every recorded key is an alias of exactly one product, its own or a strictly better one, and looking it up finds that product |
| ProductLedger.OnlyRecordedIdentitiesAreAliases | app/core/product_memory.py:64-64 | A product answers only for keys that were recorded |
| ProductLedger.LookupFollowsMerges | app/core/product_memory.py:218-279 | A lookup after any number of further recordings and merges finds a product with all the names the earlier one had |
| ProductLedger.ObservationsAreConserved | app/core/product_memory.py:237-294 | A product's observations equal the recordings of its aliases and the sum over its versions; each version equals its own recordings and the total of each of its five count maps, tag by tag; sessions within 12, histories within 20 |
| ProductLedger.RelatedIdentitiesAreEquals | app/core/product_memory.py:296-305 | The related identities are exactly the other compatible products, all of the same quality |
| ProductLedger.UnseenProfilesBorrowFromBetterProducts | app/core/product_memory.py:199-216 | A profile never recorded is answered from memory if and only if a strictly better compatible product is known |
| ProductLedger.NewestEntriesAreKept | app/core/product_memory.py:405-418 | What was just observed is the newest session and the newest entry of the version's three histories, however full they were |
| ProductLedger.RecordSound | app/core/product_memory.py:21-126 | One recording keeps every invariant, and no name leaves its product except together with it |
| ProductLedger.MergeWeakerNames | app/core/product_memory.py:218-235 | Merging takes away exactly the weaker compatible keys and loses no alias |
| ProductLedger.CanonicalMeans | app/core/product_memory.py:193-216 | The canonical key is the alias holder, or a strictly better compatible product that none exceeds, or the requested key itself when no compatible product is better |
| ProductIdentity.SlugTwice | app/core/product_memory.py:434-435 | A slug is never empty and slugging it again changes nothing |
| ProductIdentity.SlugJoinsWords | app/core/product_memory.py:434-435 | Words are joined by one dash, whichever and however many blanks part them; blanks at the ends do not count |
| ProductIdentity.SlugOfWord | app/core/product_memory.py:434-435 | A word keeps its letters, in lower case, and an underscore becomes a dash |
| ProductIdentity.CompatibleIsSymmetric | app/core/product_memory.py:307-328 | Without a profile, compatibility is symmetric |
| ProductIdentity.CompatibleIsNotTransitive | app/core/product_memory.py:307-328 | Compatibility is not transitive: a family of triples for which it fails |
| ProductStore.CanonicalProductKey | app/core/product_memory.py:193-216 | The loop over aliases and then over compatible keys gives the canonical key; proved against the specification the ledger theorems are about |
| ProductStore.HighestQuality | app/core/product_memory.py:209-216 | The first key of the highest quality; proved against the specification the ledger theorems are about |
| ProductStore.MergeAliases | app/core/product_memory.py:258-261 | The absorbed key and its aliases, each once; proved against the specification the ledger theorems are about |
| ProductStore.MergeSessionLists | app/core/product_memory.py:251-256 | Both session lists without repetition, the newest twelve; proved against the specification the ledger theorems are about |
| ProductStore.MergeCounts | app/core/product_memory.py:285-288 | Count by count addition; proved against the specification the ledger theorems are about |
| ProductStore.MergeTwoVersions | app/core/product_memory.py:281-294 | The merge of two records of one version; proved against the specification the ledger theorems are about |
| ProductStore.MergeVersionTables | app/core/product_memory.py:274-279 | The merge of two version tables, version by version; proved against the specification the ledger theorems are about |
| ProductStore.MergeProducts | app/core/product_memory.py:237-279 | The merge of a weaker product into another; proved against the specification the ledger theorems are about |
| ProductStore.RelatedKeys | app/core/product_memory.py:298-305 | The other keys compatible with one; proved against the specification the ledger theorems are about |
| ProductStore.ProductMemoryEngine.MergeWeakerProducts | app/core/product_memory.py:218-235 | Every weaker compatible product is absorbed, in the order of the table; proved against the specification the ledger theorems are about |
| ProductStore.ProductMemoryEngine.RefreshRelatedIdentities | app/core/product_memory.py:296-305 | Every product's related identities are recomputed; proved against the specification the ledger theorems are about |
| ProductStore.ProductMemoryEngine.RecordObservation | app/core/product_memory.py:21-126 | A recording: canonical key, merges, counters, histories and related identities; proved against the specification the ledger theorems are about |
| ProductStore.ProductMemoryEngine.FindProduct | app/core/product_memory.py:141-169 | A lookup: the canonical product if there is one; proved against the specification the ledger theorems are about |
| AgentHostResults.AtMostOneSend | AI Centric Galaxy Tab S9/server/codex.ts:215-324 | In any run, restarts included, one submission causes at most one turn/start or turn/steer request |
| AgentHostResults.AcceptedMeansAcknowledged | AI Centric Galaxy Tab S9/server/codex.ts:372-393 | A submission is `accepted` only if it was sent and then acknowledged |
| AgentHostResults.IdentifiersAreNeverReused | AI Centric Galaxy Tab S9/server/codex.ts:229-240 | A recorded identifier reports its state when sent again with the same content and is refused with any other, for good, and neither changes anything |
| AgentHostMessages.SubmitMeans | AI Centric Galaxy Tab S9/server/codex.ts:229-300 | A new message is recorded if and only if its conversation is known and no worker is there, or the worker is that conversation's, not finished, in a turn, and the style is standard; otherwise nothing changes |
| AgentHostMessages.SentToItsOwnConversation | AI Centric Galaxy Tab S9/server/codex.ts:241-276 | Over every run what is sent goes to an unfinished worker of the very conversation it was submitted to, with the content it was submitted with |
| AgentHostMessages.WorkersServeTheirConversation | AI Centric Galaxy Tab S9/server/codex.ts:241-276 | Over every run a worker's first message and those that steer it belong to its own conversation |
| AgentHostOutcomes.OutcomesAreFinal | AI Centric Galaxy Tab S9/server/codex.ts:258-322 | Over every run, restarts included, accepted, uncertain and interrupted are final |
| AgentHostOutcomes.MessagesStartWorkers | AI Centric Galaxy Tab S9/server/codex.ts:282-396 | With no worker there, a new message whose start is answered is sent, acknowledged and accepted, and its conversation runs on the answered thread and turn |
| AgentHostOutcomes.SteeringAnswers | AI Centric Galaxy Tab S9/server/codex.ts:263-281 | A message sent into a turn becomes accepted or uncertain as it is answered, and nothing else changes |
| AgentHostOutcomes.RejectedStartsFail | AI Centric Galaxy Tab S9/server/codex.ts:315-322 | A rejected start leaves its message uncertain and ends the turn as failed |
| AgentHostOutcomes.ExitLeavesUncertain | AI Centric Galaxy Tab S9/server/codex.ts:266-322 | When the worker's process is gone exactly what it had not answered is uncertain, and the turn is interrupted unless it was over |
| AgentHostOutcomes.WaysToEndATurn | AI Centric Galaxy Tab S9/server/codex.ts:540-592 | Stop, failure and a completed turn end the turn with their status and leave every submission as it is |
| AgentHostOutcomes.TurnsBegin | AI Centric Galaxy Tab S9/server/codex.ts:509-511 | A turn that has begun is its conversation's from then on |
| AgentHostOutcomes.RestartInterrupts | AI Centric Galaxy Tab S9/server/store.ts:236-240 | After a restart a pending submission reads as interrupted and every other as before |
| AgentHostOutcomes.NotHeard | AI Centric Galaxy Tab S9/server/codex.ts:397-508 | A finished or departed worker is not heard, nor is a message about another thread |
| AgentHostOutcomes.ToolCallsAreChecked | AI Centric Galaxy Tab S9/server/codex.ts:402-421 | A tool call is taken up if and only if it names the worker's own thread and, if there is one, turn |
| AgentHostOutcomes.QuestionsMakeItWait | AI Centric Galaxy Tab S9/server/codex.ts:475-562 | A question makes its conversation wait and is logged; its answer lets the conversation run and resolves it |
| AgentHostOutcomes.ReportsAreLogged | AI Centric Galaxy Tab S9/server/codex.ts:483-539 | What an unfinished worker reports on its thread is logged for its conversation, and a declined approval as a notice |
| AgentHostOutcomes.ToolCallsEnd | AI Centric Galaxy Tab S9/server/codex.ts:431-470 | A tool call that ends is over; its result is logged as evidence and its failure as a notice, unless the worker has finished |
| AgentHostOutcomes.FinishedStartsSendNothing | AI Centric Galaxy Tab S9/server/codex.ts:372-372 | A worker that finishes before its thread is there sends nothing |
| AgentHostOutcomes.ClosingInOrder | AI Centric Galaxy Tab S9/server/codex.ts:572-574 | A finished worker is stopped when all it was asked is settled, then released; only then is there room for another |
| AgentHostResults.LifetimesNeverOverlap | AI Centric Galaxy Tab S9/server/codex.ts:241-314 | Between the creations of two workers the first was released, after its stop and the Outlook release, or the host restarted |
| AgentHostResults.FinishIsOnceAndLast | AI Centric Galaxy Tab S9/server/codex.ts:427-470 | A worker's finish takes effect once and nothing is recorded for it afterwards |
| AgentHostResults.ReleaseFollowsStopAndFinish | AI Centric Galaxy Tab S9/server/codex.ts:563-575 | A worker is released only after its finish and then its stop |
| AgentHostResults.QuestionsShownAreOpen | AI Centric Galaxy Tab S9/server/codex.ts:475-481 | In a run without a restart the questions a chat shows stay, in the same order, the open approvals of the unfinished worker of its conversation |
| AgentHostResults.ChatShowsOpenQuestions | AI Centric Galaxy Tab S9/src/Chat.tsx:154-178 | From the start of the host, the fold over the log shows exactly the open questions at every step, and none once the worker has finished |
| AgentHostResults.RestartLeavesQuestionsShown | AI Centric Galaxy Tab S9/server/store.ts:221-246 | A restart leaves shown what was open; chat and host agree again if and only if nothing was open |
| AgentHostStatus.BusyStaysLiveUnlessRewritten | AI Centric Galaxy Tab S9/server/codex.ts:547-593 | One step keeps "a conversation that reads as busy has an unfinished worker" if and only if it is not a stop of a finished worker's conversation, an answer to a question a finished worker left open, or a turn ending with a busy status |
| AgentHostStatus.BusyStaysLiveInRuns | AI Centric Galaxy Tab S9/server/codex.ts:215-593 | At every step of a run busy means live, if and only if no call of the run is one of those three |
| AgentHostStatus.BusyIsLiveFromRecovery | AI Centric Galaxy Tab S9/server/store.ts:221-246 | The same from the moment a host has recovered its tables, whatever they held |
| AgentHostStatus.RestartRestoresIt | AI Centric Galaxy Tab S9/server/store.ts:227-235 | A restart makes busy mean live again, whatever happened before |
| AgentHostStatus.StoppingAClosingWorkerLeavesItBusy | AI Centric Galaxy Tab S9/server/codex.ts:576-593 | A stop, or an answer to an open question, of a worker that is closing leaves its conversation reading as busy with no worker left |
| AgentHostStatus.StopAfterExit | AI Centric Galaxy Tab S9/server/codex.ts:576-592 | From any initial host: the process closes, the user stops the conversation, and it reads as busy with no worker |
| AgentHostStatus.AnswerAfterExit | AI Centric Galaxy Tab S9/server/codex.ts:547-562 | From any initial host: a question is open when the process closes, is answered, and the conversation reads as busy with no worker |
| AgentHostStatus.TurnEndsBusy | AI Centric Galaxy Tab S9/server/codex.ts:540-545 | From any initial host: a turn that ends with a busy status leaves that status with no worker |
| AgentHostStatus.RestartWhileAsking | AI Centric Galaxy Tab S9/server/store.ts:221-246 | From any initial host: a restart with a question open leaves it shown with no worker to ask it |
| AgentHostResults.NoEvidenceAfterFinish | AI Centric Galaxy Tab S9/server/codex.ts:431-455 | Once a worker has finished no evidence of it is logged in any run, whatever its tools still return |
| AgentHostResults.RunKeeps | AI Centric Galaxy Tab S9/server/codex.ts:215-575 | The host invariant over every run: workers, submissions and the order of everything sent |
| AgentHostObject.Host.Submit | AI Centric Galaxy Tab S9/server/codex.ts:215-324 | `submit` up to its first await; the object does what the step of the host machine does |
| AgentHostObject.Host.StartAnswered | AI Centric Galaxy Tab S9/server/codex.ts:325-396 | The continuations of `start` after each answer; the object does what the step of the host machine does |
| AgentHostObject.Host.StartRejected | AI Centric Galaxy Tab S9/server/codex.ts:315-322 | A rejected start; the object does what the step of the host machine does |
| AgentHostObject.Host.Finish | AI Centric Galaxy Tab S9/server/codex.ts:563-571 | `finish` up to its first await; the object does what the step of the host machine does |
| AgentHostObject.Host.AskUser | AI Centric Galaxy Tab S9/server/codex.ts:475-481 | A question from the worker; the object does what the step of the host machine does |
| AgentHostObject.Host.RequestResolved | AI Centric Galaxy Tab S9/server/codex.ts:529-534 | A question the worker has withdrawn, unless the message is of another thread; the object does what the step of the host machine does |
| AgentHostObject.Host.ToolCalled | AI Centric Galaxy Tab S9/server/codex.ts:402-430 | A tool call, refused if it belongs to another turn; the object does what the step of the host machine does |
| AgentHostObject.Host.ToolEnded | AI Centric Galaxy Tab S9/server/codex.ts:431-470 | The end of a tool call; the object does what the step of the host machine does |
| AgentHostObject.Host.Answer | AI Centric Galaxy Tab S9/server/codex.ts:547-562 | The user's answer; the object does what the step of the host machine does |
| AgentHostObject.Host.Stop | AI Centric Galaxy Tab S9/server/codex.ts:576-593 | `stop`; the object does what the step of the host machine does |
| AgentHostObject.Host.Exit | AI Centric Galaxy Tab S9/server/codex.ts:307-314 | The worker's connection closing; the object does what the step of the host machine does |
| AgentHostObject.Host.StopResolved | AI Centric Galaxy Tab S9/server/codex.ts:572-572 | The worker's stop resolving, nothing it was asked being unanswered; the object does what the step of the host machine does |
| AgentHostObject.Host.ReleaseResolved | AI Centric Galaxy Tab S9/server/codex.ts:573-574 | The Outlook release resolving; the object does what the step of the host machine does |
| AgentHostObject.Host.Recover | AI Centric Galaxy Tab S9/server/store.ts:221-246 | The tables after a restart, conversation by conversation; the object does what the step of the host machine does |
| AgentHostObject.Host.Handle | AI Centric Galaxy Tab S9/server/codex.ts:397-546 | `handle`, every kind of message, with the thread it names; the object does what the step of the host machine does |
| AgentHostObject.Host.TurnStarted | AI Centric Galaxy Tab S9/server/codex.ts:509-511 | A turn that begins, unless it is of another thread; the object does what the step of the host machine does |
| AgentHostObject.Host.SteerSettled | AI Centric Galaxy Tab S9/server/codex.ts:266-281 | The answer to a steering request; the object does what the step of the host machine does |
| AgentHostObject.Host.PerformAll | AI Centric Galaxy Tab S9/server/codex.ts:215-593 | Any sequence of calls does what the run does, so the run theorems hold of the object; the object does what the step of the host machine does |
| ChatFold.DeleteAllEmpties | AI Centric Galaxy Tab S9/server/codex.ts:570-571 | Resolving every open question in turn leaves none shown |
| ChatMessages.FoldEvents | AI Centric Galaxy Tab S9/src/Chat.tsx:144-182 | One bubble for every item mentioned, holding exactly its own text and phase; the user's messages and the activity all in order; the questions those of the log |
| ChatMessages.TextIsWholeAndPieces | AI Centric Galaxy Tab S9/src/Chat.tsx:162-175 | An item's text is the last whole text it was given, if any, and the pieces that came after it |
| SubmissionResults.OnePostAtATime | AI Centric Galaxy Tab S9/src/Chat.tsx:207-285 | No submission is posted twice, and none before the one posted before it was confirmed as recorded or handed back, in any run, reloads included |
| SubmissionResults.TextIsTakenOnlyWhenRecorded | AI Centric Galaxy Tab S9/src/Chat.tsx:267-278 | Apart from typing, text and attachments leave the composer only while the text is still that of a submission the engine has recorded |
| SubmissionResults.HandedBackMayStillArrive | AI Centric Galaxy Tab S9/src/Chat.tsx:307-313 | A submission whose text a check handed back is or will be recorded after all if and only if it was recorded in the meantime or its request is still under way |
| SubmissionResults.AnsweredPostsStayAway | AI Centric Galaxy Tab S9/src/Chat.tsx:259-285 | What the page can tell: a submission that was never posted, or whose post was answered, is never recorded after a check handed its text back; only one given up or cut off by a reload can be |
| SubmissionResults.HandedBackTooEarly | AI Centric Galaxy Tab S9/src/Chat.tsx:307-313 | For any text a run in which a check hands it back while its post is still under way, and the post is then recorded |
| SubmissionResults.CheckingSettles | AI Centric Galaxy Tab S9/src/Chat.tsx:286-319 | One answered check settles a send that stayed unanswered, and takes the text exactly if the engine has the submission |
| SubmissionOutcomes.SendMeans | AI Centric Galaxy Tab S9/src/Chat.tsx:207-246 | A send begins if and only if none is under way or pending, there is a text, and the composer with the new submission could be kept |
| SubmissionOutcomes.SendsArrive | AI Centric Galaxy Tab S9/src/Chat.tsx:207-285 | From any reachable state a send that is flushed, served and answered is posted, recorded and confirmed once, and clears the composer unless the user typed something else or the text is to be kept |
| SubmissionOutcomes.FailedSendsStayPending | AI Centric Galaxy Tab S9/src/Chat.tsx:246-285 | A failed flush posts nothing, and a failed or abandoned post leaves the submission pending with its text |
| SubmissionOutcomes.EngineRecordsOnce | AI Centric Galaxy Tab S9/server/codex.ts:229-240 | The engine answers a repeat as accepted and records nothing twice |
| SubmissionOutcomes.ChecksSettle | AI Centric Galaxy Tab S9/src/Chat.tsx:294-313 | A check's answer settles the pending submission as an accepted post would, or hands the text back; about another submission it settles nothing |
| SubmissionObject.Chat.Send | AI Centric Galaxy Tab S9/src/Chat.tsx:207-246 | `send` up to its first flush; the object does what the step of the machine does |
| SubmissionObject.Chat.Flushed | AI Centric Galaxy Tab S9/src/Chat.tsx:246-266 | The flushes before the post; only then is the submission posted; the object does what the step of the machine does |
| SubmissionObject.Chat.PostAnswered | AI Centric Galaxy Tab S9/src/Chat.tsx:259-285 | The answer to the post; the object does what the step of the machine does |
| SubmissionObject.Chat.CheckSubmission | AI Centric Galaxy Tab S9/src/Chat.tsx:286-293 | `checkSubmission` up to its answer; the object does what the step of the machine does |
| SubmissionObject.Chat.CheckAnswered | AI Centric Galaxy Tab S9/src/Chat.tsx:294-313 | The answer to a check, dropped if it is about another submission; the object does what the step of the machine does |
| SubmissionObject.Chat.PerformAll | AI Centric Galaxy Tab S9/src/Chat.tsx:207-318 | Any sequence of calls does what the run does; the object does what the step of the machine does |
| EventDelivery.ClientsSeeAPrefix | AI Centric Galaxy Tab S9/server/main.ts:578-624 | Over any run of appends, drops, expiries and reconnects a client's list is a gap-free, duplicate-free beginning of its conversation's log, in order |
| EventDelivery.LiveStreamsCatchUp | AI Centric Galaxy Tab S9/server/main.ts:599-612 | A live stream owes its client exactly what is in its pipe |
| EventDelivery.ReconnectingCatchesUp | AI Centric Galaxy Tab S9/src/App.tsx:327-344 | A reconnection after any interruption, its replay delivered, brings the client level with the log |
| EventDelivery.ConnectMeans | AI Centric Galaxy Tab S9/server/main.ts:578-624 | A stream is opened if and only if the client has loaded and has none and fewer than twelve are open; it starts behind the client's last event |
| EventDelivery.StreamsAreLimited | AI Centric Galaxy Tab S9/server/main.ts:578-580 | Over every run no more than twelve streams are open at a time |
| EventLog.PageThenRest | AI Centric Galaxy Tab S9/server/store.ts:213-220 | A page, and what the query gives after its last row, are together everything after the cursor; a page that is not full was the last |
| EventLog.OfMeans | AI Centric Galaxy Tab S9/server/store.ts:213-220 | Everything after a cursor: exactly the conversation's later events |
| EventLog.OfResumes | AI Centric Galaxy Tab S9/server/main.ts:583-589 | Resuming from the last event received gives exactly the rest |
| EventLog.EventStore.Append | AI Centric Galaxy Tab S9/server/store.ts:193-212 | A new event takes the next number and is returned as stored |
| EventLog.EventStore.Events | AI Centric Galaxy Tab S9/server/store.ts:213-220 | One page of the conversation's events after a cursor |
| EventLog.StreamHandler.Send | AI Centric Galaxy Tab S9/server/main.ts:599-606 | An event at or before the cursor is not written again |
| EventLog.StreamHandler.SendPage | AI Centric Galaxy Tab S9/server/main.ts:610-610 | A page is written in order |
| EventLog.StreamHandler.Replay | AI Centric Galaxy Tab S9/server/main.ts:607-611 | The do-while over pages writes every row after the cursor, once and in order, and leaves the cursor at the last |
| OneDriveWalk.Collect | AI Centric Galaxy Tab S9/server/onedrive.ts:525-598 | On success exactly the files reachable from the selection, each once, at most 50 files and 200 items and 25 MB; on failure a reason that holds: too deep, too many, hidden, too large, nothing there, more than 25 MB in all, or an item missing or a request refused; a selection about which none of these holds is collected |
| OneDriveWalk.WalkAll | AI Centric Galaxy Tab S9/server/onedrive.ts:594-594 | Walking the whole selection visits exactly what is reachable from it |
| OneDriveWalk.Walker.Walk | AI Centric Galaxy Tab S9/server/onedrive.ts:554-593 | One call of the walk: ends in any graph, leaves everything new closed under children, and fails only for a reason |
| OneDriveWalk.Walker.WalkFolder | AI Centric Galaxy Tab S9/server/onedrive.ts:572-578 | A folder's children, page by page |
| OneDriveWalk.Walker.TakeFile | AI Centric Galaxy Tab S9/server/onedrive.ts:579-592 | A file is taken, or refused by its name, size or number |
| OneDriveWalk.ClosedHoldsTrails | AI Centric Galaxy Tab S9/server/onedrive.ts:572-578 | A set closed under children that holds the selection holds everything reachable |
| AccountSlots.SlotsStayConsistent | AI Centric Galaxy Tab S9/server/onedrive.ts:235-331 | In every reachable state identities are pairwise distinct, connected means an identity, disconnected or removed means none, and connecting means a pending request |
| AccountSlots.LateAnswersChangeNothing | AI Centric Galaxy Tab S9/server/onedrive.ts:264-303 | The answer of a cancelled or replaced sign-in changes nothing, however late it comes and whatever it says |
| AccountSlots.NeverCurrentAgain | AI Centric Galaxy Tab S9/server/onedrive.ts:265-266 | A request that is no longer its slot's sign-in never becomes it again |
| AccountSlots.DisconnectCancels | AI Centric Galaxy Tab S9/server/onedrive.ts:306-328 | After a disconnect no later answer connects the slot |
| AccountOutcomes.SignInsEndAsAnswered | AI Centric Galaxy Tab S9/server/onedrive.ts:235-303 | A sign-in that nothing gives up ends as answered, whatever happens in between: connected under an identity no other slot holds, and otherwise as before with an error; no other slot changes |
| AccountOutcomes.ConnectMeans | AI Centric Galaxy Tab S9/server/onedrive.ts:235-263 | A sign-in starts if and only if the slot is there, not removed and not waiting; it keeps the identity and waits for a new request |
| AccountOutcomes.DisconnectMeans | AI Centric Galaxy Tab S9/server/onedrive.ts:306-331 | A disconnected or removed slot has no identity, sign-in or error, and every other slot is as before |
| AccountOutcomes.AddMeans | AI Centric Galaxy Tab S9/server/onedrive.ts:159-175 | The lowest removed slot comes back, disconnected |
| AccountOutcomes.RestartMeans | AI Centric Galaxy Tab S9/server/store.ts:241-245 | A new process keeps every identity and waits for nothing; connecting becomes connected or disconnected by whether there is an identity |
| AccountSlotsObject.OneDriveAccounts.Add | AI Centric Galaxy Tab S9/server/onedrive.ts:159-175 | The first removed slot is offered again; the object does what the step of the slot machine does |
| AccountSlotsObject.OneDriveAccounts.Connect | AI Centric Galaxy Tab S9/server/onedrive.ts:235-305 | A sign-in begins unless one is waiting; the object does what the step of the slot machine does |
| AccountSlotsObject.OneDriveAccounts.Answered | AI Centric Galaxy Tab S9/server/onedrive.ts:264-303 | The answer to a sign-in: ignored, refused as a duplicate, or connected; the object does what the step of the slot machine does |
| AccountSlotsObject.OneDriveAccounts.Disconnect | AI Centric Galaxy Tab S9/server/onedrive.ts:306-331 | The slot loses its identity and its sign-in; the object does what the step of the slot machine does |
| AccountSlotsObject.OneDriveAccounts.Rejected | AI Centric Galaxy Tab S9/server/onedrive.ts:282-303 | A failed sign-in; the object does what the step of the slot machine does |
| AccountSlotsObject.OneDriveAccounts.Restart | AI Centric Galaxy Tab S9/server/store.ts:241-245 | The rows after a restart, one by one; the object does what the step of the slot machine does |
| AccountSlotsObject.OneDriveAccounts.PerformAll | AI Centric Galaxy Tab S9/server/onedrive.ts:159-331 | Any sequence of calls does what the run does and keeps the slots consistent; the object does what the step of the slot machine does |
| Drafts.ManifestsFollowHead | AI Centric Galaxy Tab S9/server/files.ts:198-233 | At every step each manifest holds the digest of HEAD on exactly the same paths |
| Drafts.EntriesCompareWithHead | AI Centric Galaxy Tab S9/server/files.ts:241-280 | An entry is listed if and only if draft and HEAD differ, and flags a conflict if and only if working file and HEAD differ |
| Drafts.NewDraftHasNoChanges | AI Centric Galaxy Tab S9/server/files.ts:198-233 | A new draft lists nothing |
| Drafts.ApplyIsGuardedAndLocal | AI Centric Galaxy Tab S9/server/files.ts:281-306 | A change is applied if and only if the draft is within the limits and it is a reviewable text that differs from HEAD over a working file that still is what HEAD has; then file, draft, HEAD and manifest agree on it and every other file and entry is untouched |
| Drafts.ApplyFlagsOtherDrafts | AI Centric Galaxy Tab S9/server/files.ts:261-276 | In another draft an entry for the applied path flags a conflict unless that draft's HEAD holds the same content |
| Drafts.InstallAddsNoChange | AI Centric Galaxy Tab S9/server/materials.ts:107-149 | Installing material keeps every manifest, adds no entry to any draft and leaves every other entry alone |
| Drafts.BatchIsPlaced | AI Centric Galaxy Tab S9/server/materials.ts:94-134 | A batch goes into its own folder: every prepared file is there under its name, and nothing else came |
| Drafts.WorkingFilesChangeOnlyByApplication | AI Centric Galaxy Tab S9/server/files.ts:281-306 | Apart from outside edits, a working file changes only by being applied over what HEAD had |
| DraftReview.ReviewableMeans | AI Centric Galaxy Tab S9/server/files.ts:263-268 | A file is reviewed as text if and only if it has no zero byte, is shorter than half a million bytes and is no Word or PDF file by its extension, in any case |
| DraftReview.ExtensionMeans | AI Centric Galaxy Tab S9/server/files.ts:263-268 | The extension is what follows the last dot of the last segment, if something of a name comes before it |
| DraftReview.MaterialMeans | AI Centric Galaxy Tab S9/server/materials.ts:95-105 | Everything prepared counts as a document but the index and extracted text |
| DraftReview.PlacedMeans | AI Centric Galaxy Tab S9/server/materials.ts:131-134 | What is placed is exactly the prepared files, each under the batch folder's name and its own |
| DraftReview.CreateMeans | AI Centric Galaxy Tab S9/server/files.ts:198-233 | A draft begins as a committed copy of the working files if and only if there was none and they are within the limits |
| DraftsObject.Workspace.Inventory | AI Centric Galaxy Tab S9/server/files.ts:179-197 | Every path, or a refusal if and only if there are more than 2,000 files or 60 MB |
| DraftsObject.Workspace.CreateDraft | AI Centric Galaxy Tab S9/server/files.ts:198-233 | A copy of every working file with its digest, if and only if there is no draft yet and the folder is within the limits |
| DraftsObject.Workspace.Changes | AI Centric Galaxy Tab S9/server/files.ts:241-280 | One entry for each path that has one, and no other; a failure if and only if the draft exceeds the limits of `inventory` |
| DraftsObject.Workspace.ChangeFor | AI Centric Galaxy Tab S9/server/files.ts:253-277 | The entry of one path, or none |
| DraftsObject.Workspace.ApplyLocalChange | AI Centric Galaxy Tab S9/server/files.ts:281-306 | Each refusal with its reason, and otherwise the application step |
| DraftsObject.Workspace.CheckpointDraft | AI Centric Galaxy Tab S9/server/files.ts:307-327 | HEAD and manifest take the draft's content of one path |
| DraftsObject.Workspace.TooMuch | AI Centric Galaxy Tab S9/server/materials.ts:95-105 | More than 50 documents or 50 MB |
| DraftsObject.Workspace.Place | AI Centric Galaxy Tab S9/server/materials.ts:131-134 | Every prepared file under its name in the batch folder |
| DraftsObject.Workspace.Extend | AI Centric Galaxy Tab S9/server/materials.ts:117-149 | Source, draft, HEAD and manifest extended together |
| DraftsObject.Workspace.InstallMaterials | AI Centric Galaxy Tab S9/server/materials.ts:81-149 | A batch added to everything at once, if and only if it is within the limits |
| TabletResults.OneGuardedWrite | AI Centric Galaxy Tab S9/server/tablet.ts:620-649 | Over all runs and crashes an action issues at most one device write in each direction, immediately after the device read as the change was reviewed; an undo only after the change was read back |
| TabletDecisions.NoWriteWithoutDecision | AI Centric Galaxy Tab S9/server/tablet.ts:576-644 | Over every run a change is written only after an unexpired apply made while it was open, and written back only after an undo made while it was applied |
| TabletDecisions.DeclinedIsNeverWritten | AI Centric Galaxy Tab S9/server/tablet.ts:609-612 | What is declined was never written and never will be, whatever follows |
| TabletDecisions.DecideMeans | AI Centric Galaxy Tab S9/server/tablet.ts:586-618 | A decision itself writes nothing: an open change is taken up, declined or, if expired, stale; an applied one is taken up for undoing; otherwise nothing happens |
| TabletDecisions.ProposeMeans | AI Centric Galaxy Tab S9/server/tablet.ts:512-575 | A proposal is recorded if and only if the value is supported and different and no equal proposal is open and recent |
| TabletDecisions.HowADecisionEnds | AI Centric Galaxy Tab S9/server/tablet.ts:620-672 | A decision under way ends as it was before the first read, stale if the value had changed, applied or undone if the device confirms it, and uncertain in every other case |
| TabletResults.RecordedAfterReadBack | AI Centric Galaxy Tab S9/server/tablet.ts:643-661 | `applied` and `undone` are recorded only after the write and a read-back of the wanted value |
| TabletResults.FinalStaysFinal | AI Centric Galaxy Tab S9/server/tablet.ts:587-598 | Declined, stale, undone and uncertain are final in every run |
| TabletResults.CrashLeavesNothingUnderWay | AI Centric Galaxy Tab S9/server/store.ts:221-226 | After a crash nothing under way is left: it is uncertain |
| TabletResults.UndoingInReverseRestores | AI Centric Galaxy Tab S9/server/tablet.ts:619-662 | With no outside change, applying any reviewed changes and undoing them in reverse order restores every setting |
| TabletUndo.UndoingAllRestores | AI Centric Galaxy Tab S9/server/tablet.ts:576-673 | Over every run without outside changes and lost writes, in whatever order changes are proposed, applied, declined, found stale, undone or cut short after their write: once every written change of a setting has been written back, it has its first value again |
| TabletUndo.DeviceFollowsWrites | AI Centric Galaxy Tab S9/server/tablet.ts:639-649 | At any other time with nothing on its way the setting has the value of its last write |
| TabletResults.CleanChange | AI Centric Galaxy Tab S9/server/tablet.ts:619-662 | An undisturbed decision changes its own setting to the wanted value and nothing else |
| TabletResults.RunKeeps | AI Centric Galaxy Tab S9/server/tablet.ts:512-673 | The invariant that ties statuses to what was exchanged with the device, over every run |
| TabletObject.Host.Propose | AI Centric Galaxy Tab S9/server/tablet.ts:512-575 | A proposal, unless the value is not supported, nothing would change, or an equal proposal is open and recent; the object does what the step of the machine does |
| TabletObject.Host.Decide | AI Centric Galaxy Tab S9/server/tablet.ts:576-618 | `decide` up to its first await; the object does what the step of the machine does |
| TabletObject.Host.Connected | AI Centric Galaxy Tab S9/server/tablet.ts:620-621 | The connection check; the object does what the step of the machine does |
| TabletObject.Host.CurrentRead | AI Centric Galaxy Tab S9/server/tablet.ts:622-649 | The answer to the read before the write, and the command that is sent; the object does what the step of the machine does |
| TabletObject.Host.WriteReturned | AI Centric Galaxy Tab S9/server/tablet.ts:644-672 | The end of the write; the object does what the step of the machine does |
| TabletObject.Host.ReadBackReturned | AI Centric Galaxy Tab S9/server/tablet.ts:650-672 | The answer to the read after the write; the object does what the step of the machine does |
| TabletObject.Host.Recover | AI Centric Galaxy Tab S9/server/store.ts:221-226 | The rows after a restart, one at a time; the object does what the step of the machine does |
| TabletObject.Host.PerformAll | AI Centric Galaxy Tab S9/server/tablet.ts:512-673 | Any sequence of calls that is answered truthfully does what the run does; the object does what the step of the machine does |
| OfficeTextExtraction.Extract | AI Centric Galaxy Tab S9/server/office-text.py:14-128 | For every limit: where every part can be read the text is the first `limit` characters of the unlimited rendering and `truncated` says exactly whether there was more; a part that cannot be read is an error unless the text was full by then, which is then marked truncated |
| OfficeTextExtraction.Extractor.Add | AI Centric Galaxy Tab S9/server/office-text.py:54-60 | A chunk cut to what is left: the text stays the start of the rendering and a loss is noticed |
| OfficeTextExtraction.Extractor.AddRows | AI Centric Galaxy Tab S9/server/office-text.py:80-98 | The rows of a sheet with their early break and the line after them |
| OfficeTextExtraction.Extractor.AddSheets | AI Centric Galaxy Tab S9/server/office-text.py:71-98 | The sheets with their early break |
| OfficeTextExtraction.Extractor.AddSheet | AI Centric Galaxy Tab S9/server/office-text.py:75-98 | One sheet, worksheets and others |
| OfficeTextExtraction.Extractor.AddCells | AI Centric Galaxy Tab S9/server/office-text.py:84-97 | The cells of a row; a bad shared string index is an error |
| OfficeTextExtraction.Extractor.AddSlide | AI Centric Galaxy Tab S9/server/office-text.py:110-125 | One slide with its paragraphs, or the remark that there are none, and its notes |
| OfficeTextExtraction.Extractor.AddSlides | AI Centric Galaxy Tab S9/server/office-text.py:106-125 | The slides with their early break |
| OfficeText.SkipFollows | AI Centric Galaxy Tab S9/server/office-text.py:81-83 | Once the text is full, whatever is skipped cannot change it |
| OfficeText.SkipIsExact | AI Centric Galaxy Tab S9/server/office-text.py:72-74 | Skipping something visible or broken is a truncation |
| OfficeContents.ReadThrough | AI Centric Galaxy Tab S9/server/office-text.py:71-127 | A document is read through if and only if it has a sheet or slide, each is readable, and every shared string is in the table |
| OfficeContents.SheetsAreIntroduced | AI Centric Galaxy Tab S9/server/office-text.py:63-79 | The rendering of a workbook grows by each sheet's heading and an empty line, or by the remark about another type |
| OfficeContents.CellsAddTheirLines | AI Centric Galaxy Tab S9/server/office-text.py:84-98 | One more cell adds its line behind all before it: reference, stored, shared, inline or truth value, and the remark about a formula |
| OfficeContents.SlidesAddTheirText | AI Centric Galaxy Tab S9/server/office-text.py:106-125 | One more slide adds its number in decimal, whether it is hidden, its paragraphs or that it has none, its notes and an empty line |
| OtaContainer.ParseMeans | appliance/verify_ota.py:28-49 | Parsing accepts exactly the well-formed containers, each as its own content, padding and signature |
| OtaContainer.ParsedIsBuilt | appliance/verify_ota.py:38-49 | Signed content, the two-byte length and the comment concatenate to the whole archive |
| OtaContainer.BuiltParses | appliance/verify_ota.py:28-49 | Parsing an archive built from content, padding and signature returns them if and only if the signature is there and the marker starts the record and occurs nowhere later |
| OtaContainer.MarkerOccursOnce | appliance/verify_ota.py:43-44 | The end-of-central-directory marker occurs once in the tail, the unsearched offsets one to three included |
| OtaContainer.Le16RoundTrip | appliance/verify_ota.py:35-35 | Sixteen-bit little-endian numbers read back as written, both ways |
| OtaVerifier.Copy | appliance/verify_ota.py:53-64 | The chunked loop writes exactly the signed prefix, and every byte is hashed |
| OtaVerifier.Verify | appliance/verify_ota.py:19-74 | Accepted if and only if the certificate is the pinned one, the container parses and the signature check holds of its content |
| DocumentLinks.RewrittenResolvesBack | AI Centric Galaxy Tab S9/src/document-links.ts:2-15 | Resolving a rewritten citation from any report gives its path back if and only if the path has no leading slash and no dot segments |
| DocumentLinks.RewritingPreservesMeaning | AI Centric Galaxy Tab S9/src/chat-content.ts:11-28 | A rewritten citation leads from any report where the original led from the root, if and only if that path has no leading slash and no dot segments |
| DocumentLinks.RewritingTwice | AI Centric Galaxy Tab S9/src/chat-content.ts:11-28 | Rewriting twice equals rewriting once if and only if there was nothing to rewrite or the path has a leading slash or no dot segments |
| DocumentLinks.HiddenDotsMove | AI Centric Galaxy Tab S9/src/document-links.ts:9-11 | A concrete citation whose percent-encoded slash hides a dot segment from the first resolution only |
| RelativeLinks.RelativeReferencesClimb | AI Centric Galaxy Tab S9/src/document-links.ts:8-11 | From any report a path with any number of `..` before it leads into the folder that many levels above the report's, and never above the root |
| RelativeLinks.SiblingLinks | AI Centric Galaxy Tab S9/src/document-links.ts:8-11 | A plain relative path leads to folder + "/" + path from a report in that folder |
| RelativeLinks.ParentLinks | AI Centric Galaxy Tab S9/src/document-links.ts:8-11 | With `..` in front it leads into the parent folder, and stays at the root when there is none |
| RelativeLinks.QueriesAndFragmentsDoNotMatter | AI Centric Galaxy Tab S9/src/document-links.ts:9-11 | What follows a question mark or a number sign does not change where an encoded reference leads |
| RelativeLinks.FragmentsLeadToTheReport | AI Centric Galaxy Tab S9/src/document-links.ts:9-11 | A fragment alone leads to the report itself |
| RelativeLinks.BlanksDoNotMatter | AI Centric Galaxy Tab S9/src/document-links.ts:9-11 | Blanks around a reference do not matter |
| RelativeLinks.TabsDoNotMatter | AI Centric Galaxy Tab S9/src/document-links.ts:9-11 | Tabs and line breaks anywhere in a reference do not matter |
| RelativeLinks.BackslashesAreSlashes | AI Centric Galaxy Tab S9/src/document-links.ts:9-11 | A backslash in a path is a slash |
| RelativeLinks.SchemesLeadElsewhere | AI Centric Galaxy Tab S9/src/document-links.ts:9-11 | Where a reference with a scheme leads does not depend on the report |
| RelativeLinks.AuthoritiesAreTold | AI Centric Galaxy Tab S9/src/document-links.ts:9-11 | Two slashes name an authority: a path on one of the workspace's own is taken from the root, any other leads nowhere |
| RelativeLinks.ForeignCitationsStay | AI Centric Galaxy Tab S9/src/chat-content.ts:15-18 | Fragments, references with a scheme and references to an authority are not rewritten |
| RelativeLinks.PlainCitationsAreRooted | AI Centric Galaxy Tab S9/src/chat-content.ts:19-21 | A plain relative citation becomes the same path from the root |
| LinkText.DotsDecode | AI Centric Galaxy Tab S9/src/document-links.ts:9-11 | A segment is a dot segment, in whichever spelling, if and only if it decodes to one |
| LinkText.EncodedAlone | AI Centric Galaxy Tab S9/src/chat-content.ts:21-21 | Encoding leaves exactly the letters, the digits and nine marks alone |
| LinkText.DecodeEncode | AI Centric Galaxy Tab S9/src/chat-content.ts:21-21 | Decoding percent-encoded text gives it back, whatever follows (section 2.1 of RFC 3986) |
| LinkText.EncodedDots | AI Centric Galaxy Tab S9/src/document-links.ts:8-9 | An encoded segment is a dot segment exactly when the segment is one |
| LinkText.SplitJoin | AI Centric Galaxy Tab S9/src/document-links.ts:8-8 | Splitting joined segments gives them back |
| DocumentLinks.UndottedHasNoDots | AI Centric Galaxy Tab S9/src/document-links.ts:9-11 | Removing dot segments (section 5.2.4 of RFC 3986) leaves none |
| ChatContent.Node.Visit | AI Centric Galaxy Tab S9/src/chat-content.ts:13-25 | Every link and definition of the tree is rewritten exactly once, in place, and nothing else |

## Left out

- Recovery: the exit of the save loop and the `.finally` that deletes its entry are one step, so a write between the two, which would not be persisted, is not modelled.
- Recovery: a key is one of a set of recognised keys with a kind; the lookups of `validKey` and the field limits of a draft beyond its kind are not spelled out. `enabled()` is always true, as in a browser.
- RecoveryResults.ConfirmedIsDurable: direct invalidation is allowed only on a key without an unanswered load and without a save loop; what happens otherwise is stated by the invalidation lemmas.
- RecoveryResults.SaveLoopEnds: counts moves of the loop; that every request is answered or timed out is the browser's timeout, not modelled as time.
- Product memory: key components contain no colon; slugs are over ASCII letters; timestamps, display names, codenames, form factors, lessons, guidance, the build label and the JSON file itself are not part of this model.
- ProductLedger.ObservationsAreConserved: that every history stays within 20 is part of the version's balance; the contents of full histories beyond their newest entry are not tracked.
- Turn host: redaction, titles, project kinds, the instructions and sandbox of a turn and the ten-minute timer (which only calls `stop`) are not part of this model.
- AgentHostObject.Host.StopResolved: what a worker was asked is answered or rejected before its stop resolves, and it emits nothing after that; the half second between the two signals is not measured.
- AgentHostResults.LifetimesNeverOverlap: a host restart forgets its worker; that the process is gone by then is not claimed.
- Chat: sending is modelled for one page on an existing conversation; the creation of a conversation, which moves the draft to its key, and a second tab on the same draft are left out. The draft itself survives a reload, as the recovery protocol has it.
- Events: JSON encoding, redaction and truncation of an event are taken as done once, when it is stored; the ten-second heartbeat writes nothing that counts.
- OneDriveWalk.Collect: whether a name may be taken and how large a file may be are attributes of the file; the drive and the identities do not change during the walk; the downloads after the walk are not part of this model.
- OneDrive: the fourth, host-linked connection, token caches, page cursors and the snapshot path of `save` are not part of this model. The `then`, `catch` and `finally` of a sign-in run as one step.
- Drafts: the digest is injective; a check and the write it guards are one step, and so are a commit and the manifest after it; hidden paths and refused paths are outside the maps; the patch text of a change is its before and after; the rows of imported sources are not part of this model.
- Tablet: there is one device, so the serial number is not compared; which values are supported and which proposals are younger than fifteen minutes is given with the step.
- TabletResults.UndoingInReverseRestores: speaks of one schedule whose answers all arrive, and that it is not refused; every other order is TabletUndo.UndoingAllRestores, which does not say that an undo is accepted.
- Office text: the archive's limits, its relationships and XML parsing are reduced to parts that can or cannot be read; the fixed sentences are arbitrary text.
- OTA: OpenSSL's two answers, whether the certificate is the pinned one and whether the signature is good, are parameters; the archive does not change while it is read, so a truncated read cannot happen.
- LinkText.Decode: text is UTF-8 octets; that ill-formed UTF-8 is refused by `decodeURIComponent` is not modelled.
- DocumentLinks.DocumentLink: which authorities are the workspace's own, and where a reference with a scheme leads, are parameters.
- Markdown parsing and printing: the tree of an answer is given.
- Blocker classification, policy gates, worker routing, planner text and scoring: single-branch members that would add nothing hard.
