# srosha, modelled and proved

srosha accepts a message from a source, stores it with one delivery per recipient, sends
each delivery through a provider, and tells the source once how it all went. This project
models the parts of it whose correctness spans several functions, several processes or a
whole run, and proves what the code's comments and documentation promise of them.

The pattern is the same throughout. Shared rows are a table, and a SQL statement is one atomic
function on it. A process is a worker that moves by single statements and holds, in between,
only its own stale copy. A run is any interleaving of any number of them, with store failures
(a statement that fails may or may not have been applied), crashes and the clock as further
actions; an action that is not enabled changes nothing. Safety is proved of every run by an
invariant, and the program as written, a class whose methods follow the Go, is proved to do
exactly what one worker of that machine does when left alone. Where the code is not a protocol
its loops and objects are methods and classes, proved against a specification whose own
properties are proved beside it.

| file | what it is about |
|---|---|
| `Basics.dfy` | options and results, runs of a machine, texts cut at a separator, what `ORDER BY id` means |
| `Deliveries.dfy` | the deliveries table, its statements and its repository |
| `Worker.dfy`, `Protocol.dfy`, `DispatchSafety.dfy` | the dispatch protocol, its invariant and what follows from it |
| `Leases.dfy` | two sweeps and one row: when the lease is exclusive, and the run in which it is not |
| `Recovery.dfy` | recovery over many sweeps: every delivery's turn comes |
| `Dispatcher.dfy`, `Consumer.dfy` | the dispatcher and the broker's consumer as written |
| `Submit.dfy`, `SubmitSafety.dfy`, `Origins.dfy`, `Submitter.dfy` | idempotent acceptance under concurrent retries, where what is stored comes from, and the submitter as written |
| `Transactions.dfy` | units of work that are begun or joined |
| `Base64Url.dfy`, `Keyring.dfy`, `Keeper.dfy` | sealed values, key rotation, and the store of secrets as a plain map |
| `RateLimit.dfy` | token buckets, their bound from both sides, and the sweep nobody can see |
| `Credentials.dfy`, `Defaults.dfy` | choosing a sending identity; one active default per channel |
| `Paging.dfy` | keyset pages and the SDK's walk over them |
| `Shutdown.dfy` | closing by tier, newest first |
| `Callback.dfy` | signing a callback and verifying it |
| `Alert.dfy` | the bounded alert queue and its drain |
| `AppleTokens.dfy` | provider tokens and the cache of their sources |

`dafny verify dfyconfig.toml` checks all of it.

## Where the code and its words differ

Each of these is proved, with the input or run that shows it and the exact condition where there is one.

- **A release is by id alone**, and the broker's path calls it too (`dispatch.go:221`). A release of
  a row that somebody else holds opens it, and a third worker takes it inside the lease:
  `Leases.BrokerReleaseBreaksTheLease`. The lease outlives a release if and only if that release
  is not such a one: after any that is, sweeps at the same moment can come to share a row.
- **The limiter reads the clock before it takes its lock**, so readings can arrive out of order.
  Then a stretch of time is earned each time it is crossed, and no number bounds what is granted
  inside half a minute: `RateLimit.NoBoundWhenReadingsGoBack`. What holds is the bound with every
  step back added to the window, and a call is granted if and only if it keeps to what its
  source's own granted readings earned. And a reading older than the last sweep can meet a bucket
  that was dropped as full and was not yet full by that reading; then the sweep shows. The first
  reading behind a sweep shows exactly then, and nothing shows in a run without one, even if
  readings go back.
- **Purging a message frees its key**: the same request sent again is then accepted as new. Nothing
  else does, whatever else is purged: a call that was not past its own commit while the message
  was there is answered as new only after that very message was purged.
- **The shutdown step "schema" has no close function.** `Close` panics at it, with everything that
  comes later in the order still open, and a second `Close` closes everything before it again.
- **A callback signed more than 292 years ahead is fresh**: the difference saturates, and negating
  the least duration gives it back. A tolerance of the longest duration accepts everything.
- **A joined unit of work that fails undoes nothing by itself**; only the outermost one does.
- **The cache of Apple token sources is emptied when it is full**: an identity that comes back
  after that signs at once, inside the twenty minutes Apple asks for. An identity with a fresh
  token signs again after one action if and only if that action opened another one on a full
  cache with this one in it, or threw its token away.
- **A move of the default whose clear had to wait may clear nothing**: it matched the default it
  saw when it began. The move then succeeds if and only if nobody else became the default.

## Model

| member | source | states |
|---|---|---|
| `DispatchSafety.FirstOutcomeWins` | `internal/adapter/db/postgres/delivery.go:185-210` | In every run a delivery leaves PENDING once; afterwards its outcome never changes, and a purged delivery never comes back |
| `DispatchSafety.OneTrueCallback` | `internal/core/usecase/dispatch.go:256-343` | In every interleaving at most one callback is attempted per message; from then on, in every later state, all its deliveries have settled, each stored one is listed, and its result has the channel, address, status, reason, provider id and settled time of its row |
| `DispatchSafety.NoCallbackIsLost` | `internal/core/usecase/dispatch.go:184-187` | In every run, whatever fails or crashes elsewhere: once all of a message has settled its announcement is taken or some worker is on its way to take it, unless a write, list or claim for this message failed at the one moment it mattered, its webhook was not active, or its own announcer crashed |
| `DispatchSafety.MishapsAreTheirOwn` | `internal/core/usecase/dispatch.go:256-302` | The messages left out are exactly those in whose run a settling write was applied and not acknowledged, their list or claim failed when it mattered, their webhook was not active, or a worker announcing them crashed |
| `DispatchSafety.ExactlyOneCallback` | `internal/core/usecase/dispatch.go:266-311` | In every run, once nobody is announcing a settled message any more, exactly one callback was attempted for it, under the same exception about that message alone |
| `DispatchSafety.NilMeansSettled` | `internal/core/usecase/dispatch.go:77-103` | A handler that answered nil did so for a delivery that has settled or is gone, then and in every later state |
| `DispatchSafety.LastChanceSettles` | `internal/core/usecase/dispatch.go:191-228` | In every run, an attempt at the delivery limit, or by a sweep with a copy older than give-up when it read the clock, that met no store error and no failed lookup leaves the delivery settled whatever the provider answered |
| `DispatchSafety.RecordIs` | `internal/core/usecase/dispatch.go:143-254` | An attempt is on record as clean exactly when the step that ended it met no failed read, lookup, write, list or claim; any such failure ends it; and the record names its delivery, its copy and its last chance |
| `DispatchSafety.NothingIsStuck` | `internal/adapter/db/postgres/delivery.go:88-111` | In every reachable state a pending delivery is taken by any sweep past its age and past one lease from now, or that sweep is full of older ones |
| `Recovery.EnoughSweepsSettle` | `internal/core/usecase/dispatch.go:105-136` | With n pending deliveries not younger than a delivery, n / batch undisturbed sweeps past its give-up and a lease apart settle it, whatever the providers answer |
| `Recovery.OneRunHelps` | `internal/adapter/db/postgres/queries/delivery.sql:49-61` | Each such sweep settles it or a whole batch of those before it |
| `DispatchSafety.RunKeepsInv` | `internal/core/usecase/dispatch.go:83-326` | The invariant of the protocol, over what each worker knows in each phase, is kept by every run, and committed outcomes evolve only one way |
| `DispatchSafety.RunLosesNone` | `internal/core/usecase/dispatch.go:230-239` | Every run keeps some announcer on the way for each settled message that is not yet announced and has met no mishap of its own |
| `Protocol.ApplyKeepsInv` | `internal/core/usecase/dispatch.go:143-189` | Each single action, of any worker or of the environment, keeps the invariant |
| `Protocol.ApplyLosesNone` | `internal/core/usecase/dispatch.go:266-302` | Each single action, failures and crashes included, loses no callback but of the message it is a mishap of |
| `Protocol.WhoSettles` | `internal/core/usecase/dispatch.go:230-239` | The worker whose write settles a delivery is itself on the way to announce its message, unless that write met a mishap |
| `Protocol.StepLosesNoMessage` | `internal/core/usecase/dispatch.go:278-283` | After a step every settled message without a mishap is taken, or somebody is on the way to announce it |
| `Protocol.StepLosesNoClaim` | `internal/core/usecase/dispatch.go:290-302` | A taken announcement stays with a worker about to notify until it is sent |
| `Protocol.ClaimKeepsWorker` | `internal/adapter/db/postgres/delivery.go:118-130` | After the announcement's test-and-set whoever is about to notify is the one on record, and nobody has before |
| `Protocol.FaithfulIsTruthful` | `internal/core/usecase/dispatch.go:328-343` | A list in which everything has settled makes a callback that agrees with the rows |
| `Leases.LeaseIsExclusive` | `internal/adapter/db/postgres/queries/delivery.sql:49-61` | Two sweeps never hold one pending row inside a lease, in every run in which no release takes the claim off a row that somebody else holds live, on either path |
| `Leases.StaysMarkedExactlyWhenAlone` | `internal/adapter/db/postgres/delivery.go:88-111` | Through a run the live claims stay the ones on the rows, each its holder's, if and only if every release in it is of a row nobody else holds live |
| `Leases.ReleaseIsSafeExactlyWhenAlone` | `internal/adapter/db/postgres/delivery.go:132-142` | One release keeps the claims on the rows true if and only if nobody else holds that row live |
| `Leases.LeaseOutlivesExactlyWhenAlone` | `internal/adapter/db/postgres/queries/delivery.sql:49-71` | For any batch above zero: after a run whose releases were alone, the lease stays exclusive whatever follows whose releases are alone too, if and only if the next action is not a release of a row that somebody else holds live |
| `Leases.TrespassBreaksTheLease` | `internal/core/usecase/dispatch.go:212-228` | After any run and any such release, sweeps that start and claim at the same moment come to hold one row live together |
| `Leases.LastClaimersReleaseAlone` | `internal/adapter/db/postgres/delivery.go:132-142` | Releases by whoever claimed the row last are all of rows nobody else holds live |
| `Leases.BrokerReleaseBreaksTheLease` | `internal/core/usecase/dispatch.go:212-228` | The assumption is needed: a concrete run with a release on the broker's path in which two sweeps hold one row live |
| `Dispatcher.AloneIsARun` | `internal/core/usecase/dispatch.go:138-228` | A worker left alone is a run of the protocol: same rows, same callbacks, same worker |
| `Dispatcher.SweptIsARun` | `internal/core/usecase/dispatch.go:105-136` | A whole sweep left alone is a run of the protocol: same rows, same callbacks, same worker |
| `Dispatcher.SweptFinishes` | `internal/core/usecase/dispatch.go:105-136` | A sweep ends with one attempt for each row it claimed, and well exactly when its claim was answered |
| `Dispatcher.AttemptRecordsTheVerdict` | `internal/core/usecase/dispatch.go:143-239` | From loaded copy to stored row: an undisturbed attempt stores exactly the status, reason, detail, provider id, count and time its answers call for, a transient refusal with time left stores nothing but the released claim, and the answer is ok exactly when an outcome was written |
| `Dispatcher.TellsExactlyWhen` | `internal/core/usecase/dispatch.go:256-302` | An undisturbed attempt that comes to an outcome attempts one callback, reporting every row of the message as it stands, if and only if that outcome completes the message, the webhook is active and nobody has announced it; and none otherwise |
| `Dispatcher.CutShortDoesNothing` | `internal/core/usecase/dispatch.go:143-176` | An attempt whose message or sender could not be looked up leaves every row as it was, tells nobody, and fails |
| `Dispatcher.FailedWriteTellsNobody` | `internal/core/usecase/dispatch.go:230-239` | When the write of the outcome fails nobody is told and the attempt fails; the row says what happened if the write was applied all the same |
| `Dispatcher.AttemptLeavesOthers` | `internal/core/usecase/dispatch.go:143-302` | Whatever its calls answer, an attempt writes to its own row and stamps the rows of its message, and to nothing else |
| `Dispatcher.SweepLeavesOthers` | `internal/core/usecase/dispatch.go:105-136` | A whole sweep leaves every row it did not claim as it was, but for stamps |
| `Dispatcher.AloneVouches` | `internal/core/usecase/dispatch.go:241-254` | An attempt answers ok only for a settled row, and an undisturbed last chance always answers ok |
| `Dispatcher.DrainGivesUp` | `internal/core/usecase/dispatch.go:122-134` | Every row of a sweep that is past give-up has settled at its end, whatever other rows met |
| `Dispatcher.Dispatcher.Handle` | `internal/core/usecase/dispatch.go:83-103` | Does to rows and callbacks what a worker left alone does; true only for a settled or absent row; at the limit always true; the row stores the verdict, which is EXPIRED exactly when the message has an expiry not after the clock reading; a callback goes out exactly when that completes the message; other rows stay; and nothing at all happens when the row or the lookups could not be read |
| `Dispatcher.Dispatcher.Recover` | `internal/core/usecase/dispatch.go:105-136` | Claims, then attempts every claimed row past failures; each row past give-up has settled at the end |
| `Dispatcher.Dispatcher.DeliverEach` | `internal/core/usecase/dispatch.go:122-134` | The loop of a sweep is the drain of a worker's list |
| `Dispatcher.Dispatcher.Deliver` | `internal/core/usecase/dispatch.go:143-189` | The one path out does what the worker does from a loaded row, and returns what it recorded |
| `Dispatcher.Dispatcher.SendFailed` | `internal/core/usecase/dispatch.go:191-228` | Unreachable, permanent and last-chance transient refusals are recorded; any other releases the claim and asks again |
| `Dispatcher.Dispatcher.Settle` | `internal/core/usecase/dispatch.go:241-254` | Writes the marked copy over a row that is still pending, and counts a copy or a row that had settled as settled; any other failure is one |
| `Dispatcher.Dispatcher.Record` | `internal/core/usecase/dispatch.go:230-254` | An outcome somebody else already wrote counts as success; any other store error does not |
| `Dispatcher.Dispatcher.Announce` | `internal/core/usecase/dispatch.go:256-302` | Announces only when every listed row has settled and a webhook is active, and never fails the attempt |
| `Dispatcher.Dispatcher.Claim` | `internal/core/usecase/dispatch.go:294-325` | Sends one batch exactly when the test-and-set was won |
| `Dispatcher.ResultsOf` | `internal/core/usecase/dispatch.go:328-343` | One result per delivery of the list, in its order, column by column what its row says |
| `Consumer.Consumer.Handle` | `internal/adapter/mq/nats/consumer.go:200-249` | Exactly one of ack, nak and term for every message; ack exactly when the handler answered nil, so only for a settled or absent delivery; at the delivery limit ack, unless a store call or the lookup failed |
| `Consumer.Consumer.Delay` | `internal/adapter/mq/nats/consumer.go:267-277` | The n-th failure waits the n-th interval, and the last one repeats |
| `Consumer.DelaysGrow` | `internal/adapter/mq/nats/consumer.go:279-287` | For any delivery limit above zero the table has as many of its four waits, 5 s, 30 s, 2 min and 10 min, as there can be attempts, and never shortens a wait |
| `Deliveries.TakesTheOldest` | `internal/adapter/db/postgres/queries/delivery.sql:53-59` | The claim uses up its limit or takes all there is, and every row taken is older than every row left |
| `Deliveries.ClaimTakesTheStale` | `internal/adapter/db/postgres/queries/delivery.sql:49-61` | The claim stamps and lists, up to its limit, pending rows past the age that are not claimed within the lease, and no others; and one of those that it leaves is younger than all it took |
| `Deliveries.ListHasEveryRow` | `internal/adapter/db/postgres/queries/delivery.sql:15-16` | The list of a message has exactly its rows, as they stand |
| `Deliveries.UpdateWritesTheOutcome` | `internal/adapter/db/postgres/queries/delivery.sql:105-113` | An outcome is written in six columns of one pending row, and every other column and row stays |
| `Ordering.InOrderAscends` | `internal/adapter/db/postgres/queries/notification.sql:52-63` | A listing has the ids of the set, ascending, or descending where it is asked to be |
| `Deliveries.InsertAdds` | `internal/adapter/db/postgres/queries/delivery.sql:7-10` | A copy adds each new row once and leaves every old row as it was |
| `Deliveries.DeliveryRepository.CreateByList` | `internal/adapter/db/postgres/delivery.go:30-63` | Succeeds exactly when every row was written; a short count is an error |
| `Deliveries.DeliveryRepository.ClaimStale` | `internal/adapter/db/postgres/delivery.go:88-111` | Stamps and returns the oldest claimable rows, and leaves their age alone |
| `Deliveries.DeliveryRepository.ClaimAnnouncement` | `internal/adapter/db/postgres/delivery.go:118-130` | True exactly when some row of the message had no stamp; afterwards all have |
| `Deliveries.DeliveryRepository.Release` | `internal/adapter/db/postgres/delivery.go:132-142` | Takes the claim off that row if it is pending, and changes nothing else |
| `Deliveries.DeliveryRepository.Update` | `internal/adapter/db/postgres/delivery.go:185-210` | Writes the outcome over a pending row and nowhere else, and says when another had been written |
| `Deliveries.DeliveryRepository.PageByNotificationID` | `internal/adapter/db/postgres/delivery.go:144-183` | The rows and the cursor of one page, from a listing one longer than the page |
| `SubmitSafety.OneMessagePerKey` | `internal/core/usecase/submit.go:82-167` | For every source and non-empty key and any interleaving of requests and purges that spares the message with this key: at most one message is committed for it, every successful answer names it truthfully, and at most one is not a duplicate |
| `SubmitSafety.LoserFindsTheWinner` | `internal/core/usecase/submit.go:145-156` | Whoever lost the race and reads back finds the one committed message, unless that message was purged |
| `SubmitSafety.RetriesAreNotRefused` | `internal/core/usecase/submit.go:125-131` | A used key is never an error while its own message is not purged and read backs for it do not fail |
| `SubmitSafety.PurgeForgetsTheKey` | `internal/adapter/db/postgres/notification.go:77-97` | For every request with a key there is a run in which it is accepted as new twice, with a purge in between |
| `SubmitSafety.SecondAcceptanceNeedsItsPurge` | `internal/adapter/db/postgres/queries/notification.sql:16-25` | After any run, purges included: once a message has the key, a call not yet past its own commit is answered as new only if that very message is purged in between |
| `SubmitSafety.RunKeepsHold` | `internal/adapter/db/postgres/queries/notification.sql:16-25` | In every run, purges included: committed keys are unique, and no two open transactions write one key or one id |
| `SubmitSafety.RunKeepsKey` | `internal/core/usecase/submit.go:145-167` | What every call for a key has learnt of its message stays true in every run that spares that message |
| `SubmitSafety.StoredWholeOrNotAtAll` | `internal/core/usecase/submit.go:113-143` | In every run, purges, failures and lost commits included: a stored message has exactly one delivery per recipient it was accepted for, no delivery is without its message, and every event published says what was true of a delivery once committed |
| `Origins.StoredAsAdmitted` | `internal/core/usecase/submit.go:82-143` | In every run each stored message goes back to a call: the source, key and priority of its request, the smaller of that priority and the ceiling the call was admitted with, written before its expiry, and one untried delivery for each recipient its routes resolved to, under the name given for its channel |
| `Origins.AnsweredAsAdmitted` | `internal/core/usecase/submit.go:137-143` | In every run a call answered as new is told that smaller priority, and that it was downgraded exactly when it asked for more than its ceiling |
| `Origins.PublishedAsStored` | `internal/core/usecase/submit.go:184-196` | In every run each event published has the channel of its delivery and the source and effective priority of its message, as stored at some moment of the run |
| `Origins.RunKeepsOrigins` | `internal/core/usecase/submit.go:113-124` | What every call carries, phase by phase, is what its own admission, resolution and write said |
| `SubmitSafety.RunKeepsWhole` | `internal/core/usecase/submit.go:116-124` | What open transactions have written fits the tables, and each other, in every run |
| `SubmitSafety.CommittedIsWhole` | `internal/adapter/db/postgres/delivery.go:30-63` | Committing one message whole keeps every message whole |
| `SubmitSafety.CommitLeavesOthers` | `migrations/00007_create_notifications.sql:44-46` | A commit changes nothing another call relies on, because the index kept their keys apart |
| `Submit.NewSet` | `internal/core/domain/delivery/entity.go:33-86` | Opens one pending delivery per recipient, in order, exactly when there is one at least, none repeats and all are valid |
| `Submitter.Submitter.Submit` | `internal/core/usecase/submit.go:82-143` | The program as written ends as one run of the machine; it answers as new exactly when the source was admitted, the key is free and everything looked up, checked and written succeeds; then note, rows, receipt and events are spelled out, with the smaller of priority and ceiling; a duplicate names the bearer and changes nothing; and an error stores nothing unless the commit was applied all the same |
| `Submitter.Submitter.Write` | `internal/core/usecase/submit.go:113-135` | The transaction stores both parts or neither, and tells the conflict from every other failure |
| `Submitter.WriteIs` | `internal/core/usecase/submit.go:113-124` | The transaction succeeds exactly when message, recipients, ids and statements all fit, and stores the message and one row per recipient beside what was there, or nothing |
| `Submitter.ValidMeansNotExpired` | `internal/core/domain/notification/entity.go:65-109` | What is let in at a moment is not expired at that moment, and what is kept out for its expiry alone is |
| `Submitter.Submitter.Raced` | `internal/core/usecase/submit.go:145-156` | Answers with the message read back, and with the conflict when it cannot be |
| `Submitter.Submitter.CheckSenders` | `internal/core/usecase/submit.go:169-182` | Passes exactly when every name given resolves on its channel; otherwise says of some entry that it does not, and why, or that the list could not be read |
| `Submitter.Submitter.GetByIdempotencyKey` | `internal/adapter/db/postgres/notification.go:149-164` | Never seen and could not look are different answers |
| `Submitter.Submitter.PublishEach` | `internal/core/usecase/submit.go:184-196` | Publishes after the commit, past failures, exactly what the broker heard |
| `Transactions.AllOrNothing` | `internal/adapter/db/postgres/postgres.go:64-94` | For every program that passes its errors on, however units of work are nested: nil means all its statements in order, an error means none, except a commit whose answer was lost |
| `Transactions.JoinedIsErased` | `internal/adapter/db/postgres/postgres.go:70-75` | Inside a unit of work every further one makes no difference |
| `Transactions.NothingIsUndoneInside` | `internal/adapter/db/postgres/postgres.go:72-75` | Inside, nothing already written is taken back, and an aborted transaction stays so |
| `Transactions.NoErrorIsEverything` | `internal/adapter/db/postgres/postgres.go:45-53` | Statements join the running transaction: without an error every one of them is in it, in order |
| `Transactions.SucceedsExactlyWhen` | `internal/adapter/db/postgres/postgres.go:64-94` | A unit of work begun answers nil if and only if no statement it ran failed, it came to no error of its own, and the commit was acknowledged |
| `Transactions.OutsideEachStandsAlone` | `internal/adapter/db/postgres/postgres.go:45-53` | With no unit of work each statement up to the first failure is stored for good, and the failed one too if its answer alone was lost |
| `Transactions.FailedStatementDoomsAll` | `internal/adapter/db/postgres/postgres.go:81-94` | In every body in which a statement that fails is reached, wherever it stands and whether its error is dropped or not, the unit of work ends with an error and stores nothing |
| `Transactions.DroppedFailureIsUndoneExactlyWhen` | `internal/adapter/db/postgres/postgres.go:73-75` | A joined failure whose error is dropped leaves nothing behind if and only if it wrote nothing or came from the database |
| `Transactions.DroppedFailureLeavesNothingExactlyWhen` | `internal/adapter/db/postgres/postgres.go:72-94` | The same told from the program: if and only if its first failing step is a statement, or no statement comes before it |
| `Transactions.DroppedFailureCanStore` | `internal/adapter/db/postgres/postgres.go:72-94` | A unit of work that stores nothing when begun stores its first half when joined by a caller that drops its error |
| `Transactions.Database.Run` | `internal/adapter/db/postgres/postgres.go:45-53` | The program with its transaction object does what the specification says of every program |
| `Transactions.Database.Begin` | `internal/adapter/db/postgres/postgres.go:72-94` | Joins a running transaction; else begins one, and commits only on nil |
| `Base64Url.RoundTrip` | `pkg/crypto/keyring.go:101-104` | Unpadded base64url decodes what it encoded, for all bytes |
| `Base64Url.EncodedIsLetters` | `pkg/crypto/keyring.go:80-105` | What it encodes has letters of its alphabet only, so never a dot |
| `Base64Url.KnownTexts` | `pkg/crypto/keyring.go:101-104` | Three texts of section 10 of RFC 4648, without padding, and the two letters of the URL alphabet |
| `Keyring.SplitUndoesJoin` | `pkg/crypto/keyring.go:164-189` | Fields without a dot come back from the joined value as they were |
| `Keyring.NewKeyring` | `pkg/crypto/keyring.go:34-78` | A keyring is made exactly from usable ids, keys of the right size and an active key among them, and each refusal says why |
| `Keyring.SealedIsReadBack` | `pkg/crypto/keyring.go:83-105` | A sealed value is read back as the four fields it was printed from |
| `Keyring.OpensWhereverTheKeyIs` | `pkg/crypto/keyring.go:107-162` | A sealed value opens to its plaintext in every keyring that holds its key, is refused by name in any other, and needs resealing exactly where another key is active |
| `Keyring.SealedText` | `pkg/crypto/keyring.go:83-105` | A value is stored as version, key id, nonce and ciphertext, in that order, with dots in between |
| `Keyring.OpensExactlyWhen` | `pkg/crypto/keyring.go:107-162` | Of any four fields, whoever wrote them: opened if and only if version, key, encodings, nonce size and cipher all agree; and which refusal it is otherwise |
| `Keeper.StoreIsAPlainMap` | `internal/adapter/secret/keeper.go:61-155` | After any interleaving of reads that reseal, rotations and switches, by processes with different active keys, every row opens in every process to the last secret added or replaced, and every read answered the secret that stood when it read |
| `Keeper.LastRotationStands` | `internal/adapter/db/postgres/credential.go:245-266` | In any run, after the last secret added or rotated in for an id, its row opens in every process to that secret, whatever reads were under way and reseal afterwards |
| `Keeper.ResealStandsForTheSame` | `internal/adapter/db/postgres/credential.go:121-144` | The compare-and-swap of a reseal stands for the same secret, whatever happened since the read |
| `Keeper.ActionMovesOnly` | `internal/adapter/db/postgres/queries/credential.sql:124-134` | No action changes an identity or its settings, only a switch of it changes whether it is on, and its sealed value moves only in its own rotation or reseal |
| `Keeper.RunMovesOnly` | `internal/adapter/db/postgres/queries/credential.sql:95-108` | Through every run a row keeps identity and settings, and is on or off as the last switch of it said |
| `Keeper.BindIsInjective` | `internal/adapter/secret/keeper.go:157-161` | A binding is for one identity only, as long as its parts hold no separator |
| `Keeper.MaterialIsWhatStands` | `internal/adapter/secret/keeper.go:96-122` | A read in any process answers what the plain map holds |
| `Keeper.ReadAloneIsARun` | `internal/adapter/secret/keeper.go:103-155` | A read as written is one run of the machine, with the same answer and rows |
| `Keeper.SealedOpens` | `internal/adapter/secret/keeper.go:67-78` | What one process seals, every process opens; an empty secret is stored as nothing |
| `Keeper.Keeper.Add` | `internal/adapter/secret/keeper.go:61-78` | Succeeds exactly when the id is new, sealing can draw its nonce and the write is acknowledged; the map holds the secret exactly when the write was applied, and otherwise nothing changes |
| `Keeper.Keeper.Replace` | `internal/adapter/secret/keeper.go:80-94` | Succeeds exactly on an active identity with a nonce at hand and an acknowledged write; then every process hands over the old settings with the new secret; the map holds it exactly when the write was applied; no other column and no other row moves |
| `Keeper.Keeper.Material` | `internal/adapter/secret/keeper.go:96-122` | Answers the settings and what the row opens to, also afterwards, or that it could not be read; resealing never changes the answer, fails nothing, leaves the value under the active key when it could, and changes nothing else |
| `Keeper.Keeper.Reseal` | `internal/adapter/secret/keeper.go:124-155` | Rewrites only over the value that was read, and only a value under another key |
| `RateLimit.SweepingIsInvisible` | `internal/adapter/ratelimit/memory.go:92-114` | For every call sequence in which no reading is older than the sweep before it, the limiter that drops full buckets answers as one that never does |
| `RateLimit.SweepingIsInvisibleInTime` | `internal/adapter/ratelimit/memory.go:76-90` | So for every call sequence whose readings do not go back |
| `RateLimit.FirstBehindShowsExactlyWhen` | `internal/adapter/ratelimit/memory.go:76-114` | A call after which nothing has shown yet is answered differently if and only if its source was dropped and, by its reading, the dropped bucket held no token; and then its reading is behind the last sweep |
| `RateLimit.SweepingShowsWhenTheClockGoesBack` | `internal/adapter/ratelimit/memory.go:76-90` | The assumption is needed: three calls, one with an older reading, that sweeping answers differently |
| `RateLimit.WindowBound` | `internal/adapter/ratelimit/memory.go:25-31` | With no reading behind a sweep, one source is granted at most quota + quota * (T + B) / minute calls with readings in a window of length T, B being how far its granted readings step back in all |
| `RateLimit.WindowBoundInTime` | `internal/adapter/ratelimit/memory.go:25-31` | So at most quota + quota * T / minute when the readings of the window do not go back |
| `RateLimit.NoBoundWhenReadingsGoBack` | `internal/adapter/ratelimit/memory.go:76-90` | The step back is needed: for every n, n calls with readings in one half minute, in turns, that are all granted on a quota of four |
| `RateLimit.GrantedExactlyWhen` | `internal/adapter/ratelimit/memory.go:66-90` | With no reading behind a sweep, a call is granted if and only if, counted from any earlier call, its source's grants with this one are no more than a full bucket and what their own readings earned |
| `RateLimit.GrantedExactlyWithinTheBound` | `internal/adapter/ratelimit/memory.go:66-90` | With readings that do not go back, a call is granted if and only if granting it keeps the bound in every window that ends with it |
| `RateLimit.RefusalSpendsNothing` | `internal/adapter/ratelimit/memory.go:86-90` | Leaving a refused call out changes no other answer, when with it and without it no reading is behind a sweep |
| `RateLimit.SourcesAreIndependent` | `internal/adapter/ratelimit/memory.go:79-90` | A source gets the answers it would get if nobody else ever called, when with the others and without them no reading is behind a sweep |
| `RateLimit.Memory.Allow` | `internal/adapter/ratelimit/memory.go:76-90` | The limiter's fields and answer after a call are those of the specification |
| `RateLimit.Memory.SweepFull` | `internal/adapter/ratelimit/memory.go:92-114` | Drops exactly the full buckets, and only when it is time |
| `RateLimit.NewMemory` | `internal/adapter/ratelimit/memory.go:45-64` | A quota that is not above zero is refused; a new limiter holds nothing |
| `Credentials.PickIgnoresOrder` | `internal/core/domain/credential/entity.go:118-153` | The choice depends on the set of identities and not on the order they are listed in |
| `Credentials.Pick` | `internal/core/domain/credential/entity.go:118-153` | The named identity or the active default; and which refusal when there is none |
| `Credentials.NamedChoiceIs` | `internal/adapter/sender/registry.go:223-252` | A message that names an identity goes out with that one, if it is active, and never with the service's own |
| `Credentials.UnnamedChoiceIs` | `internal/adapter/sender/registry.go:223-252` | A message that names none goes out with the channel's one default; the service's own identity stands in exactly when nothing is registered |
| `Credentials.ValidateName` | `internal/core/domain/credential/entity.go:155-175` | A name passes exactly when it is 1 to 32 of lower case letters, digits and hyphens |
| `Credentials.ListOnIs` | `internal/adapter/db/postgres/queries/credential.sql:27-31` | The list of a channel has each of its rows once, inactive ones too |
| `Defaults.AtMostOneDefault` | `internal/core/usecase/credential.go:107-219` | In every run of registrations, moves and switches by any number of callers: unique names, at most one default per channel, and that one active |
| `Defaults.NoMoveLosesTheDefault` | `internal/core/usecase/credential.go:196-219` | A channel that has a default keeps one at every moment, through moves and registrations that succeed or fail and switches of everything but the default itself |
| `Defaults.LosesTheDefaultExactlyWhen` | `internal/adapter/db/postgres/queries/credential.sql:95-108` | One action of anybody leaves the channel without its default if and only if it switches that very identity off |
| `Defaults.MoveTakesOver` | `internal/adapter/db/postgres/credential.go:222-243` | A committed move leaves the new default as the channel's only one, and nothing else changed |
| `Defaults.ApplyKeepsInv` | `internal/adapter/db/postgres/credential.go:297-316` | Each statement of each transaction keeps the table's rules and what other calls rely on |
| `Defaults.RegistersExactlyWhen` | `internal/core/usecase/credential.go:107-141` | Whoever is in between, a registration's insert succeeds if and only if id and name are free and, if it is to be the default, its clear has missed none |
| `Defaults.MovesExactlyWhen` | `internal/core/usecase/credential.go:196-219` | Whoever is in between, a move succeeds if and only if the identity was active as loaded and still is, and its clear has missed no other default |
| `Defaults.RegistrationIs` | `internal/core/usecase/credential.go:129-140` | What a registration leaves: the new row, alone as default if it asked for it, or the table as it was |
| `Defaults.Identity.MakeDefault` | `internal/core/domain/credential/entity.go:93-104` | Refused for an inactive identity, which it then leaves alone |
| `Defaults.Identity.Deactivate` | `internal/core/domain/credential/entity.go:106-111` | Off, and no longer the default |
| `Defaults.Identity.Activate` | `internal/core/domain/credential/entity.go:113-116` | On again, and the default flag as it was |
| `Defaults.CredentialUseCase.Register` | `internal/core/usecase/credential.go:107-141` | Succeeds exactly for a usable free name and fresh id without failures; takes the default over when asked; otherwise leaves the table unchanged |
| `Defaults.CredentialUseCase.SetDefault` | `internal/core/usecase/credential.go:196-219` | Succeeds exactly for an active identity of the source without failures; then it is the channel's only default; otherwise the table is unchanged |
| `Defaults.CredentialUseCase.SetActive` | `internal/core/usecase/credential.go:164-194` | Switching off clears the default, switching on does not restore it, and no other row changes |
| `Paging.WalkIsExact` | `internal/adapter/db/postgres/notification.go:99-147` | Whatever is inserted or deleted between pages, and for any limit: a finished walk is in order, has every row present throughout exactly once, and invents none |
| `Paging.FixedSetIsListed` | `sdk/go/srosha/query.go:45-99` | On a set that does not change the walk ends with the whole sorted list |
| `Paging.WalkMissesNothing` | `internal/core/domain/delivery/service.go:58-64` | A row present throughout and ahead of the cursor is never skipped |
| `Paging.PageLeaves` | `internal/adapter/db/postgres/delivery.go:157-172` | What is stored and ahead is on the page or behind its cursor |
| `Paging.Cursor.Normalize` | `internal/core/shared/pagination.go:14-24` | The limit ends up between 1 and the largest one, and a valid limit is kept |
| `Paging.Get` | `sdk/go/srosha/query.go:9-43` | The loop collects exactly the walk's pages, and a failed request loses them |
| `Paging.List` | `sdk/go/srosha/query.go:45-99` | Hands over the walk's rows in order until the caller has more than it wants, or ends as the walk does: complete, or with an error after all that came before it |
| `Shutdown.CloseOrderIs` | `internal/registry/registry.go:70-93` | The order has every step of the four tiers exactly once, server before client before broker before store, and newest first within a tier |
| `Shutdown.OrderIsUnique` | `internal/registry/registry.go:70-76` | There is only one such order |
| `Shutdown.Resources.Close` | `internal/registry/registry.go:77-97` | Closes in that order past every failure, reports exactly the failures in order, and forgets the steps; or, if and only if a step has nothing to call, stops at the first such step with everything before it closed |
| `Shutdown.FailuresAre` | `internal/registry/registry.go:89-96` | A failure is reported if and only if some closed step failed with it |
| `Shutdown.FailuresKeepOrder` | `internal/registry/registry.go:89-96` | Failures are reported in the order in which their steps were closed |
| `Shutdown.SecondCloseDoesNothing` | `internal/registry/registry.go:72-76` | A close after one that got to its end closes nothing and reports nothing |
| `Shutdown.SecondCloseRepeatsAPanic` | `internal/registry/registry.go:89-96` | A close after one that panicked closes the same steps again and panics at the same one |
| `Shutdown.SchemaStopsTheShutdown` | `internal/registry/db.go:57-63` | With the registry's "schema" step open, whatever else is, a close panics, forgets no step, and has closed none that comes after it in the order |
| `Callback.SignedIsAcceptedExactlyWhen` | `sdk/go/srosha/callback.go:145-213` | For every secret, body, moment and clock, what the service signs is accepted if and only if the second that moment is in is let through, and is otherwise too old and nothing else |
| `Callback.SignedIsAcceptedWithinTolerance` | `sdk/go/srosha/callback.go:191-213` | Within the range of a duration that is: its second began no further from now than the tolerance, either way |
| `Callback.SignedInTimeIsAccepted` | `sdk/go/srosha/callback.go:191-213` | What was signed no longer ago than the tolerance less one second is always accepted |
| `Callback.AcceptsExactlyWhen` | `sdk/go/srosha/callback.go:137-213` | Of any headers and body, whoever made them: accepted if and only if the signature is the version and the hex of the code over that timestamp and body, and the timestamp is let through; and which refusal it is otherwise |
| `Callback.FarFutureIsAccepted` | `sdk/go/srosha/callback.go:201-205` | Outside that range it is not: a concrete callback, three centuries ahead, is accepted |
| `Callback.FreshExactlyWhen` | `sdk/go/srosha/callback.go:195-213` | What the staleness check lets through, with saturation and the least duration |
| `Callback.SignatureIsForOnePair` | `internal/adapter/notifier/signature.go:11-34` | A signature is accepted with exactly the timestamp and body it was made for, also against a moved dot, unless the code collides |
| `Callback.SignedBytesSplit` | `internal/adapter/notifier/signature.go:28-31` | The signed bytes split into timestamp and body in one way only |
| `Callback.UnixSecondsIs` | `internal/adapter/notifier/signature.go:26` | The timestamp is the second that the moment is in, and no other number is |
| `Callback.SignedIs` | `internal/adapter/notifier/signature.go:15-35` | The signature is the version, an equals sign and the hex of the code over timestamp, dot and body; the timestamp reads back as the second |
| `Callback.FormatsRoundTrip` | `internal/adapter/notifier/signature.go:26` | A number comes back from its decimal text if it fits 64 bits, and is refused if it does not |
| `Callback.ParsedIsANumber` | `sdk/go/srosha/callback.go:196-199` | What reads as a timestamp is one sign at most, then digits, and fits 64 bits |
| `Callback.HexRoundTrip` | `sdk/go/srosha/callback.go:175-178` | Bytes come back from their hex text |
| `Callback.HexReads` | `sdk/go/srosha/callback.go:175-178` | What decodes is hex digits of either case, two for each byte, and nothing else |
| `Callback.NewVerifier` | `sdk/go/srosha/callback.go:101-120` | Made exactly from a secret that is not all white space and a tolerance above zero, which is the last one given or five minutes |
| `Callback.WhiteIsCut` | `sdk/go/srosha/callback.go:101-120` | Each white space character, in UTF-8, is cut where a text starts with it |
| `Callback.CutIsWhite` | `sdk/go/srosha/callback.go:101-120` | And nothing else is cut |
| `Alert.NothingIsLost` | `internal/adapter/alert/alert.go:84-152` | At every moment of every run, accepted is pushed, then in hand, then queued, in order; and the queue keeps to its bound |
| `Alert.AcceptsExactlyWhen` | `internal/adapter/alert/alert.go:84-94` | An alert is accepted if and only if the queue has room or the worker stands there with free hands; it goes last, and a dropped one changes nothing |
| `Alert.AcceptedBeforeStopIsPushed` | `internal/adapter/alert/alert.go:96-135` | When the worker is gone everything accepted before the signal has been pushed, however many alerts came after |
| `Alert.WorkerFinishes` | `internal/adapter/alert/alert.go:123-135` | Left alone after the signal the worker ends in two steps per alert, with all of them pushed |
| `Alert.Alerter.Notify` | `internal/adapter/alert/alert.go:78-94` | One step of the machine: hands over to a parked worker, queues if there is room, drops if not; silent without a pusher |
| `Alert.Alerter.Close` | `internal/adapter/alert/alert.go:96-105` | Pushes what is in hand and what is queued, in order, so that everything accepted is pushed when it returns; a second close does nothing |
| `AppleTokens.OneSourceSignsRarely` | `internal/infra/appleauth/appleauth.go:119-136` | Whatever is asked of a source, and whichever other tokens are thrown away, it signs no sooner than 45 minutes after it last did, unless its own token is |
| `AppleTokens.OneIdentitySignsRarely` | `internal/infra/appleauth/appleauth.go:70-103` | The same of an identity, however many others are opened, in every run that never drops it from the cache and throws no token of its own away |
| `AppleTokens.SignsAgainExactlyWhen` | `internal/infra/appleauth/appleauth.go:93-136` | After one action of anybody an identity with a fresh token signs again, when it is opened and asked, if and only if that action emptied a full cache with it inside or threw its token away |
| `AppleTokens.KeepsItsSourceExactlyWhen` | `internal/infra/appleauth/appleauth.go:79-103` | Through any run an identity keeps the source it has if and only if no action of the run drops it |
| `AppleTokens.FewIdentitiesSignRarely` | `internal/infra/appleauth/appleauth.go:93-103` | While no more identities were opened than the cache holds, none is dropped, so each of them signs rarely |
| `AppleTokens.ForgottenIdentitySignsAtOnce` | `internal/infra/appleauth/appleauth.go:93-103` | With one identity more than that, a run in which one signs twice at the same moment |
| `AppleTokens.CacheIsBounded` | `internal/infra/appleauth/appleauth.go:96-103` | The cache never holds more than its cap, and knows each of its sources |
| `AppleTokens.SigningsAreInOrder` | `internal/infra/appleauth/appleauth.go:119-136` | Signings are in the order of their moments in every run |
| `AppleTokens.Source.Token` | `internal/infra/appleauth/appleauth.go:119-136` | Hands out a token younger than 45 minutes, and a new one only when there is none |

## Left out

- Encryption, HMAC, ECDSA and randomness: a cipher is any pair of functions with the round-trip law, HMAC is any function, a nonce is an input of the right size.
- Floating point: the limiter is an ideal bucket, counted in whole token-nanoseconds, with a limiter that starts full; `golang.org/x/time/rate` is not part of this model.
- Widths: times, durations and counts are unbounded integers, except in `Callback.dfy`, where 64-bit seconds and saturating durations matter and are written out.
- Connections, servers, signals, contexts and timeouts, logging, configuration, the scheduler, gRPC and HTTP mapping: I/O with no rule of its own.
- Provider senders and their status tables: a send answers sent, transient, permanent or unreachable.
- Counting a webhook's failures and switching it off: a webhook is active or absent, as the read finds it; what is recorded after a callback is not part of this model.
- Sign-in, operator pages, source review, capacity and the retention loop itself: a purge is one action that removes any messages with their deliveries.
- Row locks of the dispatch statements: a statement is one step, so `FOR UPDATE SKIP LOCKED` has nothing to skip. In `Submit.dfy` and `Defaults.dfy`, where a transaction spans statements, who would wait for a lock does wait; deadlocks are not modelled.
- The order in which `RETURNING` hands back claimed rows: SQL leaves it open, the model takes them in id order.
- `created_at`, metadata, titles and provider settings: carried along and never decided on.
- Decoding the body of a verified callback: JSON is not part of this model.
- Keyring.NewKeyring: of several bad keys the one that is reported depends on the map's order, in the code as here.
- AppleTokens.Source.Token: parsing the key and encoding the JWT are not modelled; a token is told by when it was signed.
- What a panic inside a unit of work does: the deferred rollback is the same as after an error, and is not a program of its own.
