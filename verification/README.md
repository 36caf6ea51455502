# SimplyChat: message history and file messages, verified

This project models two parts of SimplyChat and proves what they guarantee over whole runs.

**Paged history, from query to browser.** The message service answers "messages before a
cursor" by keyset paging on `(added_at, id)` with a one-row look-ahead, a left join with the
attachments, a fold of the flat rows, and an in-place reversal. The browser keeps one list per
chat and feeds it from history pages, realtime pushes, upload responses and optimistic sends.
`Ordering`, `Messages`, `Tables`, `Saving`, `Aggregation`, `Paging`, `MessageStorage`,
`HistoryService` and `HistoryWalk` are the server side; `MessageLists`, `ChatHistory` and
`Browser` are the client; `ChatRuns` puts both on a network that may delay, lose, repeat and
reorder everything.

**File messages across two services.** A send uploads its files one by one, then stores the
message and its attachments in one transaction, and on any failure deletes what it uploaded.
Below it the file service keeps a metadata table and an object store in step without a common
transaction. `ObjectStorage`, `FileService` and `FileMessages` are the sequential code with its
retry, upload and compensation loops; `FileRuns` interleaves any number of uploads and deletes
call by call; `SagaRuns` adds any number of sends on top; `SendRuns` proves the sequential send to
be a run of one saga, for every way it may be answered.

**Pushes.** `Delivery` is the client registry with its bounded queues and the sequential fan-out
over a looked-up member list; `MemberCache` interleaves any number of fan-outs with joins, cache
expiry, and clients that connect or leave.

Each imperative member is a class method or a loop proved against a function on the state. The
four machines (`ChatRuns`, `FileRuns`, `SagaRuns`, `MemberCache`) are step functions, and their
theorems speak of every finite sequence of events, or of every continuation of a state in order;
`RunKeepsInv` of each machine says that all reachable states are in order. An event whose guard
fails changes nothing. The file service's methods are tied to its machine: what `Upload` and
`Delete` do is the run of one upload or delete whose call outcomes are functions of the faults.

Assumptions, all visible in the code of the model:

- each SQL statement and each object-store call is one atomic step; a failed metadata insert and a
  failed commit left no row, while any other failing call may or may not have taken effect;
- file ids are fresh, and an object key contains its file id;
- message ids are unique `int4` values, and an optimistic id (the clock in milliseconds) is larger
  than any of them; messages are never edited or deleted;
- only sends ask the file service to delete files.

The gap-freedom of the browser list needs no assumption on the order in which keys are assigned.

Four expectations that the code does not meet are stated with the input and the exact condition:

- *Following the cursor returns the history of the first request.* It does if and only if nothing
  was inserted below the cursor between two requests (`HistoryWalk.WalkExact`); a message stamped
  early and stored late is the counterexample (`HistoryWalk.WalkCanBeInexact`). What was there at
  the first request is listed in any case (`HistoryWalk.WalkCovers`).
- *The browser shows the server's order.* It does if and only if ids follow time within each
  millisecond (`ChatHistory.BrowserOrder`, `ChatHistory.BrowserOrderCanDiffer`).
- *A failed send deletes what it uploaded.* Neither row nor object of any file of an aborted send
  is left if and only if the upload it gave up on, if any, left neither, and every delete removed
  both (`SagaRuns.AbortLeavesNothing`). Nothing of it can be read if and only if that upload
  inserted no row and every delete reached its mark (`SagaRuns.AbortLeavesNothingLive`). Once the
  service is done with the send's calls this is final (`SagaRuns.AbortIsFinal`). The
  counterexamples are a lost upload answer (`SagaRuns.LostAnswerLeavesFile`), whose row stays
  readable for ever (`SagaRuns.AbandonedStays`), and a delete that stops after its mark
  (`SagaRuns.HalfDeleteLeavesObject`). Which call outcomes leave what: `FileRuns.UploadLeaves` and
  `FileRuns.StoredExactly`.
- *A member gets the chat's messages pushed.* A fan-out lists a member if and only if the cached
  list has it, or there is none or it cannot be read when the lookup begins
  (`MemberCache.MemberIsListed`). A join after the list was cached is the counterexample
  (`MemberCache.StaleListArises`), and until that list expires or cannot be read no fan-out
  reaches the new member (`MemberCache.StaleUntilRefreshed`).

## Model

| member | source | states |
|---|---|---|
| `Messages.EnrichMessagePayload` | messageService/internal/service/messageService/messageService.go:497-511 | the in-place loop computes the enriched message |
| `Messages.EnrichedFields` | messageService/internal/service/messageService/messageService.go:497-519 | a missing kind becomes text, a file message loses its content, each attachment gets the content and the download link made of its file id, and nothing else changes |
| `Messages.ServerOrder` | messageService/internal/storage/postgres/messageStorage/messageStorage.go:203-209 | the server orders by time and then id |
| `Messages.ClientOrder` | apiGateway/static/js/app.js:19-26 | the browser orders by the millisecond and then id |
| `Tables.CreateExactly` | messageService/internal/storage/postgres/messageStorage/messageStorage.go:74-85 | a chat is created exactly if its id is new, with the given capacity |
| `Tables.JoinExactly` | messageService/internal/storage/postgres/messageStorage/messageStorage.go:113-131 | a user joins exactly if the chat exists, has a seat left and does not have the user; then exactly that user is added |
| `Tables.AttachmentsOfExactly` | messageService/internal/storage/postgres/messageStorage/messageStorage.go:211-215 | the attachments shown for a message are exactly the rows that name it, field by field, in insertion order |
| `Tables.ItemFields` | messageService/internal/storage/postgres/messageStorage/messageStorage.go:200-215 | a history item has its row's id, chat, sender, kind and time, its text unless it is a file message, and its attachments with their links |
| `Saving.SaveExactly` | messageService/internal/storage/postgres/messageStorage/tx.go:32-72 | a message is stored exactly if its chat exists, its id is new and in range, and its attachments have distinct files, known kinds and sizes |
| `Saving.SaveStores` | messageService/internal/storage/postgres/messageStorage/tx.go:32-72 | then exactly one message row and one attachment row per record are added, field by field, in order |
| `Saving.SavedItem` | messageService/internal/storage/postgres/messageStorage/messageStorage.go:388-427 | the payload returned and pushed at save time equals the enriched item later history shows for that row: attachment order, kind, empty content |
| `Saving.SaveExtendsHistory` | messageService/internal/storage/postgres/messageStorage/tx.go:10-72 | a save adds exactly its own payload to its own chat's history and alters no other item of any chat |
| `Saving.SaveKeepsWellFormed` | messageService/internal/storage/postgres/messageStorage/messageStorage.go:174-192 | unique ids, foreign keys, kinds and the unique (message, file) pair survive every save |
| `MessageStorage.Database.SaveMessage` | messageService/internal/storage/postgres/messageStorage/messageStorage.go:174-192 | exactly without a fault, in an existing chat and under a new id, one row is added and returned; otherwise nothing changes |
| `MessageStorage.Database.CreateAttachmentsTx` | messageService/internal/storage/postgres/messageStorage/tx.go:51-72 | succeeds exactly when no insert fails and the records have distinct files, known kinds and sizes, and then appends one row per record, field by field, in order |
| `MessageStorage.Database.CreateFileMessage` | messageService/internal/storage/postgres/messageStorage/messageStorage.go:388-427 | all or nothing: succeeds exactly when no call fails and the tables admit the rows, which are then added field by field; otherwise the tables are as before |
| `MessageStorage.Database.AddUser` | messageService/internal/storage/postgres/messageStorage/messageStorage.go:113-131 | adds the user exactly if the chat exists, has a seat left and does not have it; otherwise nothing changes |
| `Aggregation.AggregateHistoryRows` | messageService/internal/storage/postgres/messageStorage/messageStorage.go:275-314 | the single pass with its id-to-index map computes the row-by-row fold |
| `Aggregation.AggregateInvertsJoin` | messageService/internal/storage/postgres/messageStorage/messageStorage.go:211-215 | joining any messages with their attachments and folding the rows back returns the messages |
| `Aggregation.FirstAppearances` | messageService/internal/storage/postgres/messageStorage/messageStorage.go:279-294 | for any rows: one entry per message id, in order of first appearance, with the opening row's fields |
| `Aggregation.AttachmentAppearances` | messageService/internal/storage/postgres/messageStorage/messageStorage.go:296-320 | for any rows: an entry's attachments are the first row per file id, in order |
| `Paging.PageIsGreatest` | messageService/internal/storage/postgres/messageStorage/messageStorage.go:200-209 | a page is the ascending list of the `limit` greatest keys below the cursor, or of all of them if there are fewer |
| `Paging.PageCursor` | messageService/internal/storage/postgres/messageStorage/messageStorage.go:252-270 | `has_more` exactly when a message below the cursor was left out; the next cursor is the first item's key exactly then |
| `MessageStorage.QueryIsWindow` | messageService/internal/storage/postgres/messageStorage/messageStorage.go:200-215 | the query returns the newest messages below the cursor, newest first; attachments do not use up the limit |
| `MessageStorage.ReverseHistory` | messageService/internal/storage/postgres/messageStorage/messageStorage.go:336-340 | the two-index swap loop reverses the slice in place |
| `MessageStorage.Database.GetMessageHistory` | messageService/internal/storage/postgres/messageStorage/messageStorage.go:194-273 | the whole pipeline returns the page of the chat's sorted history |
| `HistoryService.HandleGetMessageHistory` | messageService/internal/service/messageService/messageService.go:272-389 | a page is sent exactly to a member of an existing chat who asks under its own login, without faults, online and with room, and is then the last event of its queue; otherwise the first guard or call to fail names the error, and the client is told if it can be |
| `HistoryService.LoadPage` | messageService/internal/service/messageService/messageService.go:285-333 | exactly for a member of an existing chat under its own login and without faults: the page of the enriched history |
| `Paging.ClampLimit` | messageService/internal/service/messageService/messageService.go:313-319 | a limit of 1 to 100 is kept, a smaller one becomes 50, a larger one 100 |
| `HistoryWalk.WalkCovers` | messageService/internal/storage/postgres/messageStorage/messageStorage.go:264-270 | whatever is inserted meanwhile, a finished walk lists in order, each once, every message present at its first request |
| `HistoryWalk.WalkExact` | messageService/internal/storage/postgres/messageStorage/messageStorage.go:194-273 | the walk returns exactly those messages if and only if nothing was inserted below its cursor between two requests |
| `HistoryWalk.WalkCanBeInexact` | messageService/internal/storage/postgres/messageStorage/messageStorage.go:203-209 | a growing history whose walk returns more than its first request saw |
| `HistoryWalk.AppendOnlySuffices` | messageService/internal/storage/postgres/messageStorage/messageStorage.go:203-209 | keys that only grow meet that condition |
| `HistoryWalk.WalkEnds` | messageService/internal/storage/postgres/messageStorage/messageStorage.go:252-270 | with any limits, and whatever is inserted meanwhile, the walk ends within as many requests as there are messages below its cursor in the last history |
| `HistoryWalk.WalkTerminates` | messageService/internal/storage/postgres/messageStorage/messageStorage.go:224-270 | with one limit, and nothing inserted below its cursor, the walk makes exactly max(1, ceil(n / limit)) requests |
| `HistoryWalk.RequestCountIsCeiling` | messageService/internal/service/messageService/messageService.go:313-327 | the request count is that ceiling |
| `MessageLists.MergeMessageLists` | apiGateway/static/js/app.js:28-36 | the Map, filled in insertion order and then sorted, yields the last message of each id in browser order |
| `MessageLists.MergeIsUnion` | apiGateway/static/js/app.js:28-36 | for consistent messages a merge is the sorted union and is commutative |
| `ChatHistory.UploadedIsMerge` | apiGateway/static/js/files.js:116-129 | pushing a new upload response and sorting in place gives what a merge gives |
| `ChatHistory.PageVersions` | apiGateway/static/js/app.js:68-84 | a page in front of the list leaves everything listed and adds the ids it lacks; in its place, the page's version of an id wins; every id of the page is listed, and nothing else |
| `ChatHistory.Convergence` | apiGateway/static/js/app.js:68-95 | the list and its id set depend only on the set of messages received, not on order, repetition or path |
| `ChatHistory.ItemsAreReceived` | apiGateway/static/js/app.js:38-40 | after any deliveries the list is strictly sorted, has unique ids matching `itemIds`, and holds exactly what was received |
| `ChatHistory.BrowserOrder` | apiGateway/static/js/app.js:19-26 | a history sorted by the browser is in server order if and only if ids follow time within each millisecond |
| `ChatHistory.BrowserOrderCanDiffer` | apiGateway/static/js/app.js:19-26 | a history for which it is not |
| `Browser.App.MergeHistoryPage` | apiGateway/static/js/app.js:68-84 | field by field, the record after a page, prepended or replaced |
| `Browser.App.OnMessageHistory` | apiGateway/static/js/app.js:218-227 | an answer is put in front of the list exactly if an older page was being loaded, else in its place; its cursor is kept, the chat is idle, and no other chat or timer has changed |
| `Browser.App.OnMessageHistoryError` | apiGateway/static/js/app.js:246-249 | an error ends the loading of its chat, or of the active one: no flag, no armed timer for it, every list, cursor, other chat and other timer as before |
| `Browser.App.OnTimer` | apiGateway/static/js/app.js:126-129 | a timer that goes off ends the loading of exactly the chat it was armed for, and changes nothing else; a disarmed one changes nothing |
| `Browser.App.LoadMessageHistory` | apiGateway/static/js/app.js:104-137 | which request is sent and exactly when: below a cursor unless already loading or at the end, else unless loaded or loading; a timer is armed, and flags and timers stay consistent |
| `Browser.App.HandleChatSelected` | apiGateway/static/js/app.js:139-147 | the chat is active, and its first page is asked for exactly if it is not there nor being loaded; either way it is loaded or loading under an armed timer |
| `Browser.App.MaybeLoadOlderHistory` | apiGateway/static/js/app.js:149-168 | a request is sent if and only if the list is near its top and the active chat is initialized, not loading, has more and has a cursor; it is for that chat below that cursor; otherwise nothing changes |
| `Browser.App.PushRealtimeMessage` | apiGateway/static/js/app.js:86-95 | a message whose id is not listed is listed and reported as new; otherwise nothing changes; no other item, chat, flag or timer does |
| `Browser.App.OnUploadResponse` | apiGateway/static/js/files.js:116-129 | a payload whose id is not listed enters the list; otherwise nothing changes; no other item, chat, flag or timer does |
| `Browser.App.SendTextMessage` | apiGateway/static/js/app.js:170-201 | the optimistic copy is listed in the active chat, every other item stays, and the lists stay sorted with unique ids |
| `ChatRuns.NoGaps` | apiGateway/static/js/app.js:68-137 | in every reachable state an initialized chat lists every message of its first snapshot at or above the cursor, all of it when there is none |
| `ChatRuns.NoPhantoms` | apiGateway/static/js/app.js:68-95 | every listed message is stored in that chat as listed, or is an optimistic copy; the list is strictly sorted without repeats |
| `ChatRuns.LoadingIsGuarded` | apiGateway/static/js/app.js:42-66 | in every reachable state the flags exclude each other, agree with the cursor, and a chat is loading exactly while a timer for it is armed |
| `ChatRuns.PushesAreHistory` | messageService/internal/service/messageService/messageService.go:391-440 | everything pushed is, in every later state, the item history shows for it |
| `ChatRuns.ServedToMembers` | messageService/internal/service/messageService/messageService.go:287-311 | in every reachable state every page ever served is of an existing chat of which the asking login is a member |
| `ChatRuns.EventsTakeEffect` | apiGateway/static/js/app.js:68-130 | what each event of the machine does: stored messages can be pushed, delivered ones are listed, answers initialize, errors and timers end a loading |
| `ChatRuns.AnswerKeeps` | apiGateway/static/js/app.js:218-242 | one answer, however late, keeps the record free of gaps |
| `ChatRuns.HistoriesOnlyGrow` | messageService/internal/storage/postgres/messageStorage/messageStorage.go:174-192 | along any run no message of a history changes or disappears |
| `ChatRuns.ChatCanLoad` | apiGateway/static/js/app.js:139-147 | for any text a run from the start that stores it and lists it |
| `ChatRuns.MemberCanReadAll` | apiGateway/static/js/app.js:104-168 | from every state in order, whatever was lost or is pending, a member of a chat has a continuation that ends with no cursor and the whole snapshot listed |
| `ChatRuns.WalkAlongRun` | messageService/internal/storage/postgres/messageStorage/messageStorage.go:194-273 | follow the cursor through the answers a run put on the network until there is none: their pages together are in order and list what there was at the first, and exactly that if and only if nothing was inserted below the cursor |
| `ChatRuns.RunKeepsInv` | apiGateway/static/js/app.js:42-168 | the invariant behind these theorems holds after every run from any state in order |
| `ObjectStorage.Storage.PutObject` | fileService/internal/storage/s3storage/storage.go:50-65 | whichever attempt works, the whole file is stored from its first byte; otherwise nothing or the whole file |
| `ObjectStorage.Storage.DeleteObject` | fileService/internal/storage/s3storage/storage.go:97-105 | success removes the object; failure removes it or changes nothing |
| `ObjectStorage.Storage.GetObject` | fileService/internal/storage/s3storage/storage.go:67-95 | success exactly when an attempt works and the object is there, with its bytes |
| `ObjectStorage.RetrySucceeds` | fileService/internal/storage/s3storage/storage.go:125-147 | the retry loop succeeds exactly when an attempt within the budget works and none before it reported a missing object |
| `ObjectStorage.RetryFails` | fileService/internal/storage/s3storage/storage.go:125-147 | a missing object is reported exactly when some attempt says so after others that failed otherwise; any other error is that of the last attempt |
| `ObjectStorage.AppliedExactly` | fileService/internal/storage/s3storage/storage.go:125-147 | the call took effect exactly when some attempt that was made did |
| `FileService.SpoolToTempFile` | fileService/internal/service/fileservice/service.go:243-281 | head and tail together are the request's bytes, accepted exactly when non-empty and of the declared size |
| `FileService.Service.Upload` | fileService/internal/service/fileservice/service.go:74-145 | exactly what is refused and why, and that a refusal changes nothing; otherwise, fault by fault, the rows and objects afterwards, the error or the stored file with the sanitized name and the type detected on its first 512 bytes; the state is the one the machine reaches by this upload alone |
| `FileService.Service.Delete` | fileService/internal/service/fileservice/service.go:189-206 | success exactly if lookup, mark and row removal worked and the object was removed or reported missing; the rows, the objects and the error for every fault; the state is the one the machine reaches by this delete alone |
| `FileService.DeleteResumes` | fileService/internal/service/fileservice/service.go:189-206 | from every state of an uploaded file, in particular after a delete that failed anywhere or whose answer was lost, a delete whose calls work leaves no row, and no object unless one was wrongly reported missing before |
| `FileService.TwoDeletes` | fileService/internal/service/fileservice/service.go:189-206 | a delete with any faults and then one without leave no row; the object is left if and only if the first one dropped the row on a wrong "not found" |
| `FileService.DeleteAddsNoTrace` | fileService/internal/service/fileservice/service.go:189-206 | no delete, whatever fails in it, adds a row, makes one live, or adds an object |
| `FileService.Service.GetContent` | fileService/internal/service/fileservice/service.go:155-170 | reads exactly live files: bytes, name, type and size of the upload |
| `FileService.UploadThenGetContent` | fileService/internal/service/fileservice/service.go:90-170 | upload then read returns the request's bytes, as many as Size, and the name and type the upload was answered with, whatever attempts failed |
| `FileRuns.RunKeepsInv` | fileService/internal/service/fileservice/service.go:122-206 | the invariant of uploads and deletes holds after every run from any state in order |
| `FileRuns.LiveRowsHaveObjects` | fileService/internal/service/fileservice/service.go:122-142 | under every interleaving of uploads and deletes with faults each live row has the uploaded name and type and the size of the uploaded bytes, and its object has those bytes |
| `FileRuns.LiveExactly` | fileService/internal/service/fileservice/service.go:131-195 | in every state in order a file has a live row if and only if its upload inserted it and no delete has marked it |
| `FileRuns.StoredExactly` | fileService/internal/service/fileservice/service.go:122-204 | in every reachable state a row is there if and only if its upload inserted it and no delete dropped it, and an object if and only if its upload left it and no delete removed it |
| `FileRuns.RemovedRowHasNoObject` | fileService/internal/service/fileservice/service.go:198-204 | in every run a row once inserted and now removed has no object, unless the store told a delete of that file that it was missing |
| `FileRuns.UploadLeaves` | fileService/internal/service/fileservice/service.go:122-144 | for all outcomes of the three calls: the row is there if and only if put and insert worked; the object if and only if the put took effect and no clean-up did; success if and only if all three worked |
| `FileRuns.RunReadsBack` | fileService/internal/service/fileservice/service.go:155-170 | under every interleaving a file is readable if and only if its upload inserted the row and no delete has marked it, and reads as uploaded |
| `FileRuns.DeletionIsFinal` | fileService/internal/repository/postgres/filemetadata/repository.go:89-117 | a soft-deleted row never becomes live again, and removed rows and objects never return |
| `FileMessages.Sender.SendFileMessage` | messageService/internal/service/messageService/sendFileMessage.go:50-139 | succeeds if and only if the guards pass, every upload answers, no call of the transaction fails and the tables admit the message; then one row and one attachment per returned file, with its id, name, type, size and kind, in order; otherwise which error, no row, and one delete per returned file in upload order |
| `SendRuns.SendIsARun` | messageService/internal/service/messageService/sendFileMessage.go:50-153 | for every outcome of every call, loss of any answer and fault of the transaction, the events of one send are a run that changes its own saga only: committed with all files, or aborted after one delete per returned file |
| `SendRuns.SendAsSaga` | messageService/internal/service/messageService/sendFileMessage.go:50-153 | the sequential code ends with the database, the outcome and the calls of that run |
| `Messages.ImagesAreRecognised` | messageService/internal/service/messageService/sendFileMessage.go:155-160 | a type is an image if and only if it is white space, then image/ in any letter case, then anything |
| `FileMessages.Sender.CompensateUploadedFiles` | messageService/internal/service/messageService/sendFileMessage.go:141-153 | one delete per file, in order, whatever the answers, each logged with its answer |
| `SagaRuns.ReferentialIntegrity` | messageService/internal/service/messageService/sendFileMessage.go:82-125 | in every reachable state of any number of sends, each stored attachment has a live row and an object and was never the target of a delete |
| `SagaRuns.CommittedConserves` | messageService/internal/service/messageService/sendFileMessage.go:108-125 | a committed send attached every input file in input order, with the name, type, size and kind of its upload, deleted none, and each reads back as sent |
| `SagaRuns.AttachmentsMatchFiles` | messageService/internal/service/messageService/sendFileMessage.go:108-125 | in every reachable state each stored attachment has the name, type and size of its file's live row in the file service, and is an image exactly if that type names one |
| `SagaRuns.SendsAreAdmitted` | messageService/internal/service/messageService/sendFileMessage.go:50-80 | in every reachable state a send is by a member of an existing chat and of one to ten files |
| `SagaRuns.AbortedConserves` | messageService/internal/service/messageService/sendFileMessage.go:141-153 | an aborted send attached nothing and tried one delete per uploaded file in upload order; a confirmed one left no row, and no object unless it was reported missing |
| `SagaRuns.AbandonedStays` | messageService/internal/service/messageService/sendFileMessage.go:93-103 | once the row of a file whose upload was taken for failed is there, in every later state it is live, reads as uploaded, is attached to nothing and no delete was asked for it |
| `SagaRuns.AbortLeavesNothing` | messageService/internal/service/messageService/sendFileMessage.go:82-153 | neither row nor object of any file of an aborted send is left if and only if the abandoned upload, if any, left none and every delete removed both |
| `SagaRuns.AbortLeavesNothingLive` | messageService/internal/service/messageService/sendFileMessage.go:82-153 | none of its files has a live row if and only if that upload inserted none and every delete reached its mark |
| `SagaRuns.AbortIsFinal` | messageService/internal/service/messageService/sendFileMessage.go:141-153 | once the service is done with an aborted send's calls, no later event changes which of its rows and objects are there, or which rows are live |
| `SagaRuns.MessagesAreSent` | messageService/internal/service/messageService/sendFileMessage.go:108-125 | in every reachable state each file message was stored by a committed send of that sender to that chat, and carries exactly its files, in order |
| `SagaRuns.RunKeepsInv` | messageService/internal/service/messageService/sendFileMessage.go:50-153 | the invariant of sends, file service and database holds after every run from any state in order |
| `SagaRuns.LostAnswerLeavesFile` | messageService/internal/client/fileService/client.go:83-87 | a run in which a send is aborted while its uploaded file stays live and unattached |
| `SagaRuns.HalfDeleteLeavesObject` | fileService/internal/service/fileservice/service.go:189-206 | a run in which nothing of an aborted send is live and the service is done, yet row and object are there |
| `SagaRuns.SendCanCommit` | messageService/internal/service/messageService/sendFileMessage.go:120-126 | runs that commit a send exist for every file |
| `SagaRuns.AccessIsMembership` | messageService/internal/storage/postgres/messageStorage/messageStorage.go:370-386 | access to a sent file is membership of the chat it was sent to, sender included |
| `SagaRuns.AccessIsKept` | messageService/internal/storage/postgres/messageStorage/messageStorage.go:370-386 | access once granted survives every later event |
| `SagaRuns.CapacityHolds` | messageService/internal/storage/postgres/messageStorage/messageStorage.go:113-131 | no chat ever has more members than its maximum |
| `MemberCache.OnlyMembersArePushed` | messageService/internal/service/messageService/messageService.go:442-495 | with fan-outs, joins, expiry, connects and leaves interleaved, in every reachable state whoever was pushed to is a member of the chat, not the sender, and was pushed to once |
| `MemberCache.TurnsArePrefix` | messageService/internal/service/messageService/messageService.go:463-495 | in every reachable state exactly a prefix of a fan-out's list, without the sender, had its turn: the whole list if it succeeded, up to a recipient without room if it was given up |
| `MemberCache.NextTurn` | messageService/internal/service/messageService/messageService.go:476-492 | one turn: the sender is passed over, an online recipient with room is pushed to, an offline one is not, and without room the fan-out gives up |
| `MemberCache.MemberIsListed` | messageService/internal/service/messageService/messageService.go:442-461 | a fan-out lists a member if and only if, when its lookup began, the cached list had it, was empty, or could not be read |
| `MemberCache.StaleUntilRefreshed` | messageService/internal/service/messageService/messageService.go:442-461 | while a cached list is neither expired nor unreadable, no fan-out of its chat reaches a user missing from it, however many are sent |
| `MemberCache.StaleListArises` | messageService/internal/service/messageService/messageService.go:442-461 | one fan-out and a later join reach such a state |
| `MemberCache.RunKeepsInv` | messageService/internal/service/messageService/messageService.go:442-495 | cache, lists and log stay in order after every run from any state in order |
| `Delivery.Registry.SaveClient` | messageService/internal/storage/memoryStorage/clientStorage/clientStorage.go:32-45 | a reconnect registers a new open channel and touches no other |
| `Delivery.Registry.DeleteClient` | messageService/internal/storage/memoryStorage/clientStorage/clientStorage.go:58-75 | closes exactly the registered channel, once, and unregisters it |
| `Delivery.Registry.FanOut` | messageService/internal/service/messageService/messageService.go:463-495 | success exactly when every online recipient has room or drains in time; each online member of the reached prefix but the sender has the event last in its queue, behind all it had but a full queue's head; no other queue changes |
| `Delivery.Notifier.GetChatMembers` | messageService/internal/service/messageService/messageService.go:442-461 | fails exactly if there is no readable cached list and the table cannot be read; otherwise lists the cached members or the table's, and adds them to the cache |
| `Delivery.Notifier.FanOutMessage` | messageService/internal/service/messageService/messageService.go:463-495 | over the cached list if there is a readable one, else the table's: only current members but the sender get the event, last in their queue; success exactly if the lookup works and every online recipient has room, and then each has it |
| `Delivery.Notifier.HandleSendMessage` | messageService/internal/service/messageService/messageService.go:391-440 | success exactly if the message is stored, the lookup works and every online recipient has room, and then each has the event last in its queue; whatever becomes of the pushes the message stays stored, and what is pushed is the item its history shows |

## Left out

- User interface: rendering, scroll arithmetic, modals and logs.
- HTTP handlers, routers, the reverse proxy, WebSocket pumps, gRPC, tokens and cookies.
- `Messages.ImagesAreRecognised`: letters beyond ASCII are lower-cased only where the result is ASCII, which is all the prefix test can see.
- MIME sniffing, filename cleaning and UUID generation are uninterpreted: functions given to the service, or names given with an event.
- Rows skipped on a scan error and context deadlines: a call fails or works as a whole.
- A metadata insert or a commit that is applied although it reports an error; it would leave a live row without an object.
- A history error that names no chat while no chat is active, which only creates an empty record under the key null.
- Messages without an id or with an unreadable date, which neither service sends.
- `Browser.App` keeps its chat records as values in a map, so aliasing of one record object is not modelled; every access in the source goes through the map.
- Retry loops: the source passes a closure to one loop; here the loop is written out in each of the three operations.
- `FileRuns` and `SagaRuns` take the retries inside one object-store call together as one call; `FileService.PutOutcome` and `FileService.RemoveOutcome` say which one.
- `FileMessages.Sender.SendFileMessage`: the fan-out after a successful save is modelled on its own in `Delivery`, because its error is only logged.
- `Delivery.Registry.FanOut`: does not model clients that connect or leave during the loop (`MemberCache` does), nor a send on a channel closed in between.
- `Delivery.Channel`: a pump takes events off a queue only to make room; otherwise its progress is not modelled.
- `MemberCache.TurnsArePrefix`: speaks of the looked-up list, not of the members at that moment, because a cached list is never told about a new member.
- Reopening a socket and the second handler set it installs.
