# Verified cores of js-ipfs

This project models the parts of js-ipfs whose correctness spans several functions or several
interleaved calls, and proves what they promise.

- `RemoteIterable.dfy`: an async iterable streamed over two entangled message ports. Client,
  server and both port queues form one state machine; a run is any sequence of events.
- `PathResolution.dfy`: splitting of IPFS paths, the walk over linked blocks (`resolve`) and the
  shortening of a path to its last CID (`resolvePath`), against a recursive evaluator.
- `Preloader.dfy`: concurrent preload calls with `start`, `stop` and cache eviction in between.
- `QueryServer.dfy`: the life of an RPC query: table entry, run, delete, settlement, answer, abort.
- `Digits.dfy`, `Multipart.dfy`: numbers and modes as text, field names, the multipart printer and
  a receiver after section 5.1.1 of RFC 2046.
- `UploadProgress.dfy`: the browser's request with its byte ranges, and progress over these ranges.
- `DagTransfer.dfy`: sending a DAG node whose CIDs lose their class on the way.
- `CodecRegistry.dfy`: the two-index registries of codecs, hashers and bases.
- `BlockStorage.dfy`, `LruDatastore.dfy`: the hybrid block store and the cached datastore.
- `TimeoutStream.dfy`: streams and promises wrapped with a timeout.

State that the program shares between interleaved calls is a `State` value with a `Step` function
per event and a `Run` over event sequences. An event that is not enabled changes nothing, so a
lemma over all event sequences is a lemma over all interleavings. Beside it stands a class with the
program's own variables, whose methods are proved to take exactly these steps; a method ends where
the program awaits, unless its comment says that it runs through. Code that only loops is a method proved against its meaning directly.

Where code and expectation part, the model follows the code:

- A source or an encoder that throws what cannot be sent (null, undefined, or an error with a
  property that cannot be cloned) leaves the consumer of a remote iterable waiting for ever, since
  describing the error or posting the description throws (`StuckIff`). A remote iterable that is
  stopped before its first `next` closes nothing (`UnstartedLeaks`). After an error of the source,
  `return` may or may not reach the iterator (`ReturnAfterError`, `NoReturnAfterError`).
- `resolvePath` keeps the meaning of a path exactly unless every segment names a CID and the block of
  the last one decodes to another, bare CID, which it returns instead of that block (`ResolvePath`,
  `BareRootIsLost`). Its result is to be read with the link rule of the original root, which matters
  exactly where a name on the way is that of a link and not of the same own property
  (`RuleOfRootMatters`, `RulesAgreeIff`, `AgreeAtIff`).
- A query whose service fulfils with undefined is answered with an error (`ReplyTo`). Two queries
  with one id take each other's table entry exactly when both are in their window between insert
  and delete (`TableExactIff`, `DuplicateIdLosesEntry`).
- An upload event without a total completes all parts (`NoTotalCompletes`).
- Two puts of one cid that overlap both write. This never changes a binding exactly when there is one
  block for each cid that is not stored yet; otherwise the later write replaces the earlier one
  (`PutsKeepIff`, `OverlappingPuts`).
- A put that fails in the child datastore stays visible in the cache, and so does a put that
  succeeds but is overtaken there by a later one (`StepPromisedIff`, `FailedPutShows`,
  `OvertakenPutShows`).
- A stream that ends after its timeout ends normally (`LateEndIsNormal`). A wrapper that is stopped
  before its first `next` leaves its timer running (`UnenteredAborts`).

## Model

| member | source | states |
|---|---|---|
| RemoteIterable.Safety | packages/ipfs-message-port-protocol/src/core.js:53-156 | in every reachable state of both sides the consumer has exactly the decoded encoding of a prefix of the source, nulls skipped; at most one request, pull or reply is outstanding, and the source is at most one pull ahead |
| RemoteIterable.Completion | packages/ipfs-message-port-protocol/src/core.js:73-89 | every completed run of a started stream closed both ports and ended in one of: all delivered and no return; a prefix and the error of the source; stop or decode failure and return called exactly once |
| RemoteIterable.NeverAdvancedAgain | packages/ipfs-message-port-protocol/src/core.js:84-89 | after the client has left its loop no continuation of the run advances the source or delivers anything |
| RemoteIterable.OverIsFinal | packages/ipfs-message-port-protocol/src/core.js:109-150 | no event changes a completed stream |
| RemoteIterable.InternalStepsRunOut | packages/ipfs-message-port-protocol/src/core.js:62-65 | however long a run without events of the source and the consumer is, the work left at its start bounds its effective steps |
| RemoteIterable.RestIsOver | packages/ipfs-message-port-protocol/src/core.js:84-150 | a started stream whose client has left its loop is at rest exactly when the client has returned, nothing is queued for the server and it has closed what it was closing |
| RemoteIterable.StuckIff | packages/ipfs-message-port-protocol/src/core.js:131-137 | a consumer waits for ever exactly when what was thrown cannot be sent, because encoding the error or posting it throws |
| RemoteIterable.UnstartedLeaks | packages/ipfs-message-port-protocol/src/core.js:53-74 | a generator stopped before it was entered leaves both ports open and the source untouched |
| RemoteIterable.ReturnAfterError | packages/ipfs-message-port-protocol/src/core.js:84-88 | the client's return can overtake the server's close after an error and reach the iterator |
| RemoteIterable.NoReturnAfterError | packages/ipfs-message-port-protocol/src/core.js:131-137 | it can also be dropped |
| RemoteIterable.ListFullyDelivered | packages/ipfs-message-port-protocol/src/core.js:113-130 | a completed stream over a list delivered the whole list in one pull more than it has items |
| RemoteIterable.Delivery | packages/ipfs-message-port-protocol/src/core.js:71-137 | in every reachable state the consumer has heard exactly what each outcome it has got past becomes when encoded and decoded, in order, without nulls |
| RemoteIterable.ListDelivered | packages/ipfs-message-port-protocol/src/core.js:113-130 | a completed stream over a list delivers the decoded encoding of every item |
| RemoteIterable.ListHeard | packages/ipfs-message-port-protocol/src/core.js:76-82 | the same when some items are encoded as null: these are left out |
| RemoteIterable.EndMeans | packages/ipfs-message-port-protocol/src/core.js:71-137 | a stream that is not stopped completes exactly when the next call is the end, fails with name, message, stack and code of the error exactly when it throws one, and fails in decode exactly when it cannot be decoded |
| RemoteIterable.EndsAreReached | packages/ipfs-message-port-protocol/src/core.js:71-150 | after any outcomes that are heard each of these ends, and a stop, can be reached |
| RemoteIterable.RemoteStream.ClientOnMessage | packages/ipfs-message-port-protocol/src/core.js:71-87 | the handler and loop body of the client take exactly the client's step |
| RemoteIterable.RemoteStream.ServerOnMessage | packages/ipfs-message-port-protocol/src/core.js:109-147 | the server's handler up to its await takes exactly the server's step |
| RemoteIterable.RemoteStream.ServerResume | packages/ipfs-message-port-protocol/src/core.js:113-137 | the server's handler after its await answers with value, done or error exactly as the step does |
| Paths.SegmentsJoin | packages/ipfs-core/src/utils.js:199-234 | joining segments and splitting the text again gives the same segments |
| Paths.SegmentsAre | packages/ipfs-core/src/utils.js:199 | the segments of a text are those on either side of a slash, and a text without one is a segment unless it is empty |
| PathResolution.ToCidAndPath | packages/ipfs-core-utils/src/to-cid-and-path.js:10-51 | the cid of the text before the first slash, behind an optional prefix, and the text from that slash on; an error exactly when that is no cid |
| PathResolution.PrefixedMeans | packages/ipfs-core-utils/src/to-cid-and-path.js:28-51 | behind "/ipfs/" the text up to the first slash is the cid, and what follows from that slash on the path |
| PathResolution.PlainMeans | packages/ipfs-core-utils/src/to-cid-and-path.js:26-51 | the same without the prefix |
| PathResolution.OtherMeans | packages/ipfs-core-utils/src/to-cid-and-path.js:10-24 | bytes that decode and CIDs denote themselves, without a path |
| PathResolution.PathTaken | packages/ipfs-core/src/utils.js:90-92 | a path in the input goes before the option |
| PathResolution.FirstLink | packages/ipfs-core/src/utils.js:213 | a link is found exactly when one has the name, and it is the first of them |
| PathResolution.Resolve | packages/ipfs-core/src/utils.js:188-249 | refines the evaluator: ends without error exactly when the path has a meaning, after one entry per segment with the text of the segments behind it, and the value of the path; otherwise fails as the evaluator does, after every value that a segment names |
| PathResolution.YieldedIs | packages/ipfs-core/src/utils.js:204-249 | what a segment names is yielded at its place, with the text of the segments behind it |
| PathResolution.LinkIsFollowed | packages/ipfs-core/src/utils.js:211-226 | under a dag-pb root a segment that names a link yields the hash of the first link of that name, and its block is walked next or its loading fails the path |
| PathResolution.PropertyIsFollowed | packages/ipfs-core/src/utils.js:228-244 | a segment that names no link yields the own property, and a CID in it is followed |
| PathResolution.NothingNamed | packages/ipfs-core/src/utils.js:235-238 | a segment that names neither fails with its name under the last cid |
| PathResolution.WalkStarts | packages/ipfs-core/src/utils.js:192-202 | the walk starts at the block of the root, or fails as its loading does |
| PathResolution.ResolvePath | packages/ipfs-core/src/utils.js:84-127 | fails exactly when the whole path fails and every value on the way is a CID; otherwise the returned pair is the last of the leading CIDs with the segments behind it, or the root with the path less a leading slash; it has the value or the failure of the whole path, and cannot be shortened further, exactly when the path is not one of CIDs whose last block decodes to another bare CID, and where it ends in a bare CID it is that CID |
| PathResolution.BareRootIsLost | packages/ipfs-core/src/utils.js:106-111 | a root that decodes to another CID and the path "/" make such a case: the pair returned has another meaning, though one that keeps it exists |
| PathResolution.NoBareCid | packages/ipfs-core/src/utils.js:192-197 | when no block decodes to a bare CID no path leads to one |
| PathResolution.NeverLost | packages/ipfs-core/src/utils.js:106-111 | so the exception does not arise |
| PathResolution.RulesAgreeIff | packages/ipfs-core/src/utils.js:211-226 | reading with and without link names gives every path from a cid the same meaning exactly when at every place below it no link is shadowed |
| PathResolution.AgreeAtIff | packages/ipfs-core/src/utils.js:211-226 | a segment leads to the same place under both rules exactly when it names no link, or its own property is that CID, or the link leads back to the block and the property is its content |
| PathResolution.OwnRuleSafe | packages/ipfs-core/src/utils.js:84-127 | a shortened pair may be read with the rule of its own cid if that is the rule of the root or no link on the remaining way is shadowed |
| PathResolution.RuleOfRootMatters | packages/ipfs-core/src/utils.js:211-226 | otherwise walking on with the rule of its own cid can lead elsewhere |
| Preloader.RequestsExact | packages/ipfs-core/src/preload.js:26-97 | under every interleaving requests lists, without duplicates, exactly the controllers of in-flight attempts that were not aborted |
| Preloader.StopHalts | packages/ipfs-core/src/preload.js:92-97 | after stop every attempt in flight is aborted, and until start none is issued and no call passes the gate |
| Preloader.AttemptsDistinct | packages/ipfs-core/src/preload.js:53-74 | a call makes at most one attempt per configured address, one at a time, on distinct URIs if the addresses are distinct, and none after a success |
| Preloader.Exhaustive | packages/ipfs-core/src/preload.js:57-74 | a call not followed by a stop has, at rest, succeeded or tried every address, however often the preloader was stopped and started before |
| Preloader.GateOnce | packages/ipfs-core/src/preload.js:45-51 | two calls for one path both pass the gate only if that path was evicted in between |
| Preloader.PassesIff | packages/ipfs-core/src/preload.js:39-51 | a call passes exactly when the last start or stop was a start and every earlier call for its path that passed was followed by an eviction of that path |
| Preloader.FirstRequest | packages/ipfs-core/src/preload.js:53-65 | a call that passes has its request to the first address of its list in flight at once |
| Preloader.Settled | packages/ipfs-core/src/preload.js:62-73 | the settlement of an attempt records its outcome, removes its controller and tries the next address exactly after a failure, unless none is left or the preloader is stopped; other calls are untouched |
| Preloader.Preload.Resume | packages/ipfs-core/src/preload.js:62-73 | the settlement of an attempt removes its controller and goes on to the next address after a failure |
| Preloader.Preload.StopPreloading | packages/ipfs-core/src/preload.js:92-97 | the loop aborts exactly the pending requests |
| QueryServer.AnsweredOnce | packages/ipfs-message-port-server/src/server.js:197-236 | over every interleaving, whatever the ids: a query aborted in the table is never answered, any other exactly once, under its id, with its first settlement; these are all answers under an id that is used once |
| QueryServer.AnswerFromEvents | packages/ipfs-message-port-server/src/server.js:197-236 | in terms of the events: a finished query no abort has found is answered with its cloneable value, else with the error of cloning, of the rejection, of an unknown namespace or method or of a throwing service; one an abort has found never |
| QueryServer.ResultIs | packages/ipfs-message-port-server/src/server.js:244-265 | a query is settled at once when its namespace or method is unknown or the service throws, else by the first settlement of the service or abort that finds it |
| QueryServer.ArrivedQuery | packages/ipfs-message-port-server/src/server.js:197-214 | a query keeps the id it arrived with, and is aborted exactly when an abort has found it in the table |
| QueryServer.QueriesGoOn | packages/ipfs-message-port-server/src/server.js:213-234 | the end of run takes a query out of the window, and its settlement then finishes it |
| QueryServer.TableExactIff | packages/ipfs-message-port-server/src/server.js:213-215 | over any run the table holds exactly the open queries, and stays so whichever query leaves next, exactly when no two queries with one id are ever in the window together |
| QueryServer.RobustIff | packages/ipfs-message-port-server/src/server.js:213-215 | the same for a single event |
| QueryServer.TableDrains | packages/ipfs-message-port-server/src/server.js:213-215 | then the table is empty when no query is between insert and delete |
| QueryServer.LateAbort | packages/ipfs-message-port-server/src/server.js:197-203 | an abort changes nothing when no query of its id is open, whatever the ids, and only then when ids are distinct in the window |
| QueryServer.AbortInWindow | packages/ipfs-message-port-server/src/server.js:197-216 | an abort that finds the entry of a query keeps it from being answered in every continuation |
| QueryServer.DuplicateIdLosesEntry | packages/ipfs-message-port-server/src/server.js:213-215 | with one id twice in the window, the second query loses its entry and can no longer be aborted |
| QueryServer.Server.AfterResult | packages/ipfs-message-port-server/src/server.js:217-234 | what is posted for each way a result settles, and nothing else changes |
| QueryServer.Server.AbortQuery | packages/ipfs-message-port-server/src/server.js:197-203 | abort deletes the entry and settles its query unless it has settled |
| Digits.ModeRoundTrip | packages/ipfs-core-utils/src/mode-to-string.js:5-15 | for every mode the octal text has at least four digits and parses back, as the client parses it, to the mode |
| Digits.OctalIs | packages/ipfs-core-utils/src/mode-to-string.js:5-15 | the text of a mode has its octal digits, the last one last |
| Digits.OneDigit | packages/ipfs-core-utils/src/mode-to-string.js:5-15 | a number of one digit is that digit |
| Digits.PadIs | packages/ipfs-core-utils/src/mode-to-string.js:5-15 | shorter texts get zeros in front, up to four characters |
| Digits.DecimalIs | packages/ipfs-core-utils/src/multipart-request.node.js:42-59 | numbers in names are decimal |
| FieldNames.NamesDistinct | packages/ipfs-core-utils/src/multipart-request.browser.js:22-49 | entries at different places never get the same field name, whatever they are |
| FieldNames.NameIs | packages/ipfs-core-utils/src/multipart-request.node.js:34-61 | a name is `file` or `dir`, the number of a later entry, and the query |
| FieldNames.QueryIs | packages/ipfs-core-utils/src/multipart-request.node.js:43-61 | the query has mode, seconds and nanoseconds, each when it is there, in this order |
| FieldNames.ModeRecovered | packages/ipfs-core-utils/src/multipart-request.node.js:45-61 | the mode in a field name parses back to the mode of the entry, also its absence |
| FieldNames.MtimeRecovered | packages/ipfs-core-utils/src/multipart-request.node.js:49-61 | seconds and nanoseconds in a field name parse back to the time of the entry, negative numbers and their absence included, whether a mode stands before them or not |
| Multipart.StreamFiles | packages/ipfs-core-utils/src/multipart-request.node.js:27-81 | the printed body frames one piece per entry between delimiters and ends with the closing delimiter |
| Multipart.FramingUndone | packages/ipfs-core-utils/src/multipart-request.node.js:63-79 | pieces free of the delimiter, whatever they are, are recovered from a framed body, as the delimiter cannot overlap itself |
| Multipart.Decodable | packages/ipfs-core-utils/src/multipart-request.node.js:27-81 | a receiver recovers exactly field name, file name, type and content of all entries if and only if the delimiter starts in no content or the line break before it |
| Multipart.PartMeans | packages/ipfs-core-utils/src/multipart-request.node.js:42-65 | the received names give back place, mode, time and path of the entry, and its content and type |
| Multipart.DashFreeIsSafe | packages/ipfs-core-utils/src/multipart-request.node.js:63-70 | two hyphens and the boundary not occurring in a content is enough |
| Multipart.ComponentRoundTrip | packages/ipfs-core-utils/src/multipart-request.node.js:64 | percent-encoding a path is undone by decoding and leaves no quote and no line break |
| Multipart.EncodeKeeps | packages/ipfs-core-utils/src/multipart-request.node.js:64 | letters, digits and nine marks are kept, nothing else |
| Multipart.EncodeEscapes | packages/ipfs-core-utils/src/multipart-request.node.js:64 | every other octet is a percent sign and two hexadecimal digits |
| Multipart.EncodeEach | packages/ipfs-core-utils/src/multipart-request.node.js:64 | octets are encoded one by one |
| Multipart.PieceIs | packages/ipfs-core-utils/src/multipart-request.node.js:63-71 | the wording of the two header lines, the blank line and the content |
| Multipart.BodyIs | packages/ipfs-core-utils/src/multipart-request.node.js:39-81 | the wording of a body with no, one and two entries |
| BrowserRequest.MultipartRequest | packages/ipfs-core-utils/src/multipart-request.browser.js:16-71 | ranges of the contents tile the total; every entry has a form field of its own with the bytes of its content and a name that decodes to its path, and there are no others; it fails exactly on an entry with neither content nor path |
| BrowserRequest.FilesAre | packages/ipfs-core-utils/src/multipart-request.browser.js:51-55 | the ranges are those of exactly the entries with content, in order |
| UploadProgress.ProgressAddsUp | packages/ipfs-http-client/src/add-all.js:82-102 | after any non-decreasing events, and under any monotone rounding of quotient and product, the latest reports sum up to the computed floor(loaded/total*size), lie within their parts, and parts before the index are complete |
| UploadProgress.PositionIs | packages/ipfs-http-client/src/add-all.js:87 | the position is loaded over total, rounded, times the size, rounded and cut off; none without a total |
| UploadProgress.CallbacksBounded | packages/ipfs-http-client/src/add-all.js:88-100 | k events make at most k + count callbacks; a full length is reported at most once, and exactly once for every part when all is loaded |
| UploadProgress.NoTotalCompletes | packages/ipfs-http-client/src/add-all.js:87-91 | an event without a total completes every part once |
| UploadProgress.ProgressHandler.OnUploadProgress | packages/ipfs-http-client/src/add-all.js:85-101 | the handler's loop is the specified advance |
| DagTransfer.RoundTrip | packages/ipfs-message-port-protocol/src/dag.js:24-90 | encode, a sharing-preserving clone that erases CIDs, and decode give back an equal node, every reached object being the copy of its original |
| DagTransfer.CidsExact | packages/ipfs-message-port-protocol/src/dag.js:64-90 | exactly the CIDs reachable from the node are collected |
| DagTransfer.TransfersExact | packages/ipfs-message-port-protocol/src/dag.js:68-79 | exactly the buffers of reachable CIDs and binary data are transferred |
| DagTransfer.TransfersMean | packages/ipfs-message-port-protocol/src/dag.js:64-90 | these are the buffers of CIDs and views, and the buffers themselves, that the node reaches |
| DagTransfer.ReviveAllIs | packages/ipfs-message-port-protocol/src/dag.js:24-33 | decoding fails exactly when a listed object has not the shape of a CID; otherwise these become CIDs and nothing else changes |
| DagTransfer.CloneAloneDiffers | packages/ipfs-message-port-protocol/src/cid.js:34-57 | without decoding, a node with a CID anywhere in it never arrives equal |
| DagTransfer.Collector.CollectNode | packages/ipfs-message-port-protocol/src/dag.js:64-90 | the recursive traversal appends the CIDs and adds the buffers of the node |
| DagTransfer.Realm.DecodeNode | packages/ipfs-message-port-protocol/src/dag.js:24-33 | the loop revives every listed object in place and fails on what has not the shape of a CID |
| CodecRegistry.RunKeepsInverse | packages/ipfs-core-utils/src/multicodecs.js:40-77 | over any adds, loads by any loader and removals of registered codecs the two tables stay mutual inverses |
| CodecRegistry.RemoveKeepsInverseIff | packages/ipfs-core-utils/src/multicodecs.js:54-57 | a removal keeps them inverse exactly when its name and code belong together |
| CodecRegistry.AddedIsFound | packages/ipfs-core-utils/src/multicodecs.js:40-47 | an added codec is found under its name and its code and nothing else changes; a taken one changes nothing |
| CodecRegistry.RemovedIsGone | packages/ipfs-core-utils/src/multicodecs.js:54-57 | a removed codec is found under neither, and nothing else changes |
| CodecRegistry.HonestNeverThrows | packages/ipfs-core-utils/src/multicodecs.js:62-77 | with an honest loader no getCodec makes addCodec throw, also when one codec is loaded by name and by code at once, and both indices then lead to it |
| CodecRegistry.FinishThrowsIff | packages/ipfs-core-utils/src/multihashes.js:70-77 | a finished load throws exactly when the other index is taken by another codec |
| CodecRegistry.Multicodecs.FinishLoad | packages/ipfs-core-utils/src/multicodecs.js:69-76 | the end of getCodec rechecks the table that was asked |
| CodecRegistry.Multibases.FinishLoad | packages/ipfs-core-utils/src/multibases.js:71-78 | the end of getBase never throws, whatever was loaded, and keeps the tables inverse |
| HybridBlockStore.PutsKeepIff | packages/ipfs-core/src/block-storage.js:56-82 | puts of a set of pairs change no binding at any step of any interleaving of look-ups and writes exactly when the set has one block for each key not stored yet |
| HybridBlockStore.PutsOnlyAdd | packages/ipfs-core/src/block-storage.js:56-82 | whatever is put, under every interleaving bindings from before stay, new ones were put, and every put is readable or still to be written |
| HybridBlockStore.StoredForGoodIff | packages/ipfs-core/src/block-storage.js:56-66 | a stored block survives every continuation exactly when no pending put of its key has another block |
| HybridBlockStore.InFlightKeeps | packages/ipfs-core/src/block-storage.js:56-82 | with one content per cid, however puts and fetches interleave between look-up and write, no binding changes and every put is readable or still to be written |
| HybridBlockStore.OverlappingPuts | packages/ipfs-core/src/block-storage.js:56-66 | of two overlapping puts of one key the later write wins |
| HybridBlockStore.PutAllKeeps | packages/ipfs-core/src/block-storage.js:56-82 | puts one after the other never change a binding, bind only what was put, and make every key readable |
| HybridBlockStore.FirstPutWins | packages/ipfs-core/src/block-storage.js:74-82 | of several blocks for one cid, each stored before the next is looked up, the first is kept |
| HybridBlockStore.RoutingConserves | packages/ipfs-core/src/block-storage.js:108-119 | every requested cid enters exactly one queue, whatever changes meanwhile |
| HybridBlockStore.RoutedInOrder | packages/ipfs-core/src/block-storage.js:108-119 | each queue keeps the order of the requests |
| HybridBlockStore.RoutedOne | packages/ipfs-core/src/block-storage.js:109-114 | a request goes to the exchange exactly when it misses its block while the exchange runs |
| HybridBlockStore.ExchangeOnlyMissing | packages/ipfs-core/src/block-storage.js:110-114 | only a cid not at hand, routed while the exchange runs, goes to the exchange |
| HybridBlockStore.GetManyAnswers | packages/ipfs-core/src/block-storage.js:90-125 | whatever store and exchange do meanwhile, under any merge and any order of answers: they rearrange what each request comes to by the moment of its routing; the consumer receives only such blocks, all of them and no error exactly when none fails |
| HybridBlockStore.AnswerIsGetIff | packages/ipfs-core/src/block-storage.js:104-119 | a request answers as get at the start would exactly unless it misses, while the exchange is stopped, a block that could be had |
| HybridBlockStore.GetManyIsGet | packages/ipfs-core/src/block-storage.js:90-125 | when no request does, getMany answers with a rearrangement of get on each cid, up to the first failure, though the exchange stores what it fetches and may start or stop |
| HybridBlockStore.GetManyStopped | packages/ipfs-core/src/block-storage.js:90-125 | while the exchange is stopped getMany answers as get on each cid, in order, up to the first one not stored |
| HybridBlockStore.Route | packages/ipfs-core/src/block-storage.js:104-119 | the routing loop fills both queues in order |
| LruDatastore.StepPromisedIff | packages/ipfs-core-config/src/utils/lru-datastore.js:52-90 | every cached entry stays what the child is going to hold under any call, and under the settlement of a write exactly when the key is not cached, a later write of it is pending, or what is left for it has the cached value |
| LruDatastore.RunPromisedIff | packages/ipfs-core-config/src/utils/lru-datastore.js:52-100 | the same for runs of any calls, settlements in any order and any eviction |
| LruDatastore.InOrderHarmlessIff | packages/ipfs-core-config/src/utils/lru-datastore.js:52-56 | where the child settles the writes of a key in order only a put that fails does harm, and when |
| LruDatastore.CachedIsSomewhere | packages/ipfs-core-config/src/utils/lru-datastore.js:52-90 | in such runs a cached value is the child's or that of a pending put |
| LruDatastore.Indistinguishable | packages/ipfs-core-config/src/utils/lru-datastore.js:52-100 | in such runs, where no write of a key is pending, get and has answer as the bare child |
| LruDatastore.PutIsRead | packages/ipfs-core-config/src/utils/lru-datastore.js:52-69 | a put is read at once, and after the child has stored it also when the cache has forgotten it |
| LruDatastore.DeleteIsRead | packages/ipfs-core-config/src/utils/lru-datastore.js:63-90 | a deleted key shows the child's value until the child has deleted it, and nothing afterwards |
| LruDatastore.OthersKept | packages/ipfs-core-config/src/utils/lru-datastore.js:52-90 | reads, and writes of other keys, change no answer |
| LruDatastore.OneAtATimeIsAllowed | packages/ipfs-core-config/src/utils/lru-datastore.js:52-90 | successful puts with at most one write of each key in flight make such a run, whatever deletions do |
| LruDatastore.FailedPutShows | packages/ipfs-core-config/src/utils/lru-datastore.js:52-56 | after a failed put get answers with a value the child does not have |
| LruDatastore.OvertakenPutShows | packages/ipfs-core-config/src/utils/lru-datastore.js:52-56 | after two successful puts of one key that the child finishes in the other order cache and child differ |
| LruDatastore.LRUDatastore.PutMany | packages/ipfs-core-config/src/utils/lru-datastore.js:96-100 | putMany acts as a call of put on each pair that the child pulls, all of them or not |
| TimeoutStream.WrappedStream | packages/ipfs-core-utils/src/with-timeout-option.js:15-86 | over every order of clock, timer, source and consumer: a prefix of the source is delivered with at most one call ahead; what each way to end says about source and clock; a TimeoutError means an aborted controller; timer cleared and iterator returned exactly on the exits from the body |
| TimeoutStream.NextDelivers | packages/ipfs-core-utils/src/with-timeout-option.js:64-75 | in time the next call of a fresh or suspended stream brings what the source gives next: its value, its end or its error |
| TimeoutStream.LateTurn | packages/ipfs-core-utils/src/with-timeout-option.js:37-85 | a value or an error that is looked at late ends in a TimeoutError and an abort, when the timer fired or more time has passed than the timeout |
| TimeoutStream.ConsumerLeaves | packages/ipfs-core-utils/src/with-timeout-option.js:75-85 | a return or an error of the consumer ends a suspended stream, a late error as a TimeoutError |
| TimeoutStream.LateIsFinal | packages/ipfs-core-utils/src/with-timeout-option.js:37-104 | from the first late moment on no continuation delivers anything or fails with another error, and a race that is on ends by timeout or the end of the source; stream and promise alike |
| TimeoutStream.HangingEnds | packages/ipfs-core-utils/src/with-timeout-option.js:30-104 | when the source never settles, every continuation waits for the timer or ends with a TimeoutError, and the timer leads there; stream and promise alike |
| TimeoutStream.TimerEndsRace | packages/ipfs-core-utils/src/with-timeout-option.js:30-104 | whatever the source does, a race that is on when the time is over can end at once with a TimeoutError; stream and promise alike |
| TimeoutStream.LateEndIsNormal | packages/ipfs-core-utils/src/with-timeout-option.js:64-72 | from any race the underlying stream may win with its end, which is taken late and completes the stream without an abort |
| TimeoutStream.OverIsFinal | packages/ipfs-core-utils/src/with-timeout-option.js:79-85 | nothing changes an ended stream; one that ended in time never aborts the wrapped call |
| TimeoutStream.UnenteredAborts | packages/ipfs-core-utils/src/with-timeout-option.js:22-58 | a wrapper stopped before it was entered still aborts the wrapped call when its timer fires |
| TimeoutStream.Wrapper.Resume | packages/ipfs-core-utils/src/with-timeout-option.js:37-85 | the loop body behind its await, with maybeThrowTimeoutError, catch and finally, takes exactly the step |
| TimeoutStream.WrappedPromise | packages/ipfs-core-utils/src/with-timeout-option.js:88-104 | over every order of clock, timer and settlement: fulfilled only in time and with the value of the underlying promise, rejected in time only with its error, else with a TimeoutError and an aborted controller; timer cleared exactly when settled |
| TimeoutStream.PromisePassesIff | packages/ipfs-core-utils/src/with-timeout-option.js:88-104 | once its race is settled a promise is rejected with a TimeoutError exactly when it is late, and otherwise takes over value or error |
| TimeoutStream.Wrapper.ResumePromise | packages/ipfs-core-utils/src/with-timeout-option.js:37-104 | the promise form behind its await, with try, catch and finally and the second check in catch, takes exactly the step |

## Left out

- Event loops and threads: steps happen in any order; a turn of one side up to its next await is one step. Two calls of `next` queued on one generator take effect one after the other, as async generators do.
- AsyncIterator internals: the k-th call of `next` has the k-th outcome; a call that never settles is a run without its `SourceSettles` event.
- Message ports carry messages in order; transferring the port itself, and `encodeCallback`/`decodeCallback`, are not part of this model.
- CIDs, block codecs, `CID.parse`, bitswap, hashlru, `array-shuffle`, `it-merge` and AbortController are parameters, nondeterministic events or any permutation or interleaving.
- PathResolution.Resolve: yields all at once; the generator's caller stops early, which makes no difference as loading changes nothing. The elements of a `Links` array are taken to be links, as in every dag-pb block; error texts and their rewriting are not modelled.
- PathResolution.ResolvePath: the option object keeps the path that is written into it; here it is a parameter.
- Preloader: the disabled preloader, which does nothing, and the HTTP request itself.
- QueryServer: `connect`, `disconnect` and messages of unknown type; the transfer list of an answer.
- Multipart.StreamFiles: the source does not throw; after an error the program aborts and truncates the body. Chunks of a content are one text of octets.
- Normalisation of inputs: modes and times arrive as numbers. A `mode` given as text to `modeToString` is passed through (`Digits.ModeToString`) and does not occur in field names.
- UploadProgress.ProgressAddsUp: rounding is any monotone function that keeps 0, 1 and the size; byte counts that are no exact floating-point numbers are not modelled.
- DagTransfer.RoundTrip: nodes without cycles; on a cycle the traversal of the program does not end. A typed array is its buffer and a range; detaching of transferred buffers is not modelled.
- CodecRegistry: names that are properties of every JavaScript object, such as `constructor`; the list methods.
- HybridBlockStore.GetManyIsGet: deletions during the call. A request the exchange waits for in vain counts as one that fails, where the program goes on waiting.
- HybridBlockStore.FirstPutWins: a child that stores pairs in another order than it pulls them; these are interleavings of `PutsKeepIff` and `StoredForGoodIff`.
- LruDatastore: `getMany`, which yields a cached value and the child's value as well, and `batch`, which bypasses the cache. A write that the child rejects has not changed it; a read of the child is one step.
- TimeoutStream: parsing of durations, combination of signals, and calls without a timeout.
- Control characters, table layout, `escapeControlCharacters`, `formatMode` and the rest of `packages/ipfs-cli`.
