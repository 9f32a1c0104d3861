# Verified model of the isolated renderer plugin

The plugin renders documents in a separate worker process. This project models, in Dafny, the
plugin's end of that arrangement and proves what it is built to guarantee.

- `Wire`, `Varint`, `OutArchive`, `ValueCodec`, `ValueWriter`, `Protobuf`, `Accepted`, `Messages`: the
  `zpp::bits` codec. Varints with both decoders, length prefixes patched in after the body, nested
  containers, optionals, variants and self-referencing records under depth limits, through both archives;
  reading protobuf documents with undeclared fields and padded varints, what any accepted input leaves
  behind, and writing messages through the archive.
- `Session`, `Exports`, `Leases`, `Links`, `Outlines`, `Transport`: `WorkerTransport`. Requests and
  descriptors, signing, file publication and asynchronous export, frame leases, page links and the
  outline cache, over every sequence of operations.
- `RestartBudget`, `RenderHandshake`: `WorkerClient`'s restart policy and its cancellable render, the
  latter over every interleaving of the two threads.
- `Layers`, `RadioGroups`: the layer tree and the replay of a saved selection.
- `LinkPreview`: the preview's job scheduling.
- `Recovery`: the generator's error gate and recovery.
- `Basics`: definitions shared by the others.

The worker and the operating system are an arbitrary environment. Methods take what they answer as
parameters: the frames read, whether a write, a send, a rename or a start succeeds. Where a promise
depends on the worker, the dependence is explicit: `Docs.honest` says that link generations were
positive and unique within their sessions, `Truth.truthful` that outline answers were those of the
document. Ghost state records a run (the wire, the export ledger, lease offers, batches of links) and
is judged by small definitions that know nothing of the implementation.

Some promises do not hold as one would expect. They are stated as results, with an input and the exact
condition.

- A truncated protobuf message can be accepted, because a nested length is cut off at the enclosing span.
  `Protobuf.TruncationAccepted` is one; `Protobuf.Prefixes` says exactly which truncations are accepted
  and what they mean.
- `Synopsis` can answer with an empty outline where a generated one is owed, exactly when something other
  than a harmless notification arrives behind the first answer; `SynopsisAfterHangup` is such a run.
- A label of the layer tree can get a check state, exactly when an accepted reply flips it;
  `Layers.LabelChecked` is such a reply.
- A replay of layers succeeds under a weaker condition than agreement on locked entries;
  `RadioGroups.LockedDisagrees` is such a selection and `RadioGroups.RestoreIff` gives the exact condition.
- A varint length prefix is written through an eight-byte span, so a message is patched exactly if its body
  is shorter than 2^56 bytes (`OutArchive.Out.PatchLength`); `OutArchive.BodyTooLong` is one that is not, and
  `Messages.WriteAndRead` takes this into account.
- A packed protobuf field can announce more than there is and be accepted, exactly when position plus length
  overflows (`Protobuf.PackedTooLong`); `Accepted.PackedLengthWraps` is such an input.
- The allocation limit does not bound containers of bytes: `Accepted.LimitExceeded` is an input and
  `Accepted.BytesWithinLimit` the exact condition for one occurrence.
- After the backing file is swapped for one with another number of pages, recovery from an exit of the worker
  fails closed: `Recovery.SwapLosesDocument` is such a run and `Recovery.SwapThenRecover` the exact condition.

Counters, clocks and positions are unbounded integers; widths matter only in the codec, where every
word size is explicit.

## Model

| member | source | states |
|---|---|---|
| `Varint.SizeIsEncodedLength` | thirdparty/zpp/zpp_bits.h:1739-1752 | For every value, the bit-count formula is the number of bytes the encoding loop writes |
| `Varint.EncodeLengthIff` | thirdparty/zpp/zpp_bits.h:1787-1795 | An encoding has at most k bytes exactly when the value is below 2^(7k) |
| `Varint.RoundTrip` | thirdparty/zpp/zpp_bits.h:1754-1838 | Decoding an encoding, with anything behind it, yields the value and uses exactly the encoding, at every width |
| `Varint.DecodeShort` | thirdparty/zpp/zpp_bits.h:1801-1813 | The short-buffer loop computes the mathematical decoding, wrap-around and error codes included |
| `Varint.DecodeUnrolled` | thirdparty/zpp/zpp_bits.h:1814-1837 | The unrolled decoder computes the same decoding although it masks the tenth byte differently |
| `Varint.ReadVarint` | thirdparty/zpp/zpp_bits.h:1840-1877 | The one-byte fast path and the choice between the decoders do not change the result |
| `Varint.DecodersAgree` | thirdparty/zpp/zpp_bits.h:1800-1838 | On every terminated run of bytes, canonical or not, appending data, which may switch decoders, leaves value and length unchanged |
| `Varint.PrefixRejected` | thirdparty/zpp/zpp_bits.h:1800-1814 | Every proper prefix of an encoding is rejected as out of range |
| `Varint.CanonicalIff` | thirdparty/zpp/zpp_bits.h:1787-1795 | A terminated run of digits is the encoding of its value exactly when its last byte is not a superfluous zero |
| `Varint.ZigZagInverse` | thirdparty/zpp/zpp_bits.h:1763-1766 | Zig-zag and its inverse undo each other, in both directions, at every width |
| `Varint.IntRoundTrip` | thirdparty/zpp/zpp_bits.h:1754-1877 | Signed, unsigned and zig-zag integers of every width survive the trip, whatever follows |
| `OutArchive.Out.EnlargeFor` | thirdparty/zpp/zpp_bits.h:2113-2149 | Growth by 3/2 leaves the written bytes alone and makes room, or fails without a change exactly when the new size overflows std::size_t or exceeds the allocation limit |
| `OutArchive.EnlargedIff` | thirdparty/zpp/zpp_bits.h:2116-2136 | The wrap-around tests on the sum and on the product catch every overflow: the new size is 3/2 of the exact sum or there is none |
| `OutArchive.Out.WriteVarint` | thirdparty/zpp/zpp_bits.h:1754-1798 | Appends exactly the encoding; a fixed buffer takes it exactly when the encoding fits, a growing one exactly when there is or can be room for the longest varint of the type |
| `OutArchive.BodyTooLong` | thirdparty/zpp/zpp_bits.h:2548-2588 | A message with a body of 2^56 bytes is made of words and still cannot be written |
| `OutArchive.Out.Serialize` | thirdparty/zpp/zpp_bits.h:2516-2598 | For items nested to any depth, what was written before is unchanged and the item's image follows; a fixed buffer takes exactly an encodable item whose image fits, a growing one exactly an encodable item while no growth is refused |
| `OutArchive.Out.LengthPrefixed` | thirdparty/zpp/zpp_bits.h:2516-2598 | The back-patched message is varint(length of body) followed by the body, and the depth counter is restored |
| `OutArchive.Out.PatchLength` | thirdparty/zpp/zpp_bits.h:2548-2588 | A one-byte placeholder in front of a body becomes the body's length; on a fixed buffer it succeeds exactly when the length fits its span and there is room |
| `OutArchive.Out.MoveAhead` | thirdparty/zpp/zpp_bits.h:2568-2583 | The backward copy moves the body intact into the room behind it and touches nothing in front |
| `ValueCodec.DecodeEncode` | thirdparty/zpp/zpp_bits.h:2796-3054 | A readable value of any nesting decodes from its encoding at any offset of any data |
| `ValueCodec.RoundTripIff` | thirdparty/zpp/zpp_bits.h:2796-3054 | Whatever stands before and after an encoding, reading it gives the value and uses exactly the encoding, if and only if the value is within the reader's limits |
| `ValueCodec.PrefixRejected` | thirdparty/zpp/zpp_bits.h:2932-3054 | Every proper prefix of an encoding is rejected |
| `ValueCodec.EncodingsPrefixFree` | thirdparty/zpp/zpp_bits.h:2341-2477 | No encoding is a proper prefix of another of the same layout |
| `ValueCodec.DecodeSound` | thirdparty/zpp/zpp_bits.h:2796-3054 | Whatever bytes decode successfully decode to a value of the layout that is within the nesting and allocation limits |
| `ValueCodec.DecodeExtend` | thirdparty/zpp/zpp_bits.h:2796-3054 | More data behind the bytes a successful read used never changes what it read |
| `ValueCodec.In.ReadOne` | thirdparty/zpp/zpp_bits.h:2796-2910 | The archive reads what the mathematical decoder reads, leaves its position behind it, and restores the depth counter on every path |
| `ValueCodec.In.ReadMany` | thirdparty/zpp/zpp_bits.h:2932-3054 | The element loop of a container is the mathematical decoder, element by element, with its error |
| `ValueCodec.In.ReadAll` | thirdparty/zpp/zpp_bits.h:2886-2910 | Members in order, the first failure reported, the depth counter restored |
| `ValueWriter.WriteOne` | thirdparty/zpp/zpp_bits.h:2189-2477 | For every layout the encoding is appended and nothing before it changes; a fixed buffer takes exactly a value that is not nested too deeply for the writer and fits, a growing one exactly such a value while no growth is refused; the depth counter is restored on every path |
| `ValueWriter.WriteMany` | thirdparty/zpp/zpp_bits.h:2400-2405 | The element loop appends the elements' encodings in order or stops at the first that is refused |
| `ValueWriter.WriteAll` | thirdparty/zpp/zpp_bits.h:2152-2166 | The members of a record in order, the first failure ending the record, the depth counter restored |
| `ValueWriter.ReadableIsShallow` | thirdparty/zpp/zpp_bits.h:2295-2311 | Under the reader's nesting limit the writer refuses no value that can be read back |
| `ValueWriter.WriteAndRead` | thirdparty/zpp/zpp_bits.h:2189-2477 | A value through both archives, each at its own depth: when it is written, and that what was written reads back as the value exactly when it is within the reader's limits |
| `Protobuf.ReadAtIsDecode` | thirdparty/zpp/zpp_bits.h:1840-1877 | Reading a varint inside a span is reading the span |
| `Protobuf.ExtraSkipped` | thirdparty/zpp/zpp_bits.h:5283-5322 | Skipping a field with an undeclared number passes over exactly its payload, for every wire type, with minimal or padded varints |
| `Protobuf.MemberRead` | thirdparty/zpp/zpp_bits.h:5365-5515 | One occurrence of a declared member decodes to what it means, given what the member held before |
| `Protobuf.DocumentRead` | thirdparty/zpp/zpp_bits.h:5245-5282 | Any list of field occurrences, in any order, with undeclared fields and padded varints, decodes to what the occurrences mean in order |
| `Protobuf.DocumentRejected` | thirdparty/zpp/zpp_bits.h:5217-5243 | A document with a container beyond the allocation limit or a message beyond the nesting limit is rejected |
| `Protobuf.PrefixRead` | thirdparty/zpp/zpp_bits.h:5217-5282 | Inside any data, a prefix of a document is accepted exactly when it ends after an entry, or inside nested messages that in turn end so, and what is left is within the limits; it means what is left |
| `Protobuf.Prefixes` | thirdparty/zpp/zpp_bits.h:5217-5515 | The same for whole messages and every length of the prefix: when a truncation is noticed, and what an unnoticed one means |
| `Protobuf.TruncationAccepted` | thirdparty/zpp/zpp_bits.h:5226-5230 | Two bytes that announce a nested message of two bytes, and end, decode as a message with an empty nested message |
| `Protobuf.PackedTooLong` | thirdparty/zpp/zpp_bits.h:5459-5491 | A packed field that announces more than its span holds is rejected, except exactly when position plus length overflows std::size_t and no allocation limit rejects the length: then it is accepted without elements |
| `Protobuf.StripKeepsMeaning` | thirdparty/zpp/zpp_bits.h:5326-5338 | Removing undeclared fields at every depth does not change what a document means |
| `Messages.PackedSizeExact` | thirdparty/zpp/zpp_bits.h:5159-5177 | The length announced for a packed field is the number of bytes the archive is given behind it, and zero only for no elements |
| `Messages.MessageSpelled` | thirdparty/zpp/zpp_bits.h:4974-5215 | What the archive is asked to write for a message is exactly the message's document; the archive's own limits admit it exactly when nested bodies stay below 2^56 bytes and within the writer's nesting; then every announced length is right |
| `Messages.MessageOwn` | thirdparty/zpp/zpp_bits.h:4955-5010 | The document written for a message holds only declared fields, each under a tag that leads the reader back to its member |
| `Messages.EntriesMeaning` | thirdparty/zpp/zpp_bits.h:5245-5265 | A message's own document, read into any cleared message, gives the message |
| `Messages.UndeclaredFieldsIgnored` | thirdparty/zpp/zpp_bits.h:5217-5515 | Every document that differs from a message's own only by undeclared fields, at any depth and with padded varints, decodes to the message whatever the receiver held, exactly when it is within the limits |
| `Messages.RoundTrip` | thirdparty/zpp/zpp_bits.h:4974-5515 | What the calls for a writable message spell at any depth decodes at any depth to the message exactly when it is within the reader's limits |
| `Messages.WriteAndRead` | thirdparty/zpp/zpp_bits.h:4974-5215 | The fields of a message through the output archive and back, at any depths: a fixed buffer takes them exactly when they are writable and fit, an unlimited one exactly when they are writable, and what was written reads back as the message or is beyond the reader's limits |
| `Messages.WriteAndReadWhole` | thirdparty/zpp/zpp_bits.h:2516-2598 | The same for a whole message behind its length, which is a level of nesting for the writer and for the reader |
| `Accepted.FieldsTyped` | thirdparty/zpp/zpp_bits.h:5245-5282 | Whatever bytes the field loop accepts, every member is left of its kind and no message deeper than the limit allows |
| `Accepted.FieldsPaid` | thirdparty/zpp/zpp_bits.h:5245-5282 | Whatever bytes the field loop accepts, what the message gained is at most one element or byte for every byte read |
| `Accepted.AcceptedIsSound` | thirdparty/zpp/zpp_bits.h:5217-5515 | Any accepted input is used up and leaves typed members, bounded nesting and a content bounded by the receiver's and the input's length |
| `Accepted.BytesWithinLimit` | thirdparty/zpp/zpp_bits.h:5437-5477 | An occurrence leaves a container of bytes within the allocation limit exactly if it is length-delimited or the container was below the limit |
| `Accepted.LimitExceeded` | thirdparty/zpp/zpp_bits.h:5455-5458 | One byte under another wire type is appended under an allocation limit of none |
| `Accepted.PackedLengthWraps` | thirdparty/zpp/zpp_bits.h:5483-5490 | A packed field announcing the largest word is accepted as empty without an allocation limit |
| `Session.ChannelIsUnclaimed` | src/plugin/worker_transport.cpp:1075-1132 | On every disciplined wire a worker that takes descriptors in order takes for each request exactly those it names, and what is unclaimed is what was sent since |
| `Session.IdsIncrease` | src/plugin/worker_transport.cpp:1122-1123 | Request ids and CMS reply ids form one strictly increasing sequence |
| `Session.AtMostOneUnanswered` | src/plugin/worker_transport.cpp:1086-1112 | At most one request of a session is unanswered |
| `Session.OneReply` | src/plugin/signing_authorization.hpp:17-23 | No signing request gets more than one CMS reply |
| `Session.ReplyAuthorized` | src/plugin/worker_transport.cpp:1248-1262 | Every CMS reply is the first to an earlier signing request for the same certificate |
| `Exports.ExportsEndOnce` | src/plugin/worker_transport.cpp:997-1022 | Each registered export but a pending one ended exactly once: by one terminal signal or by one abandonment |
| `Exports.DropsNeedClose` | src/plugin/worker_transport.cpp:463-476 | An export ends without a signal only where a close happened while it was the registered one |
| `Leases.ClearSlots` | src/plugin/worker_transport.cpp:306-311 | Clearing the cache drops its share of every mapping and leaves the images theirs |
| `Leases.PinnedIsMapped` | src/plugin/worker_transport.cpp:135-152 | The mapping of a live image has a holder and is not unmapped |
| `Leases.CacheKeeps` | src/plugin/worker_transport.cpp:581-595 | A new slot enters the cache only below the limit, and reference counts stay exact |
| `Leases.GrantKeeps` | src/plugin/worker_transport.cpp:596-597 | A lease is held by one image that shares the mapping |
| `Leases.BuryKeeps` | src/plugin/worker_transport.cpp:154-167 | When an image dies its share goes and its release is queued once |
| `Leases.Dequeue` | src/plugin/worker_transport.cpp:169-176 | The oldest release leaves the queue to be sent, or lapses; it cannot lapse in the session that granted it while that lives |
| `Leases.ReleaseWritten` | src/plugin/worker_transport.cpp:169-176 | Writing a release while it is being sent, under the terms of its offer and in the session of the offer, keeps every offer's releases equal to its state |
| `Leases.ReleasesPass` | src/plugin/worker_transport.cpp:1117-1132 | Nothing else that passes over the channels counts as a release |
| `Leases.RefuseKeeps` | src/plugin/worker_transport.cpp:567-570 | A lease that no image takes is given back at once or lapses with its session |
| `Transport.FinalizeOutputFile` | src/plugin/worker_transport.cpp:977-995 | The target keeps its old content unless flush, sync and rename all succeed, then it has the complete new content |
| `Transport.CompleteExport` | src/plugin/worker_transport.cpp:997-1022 | A pending export ends with one signal, success exactly when the target was replaced; without one nothing happens |
| `Transport.CleanupSession` | src/plugin/worker_transport.cpp:306-344 | From any state, teardown fails the pending export, empties the caches, advances session and epoch, forgets the secrets and keeps every invariant |
| `Transport.HandleNotification` | src/plugin/worker_transport.cpp:1205-1272 | A notification changes only counters, the pending export and what the generator is handed; it fails exactly for a sign request that is not authorized or cannot be answered |
| `Transport.HandleProgress` | src/plugin/worker_transport.cpp:1228-1241 | Only the pending job's progress counts, and its end leaves nothing pending |
| `Transport.HandleSignInput` | src/plugin/worker_transport.cpp:1248-1270 | A CMS reply is written exactly for the signing request in flight, its certificate, once |
| `Transport.ReceiveResponse` | src/plugin/worker_transport.cpp:1162-1203 | Returns the first response if it carries the request's id and nothing refused came before it; otherwise the session is gone |
| `Transport.ResponseHasId` | src/plugin/worker_transport.cpp:1182-1195 | A returned response was sent under the request's own id |
| `Transport.Drain` | src/plugin/worker_transport.cpp:1274-1314 | Idle frames keep the session alive exactly when all are harmless notifications; no end of the pending export among them is missed |
| `Transport.SendDescriptor` | src/plugin/worker_transport.hpp:163-168 | A descriptor goes out under the next transfer id or nothing does; the id is spent either way |
| `Transport.WriteRequest` | src/plugin/worker_transport.cpp:1117-1132 | A written request names exactly the descriptors sent for it and takes the next id; a release settles its offer |
| `Transport.FailRequest` | src/plugin/worker_transport.cpp:1117-1128 | A request that cannot be written ends the session, and an offer being given back lapses |
| `Transport.Perform` | src/plugin/worker_transport.cpp:1090-1153 | On every path nothing stays in flight and authorization and password are gone |
| `Transport.AcceptResponse` | src/plugin/worker_transport.cpp:1138-1147 | An open publishes its generation together with the document, before anything is drained |
| `Transport.Call` | src/plugin/worker_transport.cpp:1075-1160 | The result is determined by what arrives; a reentrant call ends the session without writing; the session survives exactly when the call was answered and what followed was harmless |
| `Transport.CallWithDescriptor` | src/plugin/worker_transport.hpp:163-173 | A descriptor is followed by the request that names it, or none was sent |
| `Transport.WorkerTransport.Start` | src/plugin/worker_transport.cpp:200-292 | Ends the old session first; succeeds exactly when the channels come up and the first reply is compatible, and leaves no session otherwise |
| `Transport.WorkerTransport.Stop` | src/plugin/worker_transport.cpp:346-356 | No session, no document and no pending export remain; a pending one gets its failure signal |
| `Transport.WorkerTransport.ProcessDied` | src/plugin/worker_transport.cpp:358-369 | A dead process makes the transport unconnected and nothing else |
| `Transport.WorkerTransport.Open` | src/plugin/worker_transport.cpp:384-439 | Success exactly for an open response; outline cache and slots of the old document are gone, the new document is current, and a failed open leaves generation 0 |
| `Transport.WorkerTransport.Close` | src/plugin/worker_transport.cpp:463-488 | Drops a pending export without a signal before the request, ends the epoch, and clears the document even when the request fails |
| `Transport.WorkerTransport.Request` | src/plugin/worker_transport.cpp:494-501 | A plain request keeps every invariant and returns what the worker answered |
| `Transport.WorkerTransport.RequestOcr` | src/plugin/worker_transport.cpp:649-667 | An invalid request or a missing source sends no descriptor |
| `Transport.WorkerTransport.WriteFile` | src/plugin/worker_transport.hpp:158-192 | True exactly when the target has been replaced by the complete output |
| `Transport.WorkerTransport.SignToFile` | src/plugin/worker_transport.cpp:1028-1055 | True exactly when the worker signed and the target was replaced; the password is gone on every path |
| `Transport.WorkerTransport.StartExport` | src/plugin/worker_transport.cpp:901-975 | Returns a job exactly when every step succeeds; both descriptors go out or the session ends; a completion waiting behind the response is not lost |
| `Transport.DispatchExport` | src/plugin/worker_transport.cpp:924-957 | Output then input descriptor, then the request naming both; with only one sent the session ends |
| `Transport.AwaitExport` | src/plugin/worker_transport.cpp:969-974 | Notifications are read only after registration, so a job still pending has not ended |
| `Transport.WorkerTransport.ExportTimeout` | src/plugin/worker_transport.cpp:965-967 | A timed-out export fails and the target is untouched |
| `Transport.WorkerTransport.Poll` | src/plugin/worker_transport.cpp:1274-1314 | Idle reading keeps every invariant |
| `Transport.WorkerTransport.Render` | src/plugin/worker_transport.cpp:503-615 | An image comes exactly from a valid picture of a live session; a leased one is held by the session that granted it, a refused lease is never kept |
| `Transport.TakeSlot` | src/plugin/worker_transport.cpp:564-598 | A known slot comes without a descriptor, a new one with and only below the limit; otherwise the lease goes back |
| `Transport.LeaseSlot` | src/plugin/worker_transport.cpp:545-597 | The image shares the slot's mapping; if none can be made the lease is queued for release |
| `Transport.ShowPicture` | src/plugin/worker_transport.cpp:532-598 | An image comes exactly from an acceptable picture while the session lives, at most one offer is added, and none is left half given back |
| `Transport.RejectSlot` | src/plugin/worker_transport.cpp:567-570 | The lease counts as released exactly if its release was written to the live session; otherwise it lapses |
| `Transport.TakeLinks` | src/plugin/worker_transport.cpp:532-537 | Links beside a picture are kept only under the current generation |
| `Transport.WorkerTransport.ImageDies` | src/plugin/worker_transport.cpp:154-167 | The lease is queued for release and its share of the mapping goes |
| `Transport.WorkerTransport.RunRelease` | src/plugin/worker_transport.cpp:169-176 | The oldest release is written exactly when its session is the live one and the write succeeds, and only then counts as released; otherwise nothing is written or the session ends |
| `Transport.WorkerTransport.Synopsis` | src/plugin/worker_transport.cpp:719-769 | With truthful answers the result and its flag are the uncached ones, except exactly for an allowed, uncached request about a PDF without embedded outline behind whose first answer something other than a harmless notification arrives |
| `Transport.Outlined` | src/plugin/worker_transport.cpp:732-766 | Embedded first, then cached or scanned only where allowed; what is stored is the uncached answer |
| `Transport.SynopsisAfterHangup` | src/plugin/worker_transport.cpp:731-768 | A concrete run in which a generated outline is owed and an empty one is returned as the document's own |
| `Transport.WireIsSafe` | src/plugin/worker_transport.cpp:1075-1270 | Descriptors aligned with the requests that name them, ids increasing, nothing unanswered, every CMS reply the first and only one to a signing request for its certificate |
| `Transport.ExportsAreSafe` | src/plugin/worker_transport.cpp:463-476 | Every export but a pending one ended once, without a signal only where the document was closed, and files are what the signals say |
| `Transport.LeasesAreSafe` | src/plugin/worker_transport.cpp:154-176 | Every offer is given back at most once, under its own slot and lease, in its own session, and counts as released exactly then; in the live session every offer is held, queued or given back |
| `Transport.EveryStateSafe` | src/plugin/worker_transport.cpp:1075-1314 | Every valid state is safe in all of these respects, the links the generator accepts are of the open document or came under a generation the session never issued, and a cached outline is the document's |
| `Transport.Run` | src/plugin/worker_transport.cpp:200-1314 | After any sequence of operations, with any answers, any outlines and renders asked for in any earlier epoch, the transport is safe |
| `RestartBudget.LifeCycle.Prune` | src/plugin/worker_client.cpp:470-475 | Exactly the restarts older than the window are dropped |
| `RestartBudget.LifeCycle.ScheduleRestart` | src/plugin/worker_client.cpp:509-527 | Arms one timer with the delay of its attempt, or disables restarts when the budget is spent; never both, never while stopping or disabled |
| `RestartBudget.LifeCycle.RecordRestart` | src/plugin/worker_client.cpp:501-507 | A recorded restart keeps any three in a row at least the window apart |
| `RestartBudget.LifeCycle.TimerFires` | src/plugin/worker_client.cpp:529-547 | A restart happens only when not connected; a failed one is one more attempt or the end |
| `RestartBudget.LifeCycle.ProcessExited` | src/plugin/worker_client.cpp:42-55 | An exit leaves the client recovering or failed and never arms a disabled timer |
| `RestartBudget.LifeCycle.Start` | src/plugin/worker_client.cpp:72-80 | A manual start begins a new budget |
| `RestartBudget.LifeCycle.Stop` | src/plugin/worker_client.cpp:103-119 | A stop leaves no timer, and none is armed until the next start |
| `RestartBudget.Space` | src/plugin/worker_client.cpp:489-493 | Recording while at most one restart is inside the window keeps every three apart |
| `RestartBudget.Run` | src/plugin/worker_client.cpp:470-547 | Over any run: restarts spaced, at most three timers a streak, none once disabled |
| `RenderHandshake.ExecKeeps` | src/plugin/worker_client.cpp:261-304 | Every schedule of both threads keeps the invariant: mutex, references, job, caller and cookie agree |
| `RenderHandshake.CancelledBeforeDispatch` | src/plugin/worker_client.cpp:264-268 | A job cancelled before it looked sends no request, whatever the schedule |
| `RenderHandshake.ReturnedIsProduct` | src/plugin/worker_client.cpp:273-301 | What is returned is what a completed, uncancelled job produced |
| `RenderHandshake.LinksAreFinal` | src/plugin/worker_client.cpp:271-278 | Once done, links and product never change |
| `RenderHandshake.TakeAfterDone` | src/plugin/worker_client.cpp:297-301 | Links and image are read only after completion, and are the job's own |
| `RenderHandshake.CookieRises` | src/plugin/worker_client.cpp:289-296 | The cookie only goes from 0 to 1, and only for a cancelled job |
| `RenderHandshake.ActorHoldsReference` | src/plugin/worker_client.cpp:227-246 | Whoever takes a step holds a reference to the shared record |
| `RenderHandshake.NeverStuck` | src/plugin/worker_client.cpp:261-304 | No schedule deadlocks, and the record is freed exactly when both sides are through |
| `RenderHandshake.CallerReturns` | src/plugin/worker_client.cpp:284-304 | Once the job is done a caller that does not abort returns its product by its own steps |
| `Layers.LayersModel.ResetLayers` | src/generator/ui/layers_model.cpp:35-59 | All or nothing; the tree built with the parents stack reads back in preorder as the entries at their depths |
| `Layers.Grows` | src/generator/ui/layers_model.cpp:42-54 | A child appended at the end of the rightmost path comes last in preorder, at the path's depth |
| `Layers.LayersModel.SetData` | src/generator/ui/layers_model.cpp:84-123 | Asks exactly for a real change of a free entry; records the whole reply or nothing; exactly the entries whose selection differs, labels too, get the new check state and are reported |
| `Layers.LayersModel.HasSameStructure` | src/generator/ui/layers_model.cpp:61-73 | True exactly for a valid response that differs at most in selection |
| `Layers.LayersModel.IsDefaultVisibility` | src/generator/ui/layers_model.cpp:75-82 | True exactly when every selection is the initial one |
| `Layers.LayersModel.RestoreLayers` | src/generator/ui/layers_model.cpp:125-147 | Runs the replay and records its last reply, or changes nothing; the shown selection stays |
| `Layers.LayersModel.Pass` | src/generator/ui/layers_model.cpp:130-140 | One pass asks for each differing free entry in turn and stops at the first refusal |
| `Layers.RestoreSound` | src/generator/ui/layers_model.cpp:125-147 | For any worker, success means its last reply shows the saved selection |
| `Layers.Run` | src/generator/ui/layers_model.cpp:27-147 | After every sequence of clear, reset, set and restore, check boxes and radio buttons show the recorded selection, a label shows it exactly if an accepted reply changed it since the last reset, and the tree is that of the entries |
| `Layers.LabelChecked` | src/generator/ui/layers_model.cpp:107-113 | A concrete reply that gives a label a check state and reports it as changed |
| `RadioGroups.RestoreIff` | src/generator/ui/layers_model.cpp:129-147 | Against a radio-group worker the replay succeeds exactly when the saved selection is restorable, with one request for each differing entry |
| `RadioGroups.LockedDisagrees` | src/generator/ui/layers_model.cpp:129-147 | A selection that disagrees on a locked entry and is restored all the same, with one request |
| `RadioGroups.OnePerGroupRestores` | src/generator/ui/layers_model.cpp:129-147 | One saved selection per group and agreement on locked entries and labels suffice, in any entry order |
| `LinkPreview.Preview.OneJob` | src/generator/ui/link_preview.cpp:628-681 | Two jobs of the current generation are the same job, and it is the one m_cancelled stands for |
| `LinkPreview.Preview.ShowLink` | src/generator/ui/link_preview.cpp:453-498 | A resolution starts only when nothing is in flight |
| `LinkPreview.Preview.ShowDestination` | src/generator/ui/link_preview.cpp:500-621 | With a job in flight nothing is started and the layout stays unless it is the job's own; shows exactly when allowed |
| `LinkPreview.Preview.LayOut` | src/generator/ui/link_preview.cpp:570-600 | A new layout keeps the slots of a running job what they were |
| `LinkPreview.Preview.RenderVisiblePages` | src/generator/ui/link_preview.cpp:628-649 | Starts at most one job; without one, destination and pages in view are settled |
| `LinkPreview.Preview.StartRender` | src/generator/ui/link_preview.cpp:651-659 | The job remembers generation, slot, page and size |
| `LinkPreview.Preview.DeliverRender` | src/generator/ui/link_preview.cpp:660-680 | A delivered rendering lands exactly if current and not cancelled, in the slot of the page and size it was made for; the cache holds only this generation |
| `LinkPreview.Preview.DeliverResolve` | src/generator/ui/link_preview.cpp:482-496 | A resolved link is shown exactly if it is current, not cancelled and still wanted |
| `LinkPreview.Preview.Dismiss` | src/generator/ui/link_preview.cpp:393-403 | The job in flight is told to stop but stays the one in flight |
| `LinkPreview.Preview.ClearPreview` | src/generator/ui/link_preview.cpp:413-424 | A new generation with nothing in flight and an empty cache |
| `LinkPreview.Run` | src/generator/ui/link_preview.cpp:393-681 | Over any run: at most one current job, exactly while m_cancelled is set, and no stale image in the cache |
| `Recovery.PageError.Activate` | src/generator/page/error.cpp:101-111 | A terminal error is never downgraded |
| `Recovery.PageError.Deactivate` | src/generator/page/error.cpp:113-122 | Asks for a reload once per gate cycle and keeps the error shown |
| `Recovery.PageError.Reset` | src/generator/page/error.cpp:124-131 | Clears everything but a terminal error |
| `Recovery.Generator.FailClosed` | src/generator/mupdfng.cpp:1126-1138 | The error becomes terminal; edits and proxies go |
| `Recovery.Generator.WorkerExits` | src/generator/mupdfng.cpp:172-192 | Operations stop, both proxies become unavailable and lost edits are reported; pages, source and identity stay for the recovery |
| `Recovery.Generator.WorkerRestarted` | src/generator/mupdfng.cpp:193-199 | A recovery is queued unless an error is shown |
| `Recovery.Generator.ReopenWorkerDocument` | src/generator/mupdfng.cpp:1032-1124 | Succeeds exactly when page count, reported count, identity and layers match; only then are edits accepted again |
| `Recovery.Generator.RecoverSession` | src/generator/mupdfng.cpp:200-224 | Operations resume only after a matching reopen; otherwise an error is shown |
| `Recovery.Generator.Load` | src/generator/mupdfng.cpp:620-657 | Operations resume exactly after a completed load, with its pages, source and identity; a gated load shows the placeholder |
| `Recovery.Generator.InitPages` | src/generator/mupdfng.cpp:494-599 | A completed load clears any error but a terminal one and starts clean |
| `Recovery.Generator.CloseDocument` | src/generator/mupdfng.cpp:1141-1169 | Queued calls and document state go; a terminal error stays |
| `Recovery.Generator.UpdateSandboxGate` | src/generator/mupdfng.cpp:430-457 | Strict withholds the document, for good when edits would be lost |
| `Recovery.Generator.ReparseConfig` | src/generator/mupdfng.cpp:359-426 | No setting lifts a shown error |
| `Recovery.Generator.SwapBackingFile` | src/generator/mupdfng.cpp:926-961 | A failed reload is terminal; after a successful one source and identity are the new file's and the page list is the old one, so a truthful answer about the new file matches exactly if the sandbox allows it and the page counts are equal and not zero |
| `Recovery.SwapThenRecover` | src/generator/mupdfng.cpp:926-1124 | Load, swap, exit, restart and a truthful reopen: operations resume exactly if the sandbox allows it and both files have the same positive number of pages, and otherwise the error is shown, for good unless the sandbox is the reason |
| `Recovery.SwapLosesDocument` | src/generator/mupdfng.cpp:926-961 | Three pages saved as four, then an exit of the worker: the document is lost for good |
| `Recovery.Step` | src/generator/mupdfng.cpp:172-234 | After an exit only a load or a matching reopen makes the worker ready; a terminal error survives every event |
| `Recovery.RunFrom` | src/generator/mupdfng.cpp:1126-1138 | From a failed-closed state the worker is never ready again, whatever happens |

## Left out

- Process spawning, sockets, shared memory, seals and file synchronisation: their outcomes are parameters.
- ZppCodec, frame reading and frame-header validation: a frame is already a response, a notification or garbage.
- MuPDF, NSS, Tesseract, Okular and Qt widgets: foreign code.
- WorkerTransport's fields are grouped into one record that the class reassigns: aliasing between its parts is not modelled, and its private steps take and return that record.
- Signals delivered during an exchange do not call back into the transport; a reentrant call is covered by the contract of `Transport.Call` alone.
- processExited and the intentional-stop flag: only their effect on the client is modelled, in `RestartBudget` and `Recovery`.
- 64-bit wrap-around of request, transfer, session and epoch counters.
- Enums, booleans, maps, optionals and single-member messages of the protobuf protocol, and protobuf fields of the deprecated group types inside documents.
- Compile-time features of the codec: bit fields, hashing, RPC bindings, option types, native-endian bulk copies.
- Saving a generated outline to disk: the outline found there is a parameter.
- Render without a cancellation predicate, and the one-shot frame's own mapping.
- Memory exhaustion: reserving or resizing a container never fails, so an announced length that no allocation limit rejects is not rejected by the allocator either.
- Layer names are strings without encoding; tree items carry only what the layer list determines.
- Pixel geometry, scales, pinning and timers of the link preview: the layout and what the cursor allows are parameters.
- Password retention, OCR, document settings, printing and the signature previews of the generator.
- Transport.WorkerTransport.Request: stands for every request without a descriptor; it does not model what each caller makes of the response.
- Recovery.Generator.Load: does not model how the document type is recognised or which settings are pushed.
