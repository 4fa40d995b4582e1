# Verified models of the nanopb codec, the Alamofire request lifecycle and its form encoders

This project models three parts of the MyCloset dependencies and proves properties of the models.

**nanopb.** A generated list of field descriptors drives a protobuf encoder and decoder. `PbModel` has the descriptors
and the message structs they describe (members of a union share a slot; fixed-count arrays, presence flags and counts
are explicit). The specification is written as functions: `PbVarint` (varints and zig-zag, bit by bit), `PbEncoding`
(the bytes of a message) and `PbDecoding` (what bytes decode to, record by record). The theorems about it are in
`PbMerge`, `PbPacked`, `PbConcat`, `PbRecords`, `PbFields`, `PbWire`, `PbRoundTrip` and `PbNormal`. The programs
themselves, with streams that are updated in place, substreams, the field iterator, the two-pass encoder, the output
buffer, the bitmap of required fields and the loops of the source, are in `PbStream`, `PbCommon`, `PbEncode`,
`PbDecode` and `PbDecodeMessage`; each method is proved to compute what the specification says, to stay within its
stream, and to terminate. `PbCodec` puts both together.

**Alamofire's request lifecycle.** `AfTaskMap` has `RequestTaskMap`, `AfRequest` the protected state of a `Request`
and its tasks, `AfSession` the root-queue steps of a `Session`: as classes, with the effect of every locked block as a
function. `AfLifecycle` makes a transition system out of these functions, over any number of requests and tasks:
public calls may come at any time, queued steps run in any order (the order of the queues is not relied upon), tasks end
and deliver their two events at any time, and retriers, adapters and errors decide freely. `AfOneRequest` and
`AfInvariants` prove what every step keeps, `AfRuns`, `AfServing` and `AfStates` what follows for every run, and
`AfObjects` that the methods of the classes do these steps, so that every run of the system is a run of the objects.

**Form encoders.** `FormComponent` has the component tree that path-addressed updates build, `FormSerializer` the query
string and a parser for it, `Multipart` the in-memory and the streaming form of a multipart body, and `MultipartReader` a
reader of multipart bodies.

The code and its promises differ in these places; the model follows the code:

- A cancelled request can be left without an end. `cancel` leaves the finish to a live task, the completed task asks
  the retrier, and when that answers with a retry, `retryRequest` returns because the request is cancelled: no response
  handler is ever called (`AfRuns.RetryOfCancelledStrands`). `AfRuns.StrandsExactly` says exactly when this happens;
  in every other case a request that has not finished has a step, a task or a finish call that leads there.
- The bit position of the 32-bit varint reader has eight bits and wraps behind 37 bytes. The runs of a length are read
  right exactly up to that length (`PbVarint.ReadsRightUpTo37`); of every greater length there is one that reads as 8
  where it should read as 0 (`PbVarint.LongRunMisread`).
- A string that fills its buffer to the last byte can be encoded but not decoded, as the decoder stores a NUL behind it
  (`PbRoundTrip.MessageRoundTrip` says exactly when a message comes back).
- Concatenated messages that decode one after the other merge but in one case, in which they are refused: the second
  message starts its fixed-count arrays with the one that the first message ended with, and that array has entries.
  `PbConcat.ConcatIsMerge` says so for all descriptors and messages, `PbConcat.FixedCountDoesNotMerge` is an instance.
- A field with an explicit non-zero default and no presence flag loses the value zero (`PbRoundTrip.SingularSurvives`).
- On an empty descriptor the decoder takes a key with tag 0 (which is no zero key, as its wire type is not 0) for a
  required bool stored at offset 0, where generated empty structs have a dummy member; the model reads the varint and
  drops it.

`dafny verify dfyconfig.toml` checks the whole project.

## Model

| member | source | states |
|---|---|---|
| PbRoundTrip.MessageRoundTrip | MyCloset/Pods/nanopb/pb_decode.c:1075-1087 | Full message round trip: for every well-formed descriptor and every message of its shape, decoding the encoded bytes consumes all of them and gives the canonical message back, exactly when every string on the wire leaves room for its NUL |
| PbNormal.ExactRoundTrip | MyCloset/Pods/nanopb/pb_decode.c:1075-1087 | A message without junk (nothing behind a NUL, defaults in what is not there, unions with one of their members or nothing) comes back exactly as it was, with its presence flags, counts and choices |
| PbCodec.EncodeThenDecode | MyCloset/Pods/nanopb/pb_encode.c:528-550 | The two stream programs together: what pb_encode puts into a buffer, pb_decode reads back as the canonical message, up to the last byte |
| PbRoundTrip.CanonPresent | MyCloset/Pods/nanopb/pb_encode.c:341-426 | Meaning of the canonical message: a field that is on the wire keeps its value |
| PbRoundTrip.CanonAbsent | MyCloset/Pods/nanopb/pb_decode.c:836-906 | A slot none of whose fields is on the wire comes back at its default |
| PbRoundTrip.SingularSurvives | MyCloset/Pods/nanopb/pb_encode.c:240-339 | A singular field without presence flag, submessages included, survives if and only if it is not zero or zero is its default |
| PbConcat.ConcatIsMerge | MyCloset/Pods/nanopb/pb_decode.h:74-75 | For every descriptor: where `b` decodes into what `a` left, decoding `a ++ b` gives that same result, unless the last fixed-count array of `a` is the first one of `b` and has entries; exactly then it is refused. Without such a collision success and failure alike carry over |
| PbConcat.LoopForgetsFixed | MyCloset/Pods/nanopb/pb_decode.c:991-1010 | A message that does not come back to the array just completed is read as if no array had been entered before |
| PbConcat.LoopCollides | MyCloset/Pods/nanopb/pb_decode.c:991-1010 | One that comes back to it fails, if it would have completed the array afresh |
| PbConcat.NoFixedNoCollision | MyCloset/Pods/nanopb/pb_decode.c:991-1010 | Descriptors without fixed-count arrays never collide |
| PbMerge.LoopConcat | MyCloset/Pods/nanopb/pb_decode.c:943-1021 | The main loop over a concatenation goes on with the state the first part left, for every descriptor and every second part, good or bad |
| PbMerge.ZeroKeyStops | MyCloset/Pods/nanopb/pb_decode.c:310-314 | A zero key ends the message and leaves everything behind it unread |
| PbConcat.FixedCountDoesNotMerge | MyCloset/Pods/nanopb/pb_decode.c:991-1010 | The collision happens: a concrete descriptor whose message decodes twice in a row but not doubled |
| PbRecords.SubmessagesMerge | MyCloset/Pods/nanopb/pb_decode.c:414-422 | Two records of a required or optional submessage, whose bodies decode one after the other, are decoded as one record with both bodies, whatever else is in the message |
| PbRecords.LastScalarWins | MyCloset/Pods/nanopb/pb_decode.c:414-422 | The second record of a field that is no submessage wins |
| PbRecords.UnionForgets | MyCloset/Pods/nanopb/pb_decode.c:466-478 | A record of a member of a union leaves nothing of an earlier one of that union: a submessage starts from its defaults |
| PbFields.RequiredEnforced | MyCloset/Pods/nanopb/pb_decode.c:1024-1073 | A message is accepted exactly when its records can be decoded, its last fixed-count array is full, and each of the first 64 required fields has a record in it |
| PbFields.ArraysFilled | MyCloset/Pods/nanopb/pb_decode.c:991-1010 | No partial fixed-count array is accepted: where one came, every entry has a value |
| PbFields.LoopKeeps | MyCloset/Pods/nanopb/pb_decode.c:943-1021 | A slot no record is about is left as it was |
| PbFields.AbsentIsInitial | MyCloset/Pods/nanopb/pb_decode.c:836-920 | After pb_decode a field without a record has the default of its descriptor, or none: zero, empty, not present, through submessages |
| PbFields.ZeroKeyEnds | MyCloset/Pods/nanopb/pb_decode.c:310-314 | A zero byte between two records ends the message there |
| PbMerge.ForwardCompatible | MyCloset/Pods/nanopb/pb_decode.c:957-986 | Any record with an unknown tag, of any wire type and however its key, varint or length is padded, between any two records changes neither outcome nor result |
| PbMerge.UnknownRecordIgnored | MyCloset/Pods/nanopb/pb_decode.c:957-986 | The same for whole messages |
| PbMerge.SkipConsumesPayload | MyCloset/Pods/nanopb/pb_decode.c:278-331 | What pb_skip_field skips is exactly one payload of the wire type: a run of varint bytes, a word, or as many bytes as the length in front of them says; and nothing for the other wire types |
| PbMerge.WrittenRecordIsUnknown | MyCloset/Pods/nanopb/pb_decode.c:298-331 | What a writer puts on the wire for a field of a newer version is such a record |
| PbWire.RecordOnWire | MyCloset/Pods/nanopb/pb_encode.c:669-713 | What is written for a value is a key with the tag of the field and a payload of the wire type in that key |
| PbWire.PackedOnWire | MyCloset/Pods/nanopb/pb_encode.c:162-205 | The same for a packed array, whose payload holds its values |
| PbWire.ValueOnWire | MyCloset/Pods/nanopb/pb_encode.c:769-914 | What each payload says: varints in base 128, zig-zag numbers, words with their low byte first, bytes behind their length |
| PbWire.ZeroIsLeftOut | MyCloset/Pods/nanopb/pb_encode.c:240-339 | A field without presence flag is left out exactly when its payload would be zero bytes only |
| PbWire.EmptyIsLeftOut | MyCloset/Pods/nanopb/pb_encode.c:240-339 | A submessage is left out only when nothing would be written in it |
| PbWire.FieldIgnored | MyCloset/Pods/nanopb/pb_decode.c:957-986 | Whatever is written for a field is skipped by a reader that does not know it |
| PbWire.OlderReader | MyCloset/Pods/nanopb/pb_decode.c:957-986 | A reader that knows some of the fields decodes a whole encoded message as if only these had been written |
| PbWire.EncodeSucceeds | MyCloset/Pods/nanopb/pb_encode.c:528-550 | Encoding succeeds exactly when what is written keeps the limits of the descriptor, at every depth |
| PbPacked.PackedEqualsUnpacked | MyCloset/Pods/nanopb/pb_decode.c:424-464 | One packed record and a record per entry have the same effect from any state, including failure when the array is too small |
| PbPacked.PackedRun | MyCloset/Pods/nanopb/pb_decode.c:436-452 | The packed loop stores all entries when there is room for them and fails otherwise |
| PbVarint.VarintRoundTrip | MyCloset/Pods/nanopb/pb_encode.c:608-628 | Every 64-bit value is read back and the reader stops exactly behind it, whatever follows |
| PbVarint.EncodeVarint64Length | MyCloset/Pods/nanopb/pb_encode.c:608-628 | Every 64-bit value takes between one and ten bytes |
| PbVarint.EncodeVarintIsLeb | MyCloset/Pods/nanopb/pb_encode.c:608-628 | The written bytes are one run with the value as its base 128 meaning |
| PbVarint.Varint64IsLeb | MyCloset/Pods/nanopb/pb_decode.c:255-275 | The 64-bit reader accepts exactly runs of at most ten bytes and reads their value modulo 2^64 |
| PbVarint.Varint32IsLeb | MyCloset/Pods/nanopb/pb_decode.c:187-247 | On runs of at most 37 bytes: which ones the 32-bit reader accepts, and that it reads their value modulo 2^32 |
| PbVarint.Varint32Refines | MyCloset/Pods/nanopb/pb_decode.c:187-247 | Where both readers accept they stop at the same byte and agree modulo 2^32 |
| PbVarint.Varint32RoundTrip | MyCloset/Pods/nanopb/pb_decode.c:187-247 | The 32-bit reader takes back every value below 2^32 |
| PbVarint.Varint32SignExtended | MyCloset/Pods/nanopb/pb_decode.c:221-229 | It takes the ten-byte form of every negative 32-bit integer and reads its 32-bit pattern |
| PbVarint.LongRunMisread | MyCloset/Pods/nanopb/pb_decode.c:213-242 | Behind 37 bytes the 8-bit bit position has wrapped: of every length from 38 on there is a run with value 0 modulo 2^32 that reads as 8 |
| PbVarint.ReadsRightUpTo37 | MyCloset/Pods/nanopb/pb_decode.c:187-247 | All accepted runs of n bytes are read as their value modulo 2^32 if and only if n is at most 37 |
| PbVarint.ZigZagNumbers | MyCloset/Pods/nanopb/pb_encode.c:630-639 | The bit trick of the writer is the zig-zag numbering |
| PbVarint.ZigZagRoundTrip | MyCloset/Pods/nanopb/pb_decode.c:1269-1281 | Zig-zag inverts on all of int64 and reaches every 64-bit pattern |
| PbRoundTrip.VarintFits | MyCloset/Pods/nanopb/pb_decode.c:1329-1364 | The signed codec inverts for widths 1, 2, 4 and 8 |
| PbRoundTrip.UVarintFits | MyCloset/Pods/nanopb/pb_decode.c:1366-1388 | The unsigned codec inverts for widths 1, 2, 4 and 8 |
| PbRoundTrip.SVarintFits | MyCloset/Pods/nanopb/pb_decode.c:1390-1412 | The zig-zag codec inverts for widths 1, 2, 4 and 8 |
| PbRoundTrip.VarintAccepted | MyCloset/Pods/nanopb/pb_decode.c:1329-1364 | Exactly which signed values a field accepts, and as what |
| PbRoundTrip.UVarintAccepted | MyCloset/Pods/nanopb/pb_decode.c:1366-1388 | The same for unsigned fields |
| PbRoundTrip.SVarintAccepted | MyCloset/Pods/nanopb/pb_decode.c:1390-1412 | The same for zig-zag fields |
| PbRoundTrip.WordRoundTrip | MyCloset/Pods/nanopb/pb_decode.c:1283-1316 | Fixed 32- and 64-bit words are read back |
| PbRoundTrip.BytesRoundTrip | MyCloset/Pods/nanopb/pb_decode.c:1431-1549 | Byte arrays and strings are read back exactly when they fit their buffer, strings with a NUL; fixed-length bytes need their length, or none for zeros |
| PbModel.DefaultsShaped | MyCloset/Pods/nanopb/pb_decode.c:836-920 | Default values have the layout the descriptor demands, at every depth |
| PbModel.DefaultsAt | MyCloset/Pods/nanopb/pb_decode.c:908-920 | Setting defaults field by field leaves each slot at the default of its fields |
| PbModel.Put | MyCloset/Pods/nanopb/pb_decode.c:406-480 | Storing into a slot keeps the layout of the struct and every other slot |
| PbDecoding.Varint32Below | MyCloset/Pods/nanopb/pb_decode.c:187-247 | The 32-bit reader makes progress and fits 32 bits |
| PbDecoding.TagFindsField | MyCloset/Pods/nanopb/pb_common.c:78-95 | Tags are distinct, so a tag leads to its field |
| PbDecoding.LoopStep | MyCloset/Pods/nanopb/pb_decode.c:943-1021 | One iteration of the main loop on a record of a known field |
| PbDecoding.ReadKey | MyCloset/Pods/nanopb/pb_decode.c:298-319 | The decoder takes a written key apart |
| PbDecoding.WithItems | MyCloset/Pods/nanopb/pb_decode.c:436-464 | Storing array entries gives a consistent state in which just these were received |
| PbDecoding.DecodeLoop | MyCloset/Pods/nanopb/pb_decode.c:943-1021 | Every state of the main loop keeps the layout of the struct, and the loop never goes back in the input |
| PbStream.IStream.Read | MyCloset/Pods/nanopb/pb_decode.c:102-137 | Reads exactly the next bytes or nothing, and keeps the end of the stream |
| PbStream.IStream.ReadByte | MyCloset/Pods/nanopb/pb_decode.c:141-157 | The next byte |
| PbStream.OStream.Write | MyCloset/Pods/nanopb/pb_encode.c:103-124 | Appends just when the bytes fit, and never touches memory outside the room |
| PbStream.EmitsBoth | MyCloset/Pods/nanopb/pb_encode.c:103-124 | Two writing steps in a row are one |
| PbCommon.FieldIter.Next | MyCloset/Pods/nanopb/pb_common.c:20-76 | All iterator fields stay functions of the position |
| PbCommon.FieldIter.Find | MyCloset/Pods/nanopb/pb_common.c:78-95 | Ends within one lap, before its end when it finds the tag, succeeds just when a field has the tag, and leaves the iterator where it was otherwise |
| PbCommon.SameSlotSamePlace | MyCloset/Pods/nanopb/pb_common.c:42-49 | Members of a union share their place in the struct |
| PbCommon.SlotsDoNotOverlap | MyCloset/Pods/nanopb/pb_common.c:33-72 | A field with a slot of its own ends before any later one starts |
| PbEncode.WriteVarint | MyCloset/Pods/nanopb/pb_encode.c:608-628 | Writes the varint of the value |
| PbEncode.FillGroups | MyCloset/Pods/nanopb/pb_encode.c:619-625 | The loop over the groups of seven bits |
| PbEncode.CheckProto3Default | MyCloset/Pods/nanopb/pb_encode.c:240-339 | Decides whether a slot is at its proto3 default, through submessages |
| PbEncode.WriteValue | MyCloset/Pods/nanopb/pb_encode.c:769-914 | The field encoders write just what the value stands for |
| PbEncode.WriteSubmessage | MyCloset/Pods/nanopb/pb_encode.c:717-765 | Sizing, length and writing pass; the two passes never disagree, so the size-changed error is unreachable |
| PbEncode.PackedSize | MyCloset/Pods/nanopb/pb_encode.c:169-189 | The size of a packed array computed in advance is the size that is written |
| PbEncode.WritePacked | MyCloset/Pods/nanopb/pb_encode.c:162-205 | Key, length and values of a packed array |
| PbEncode.WriteField | MyCloset/Pods/nanopb/pb_encode.c:341-426 | One field with its presence test |
| PbEncode.WriteMessage | MyCloset/Pods/nanopb/pb_encode.c:528-550 | The message, field by field; on failure no byte outside the room of the stream is touched |
| PbEncode.GetEncodedSize | MyCloset/Pods/nanopb/pb_encode.c:567-576 | The sizing pass gives the length of what the writing pass would write |
| PbEncode.EncodeToBuffer | MyCloset/Pods/nanopb/pb_encode.c:567-576 | Encoding into n bytes succeeds exactly when the size is at most n, writes just that many and leaves the rest of the memory alone |
| PbDecode.ReadVarint32Eof | MyCloset/Pods/nanopb/pb_decode.c:187-247 | The loop of the 32-bit reader, with its wrapping bit position and its end-of-input flag |
| PbDecode.ReadVarint | MyCloset/Pods/nanopb/pb_decode.c:255-275 | The loop of the 64-bit reader |
| PbDecode.ReadTag | MyCloset/Pods/nanopb/pb_decode.c:298-319 | Key, end of input or zero key, told apart |
| PbDecode.SkipOver | MyCloset/Pods/nanopb/pb_decode.c:321-331 | Skips one payload |
| PbDecode.MakeSubstream | MyCloset/Pods/nanopb/pb_decode.c:372-385 | Parent and child share out the bytes left: their sum is the old value minus the length prefix |
| PbDecode.CloseSubstream | MyCloset/Pods/nanopb/pb_decode.c:387-400 | The parent goes on exactly behind the payload, however much of it was read |
| PbDecode.ReadFixed64 | MyCloset/Pods/nanopb/pb_decode.c:1298-1316 | The shifts and ors assemble the little-endian value |
| PbDecode.DecVarint | MyCloset/Pods/nanopb/pb_decode.c:1329-1364 | The cast and the overflow check of signed fields |
| PbDecode.DecString | MyCloset/Pods/nanopb/pb_decode.c:1468-1501 | Room for the NUL, in 32-bit arithmetic |
| PbDecode.DecFixedBytes | MyCloset/Pods/nanopb/pb_decode.c:1527-1549 | Fixed-length bytes with their special empty form |
| PbDecodeMessage.SetToDefaults | MyCloset/Pods/nanopb/pb_decode.c:908-920 | Every slot ends at its default, whatever the memory held |
| PbDecodeMessage.DecSubmessage | MyCloset/Pods/nanopb/pb_decode.c:1503-1525 | A submessage is decoded within its declared end and replaces or merges into the value |
| PbDecodeMessage.DecPacked | MyCloset/Pods/nanopb/pb_decode.c:424-452 | A packed array through its substream |
| PbDecodeMessage.DecSlot | MyCloset/Pods/nanopb/pb_decode.c:414-480 | Required, optional and union fields |
| PbDecodeMessage.TrackField | MyCloset/Pods/nanopb/pb_decode.c:991-1017 | Counter of fixed-count arrays and bits of required fields |
| PbDecodeMessage.DecodeFields | MyCloset/Pods/nanopb/pb_decode.c:943-1021 | The main loop reaches the state and position the specification gives, and ends |
| PbDecodeMessage.CheckWords | MyCloset/Pods/nanopb/pb_decode.c:1051-1070 | The word-by-word comparison accepts exactly the complete bitmaps |
| PbDecodeMessage.CheckRequired | MyCloset/Pods/nanopb/pb_decode.c:1032-1070 | The final check accepts exactly when every tracked required field was seen, wherever the iterator stands |
| PbDecodeMessage.MarkBelow | MyCloset/Pods/nanopb/pb_decode.c:1012-1017 | No bit at or above the number of required fields is ever set |
| PbDecodeMessage.WordFull | MyCloset/Pods/nanopb/pb_decode.c:1053-1068 | A word without higher bits is complete just when it equals the mask |
| PbDecodeMessage.DecodeNoinit | MyCloset/Pods/nanopb/pb_decode.c:925-1073 | pb_decode_noinit computes the specified message, and on success ends where its stream ends or at a zero key |
| PbDecodeMessage.Decode | MyCloset/Pods/nanopb/pb_decode.c:1075-1087 | pb_decode: the same from default values |
| AfTaskMap.AssignKeeps | MyCloset/Pods/Alamofire/Source/RequestTaskMap.swift:60-63 | Assigning a new task keeps the maps consistent if and only if the request has no task |
| AfTaskMap.RemoveKeeps | MyCloset/Pods/Alamofire/Source/RequestTaskMap.swift:45-85 | Removing by task or by request removes the same pair and nothing else |
| AfTaskMap.SecondEventDisassociates | MyCloset/Pods/Alamofire/Source/RequestTaskMap.swift:113-139 | Which calls are fatal, and that the second event, in either order, is the one that disassociates |
| AfTaskMap.RequestTaskMap.SetTask | MyCloset/Pods/Alamofire/Source/RequestTaskMap.swift:45-64 | The subscript by request |
| AfTaskMap.RequestTaskMap.DisassociateIfNecessaryAfterCompleting | MyCloset/Pods/Alamofire/Source/RequestTaskMap.swift:125-139 | The completion event on the three dictionaries |
| AfRequest.TransitionsAre | MyCloset/Pods/Alamofire/Source/Request.swift:50-63 | Which state transitions are allowed |
| AfRequest.PublicCallsObeyed | MyCloset/Pods/Alamofire/Source/Request.swift:652-714 | cancel, suspend and resume make a newest task that was as its request asked canceling (with its metrics), paused or running, touch it in no other case, and a cancel finds a live task or queues finish |
| AfRequest.Request.Cancel | MyCloset/Pods/Alamofire/Source/Request.swift:652-671 | cancel on the object and its newest task |
| AfRequest.Request.Finish | MyCloset/Pods/Alamofire/Source/Request.swift:496-509 | finish with its guard |
| AfRequest.Request.ProcessNextResponseSerializer | MyCloset/Pods/Alamofire/Source/Request.swift:552-584 | The next serializer, or all completions and the end |
| AfSession.Session.DidCreateURLRequest | MyCloset/Pods/Alamofire/Source/Session.swift:904-914 | A task is entered in map and request and is paused, running or canceling as the state of the request asks |
| AfSession.Session.DidGatherMetricsForTask | MyCloset/Pods/Alamofire/Source/Session.swift:1032-1041 | A waiting completion is called by the second event |
| AfSession.Session.DidCompleteTask | MyCloset/Pods/Alamofire/Source/Session.swift:1043-1053 | A completion is called at once when metrics came first, and waits otherwise |
| AfInvariants.InvStep | MyCloset/Pods/Alamofire/Source/Session.swift:904-1053 | Every step of the system keeps all invariants |
| AfInvariants.OneTask | MyCloset/Pods/Alamofire/Source/Session.swift:926-945 | A step that drives one task of one request disturbs nothing else |
| AfInvariants.InvMake | MyCloset/Pods/Alamofire/Source/Session.swift:904-914 | A task is only ever made for a request without one |
| AfInvariants.ClosureRequest | MyCloset/Pods/Alamofire/Source/Request.swift:449-484 | The completion closure starts a retry or the finish, and nothing was under way before |
| AfOneRequest.RunLocalOk | MyCloset/Pods/Alamofire/Source/Request.swift:476-605 | Every queued step of a request keeps its handlers and attempts in order |
| AfOneRequest.FinishHandlers | MyCloset/Pods/Alamofire/Source/Request.swift:496-584 | finish, at any time and any number of times, keeps the order of handlers |
| AfRuns.TaskBookkeeping | MyCloset/Pods/Alamofire/Source/RequestTaskMap.swift:45-139 | In every run the maps are mutual inverses, events are kept for exactly the mapped tasks, and no consistency check fails |
| AfRuns.ClosureAtSecondEvent | MyCloset/Pods/Alamofire/Source/Session.swift:1032-1053 | Each completion closure is called exactly once, when the second event of its task arrives |
| AfRuns.HandlersInOrder | MyCloset/Pods/Alamofire/Source/Request.swift:537-593 | Serializers run one at a time in append order, and completions are called all at once, in order, or not at all |
| AfRuns.HandlersServed | MyCloset/Pods/Alamofire/Source/Request.swift:552-584 | When finish is over both lists are empty, everything has run, and the state is finished or cancelled |
| AfRuns.ServedForever | MyCloset/Pods/Alamofire/Source/Request.swift:496-584 | No handler runs or is called again in the rest of the run |
| AfServing.SerializersProgress | MyCloset/Pods/Alamofire/Source/Request.swift:552-593 | While handlers are served there is a serializer step to take |
| AfServing.ServingStep | MyCloset/Pods/Alamofire/Source/Request.swift:552-593 | Of all steps of the system exactly the serializer steps of a request bring its serving nearer to the end, each by one |
| AfServing.ServingEnds | MyCloset/Pods/Alamofire/Source/Request.swift:496-593 | In every run, serving that has begun is over after just as many serializer steps as were left, whatever is interleaved with them |
| AfRuns.NewestTaskObeys | MyCloset/Pods/Alamofire/Source/Session.swift:904-945 | No lost call: once updateStatesForTask has run, the newest task is over, or running if its request is resumed, paused if it is suspended or has not been started, canceling if it is cancelled |
| AfStates.TasksFollowCalls | MyCloset/Pods/Alamofire/Source/Request.swift:652-714 | In every run a task is cancelled only if its request is, never before it was resumed for its metrics, and runs only if its request has been resumed |
| AfStates.FinishedIsOver | MyCloset/Pods/Alamofire/Source/Request.swift:552-584 | All tasks of a finished request are over |
| AfStates.StateAfterStep | MyCloset/Pods/Alamofire/Source/Request.swift:50-63 | The state of a request after any step of the system: decided by the call it is, and else finished exactly when its handlers have been served |
| AfStates.AttachAsks | MyCloset/Pods/Alamofire/Source/Request.swift:516-532 | Attaching a handler asks for a start exactly when the request is new or suspended |
| AfStates.StartsWhenAsked | MyCloset/Pods/Alamofire/Source/Request.swift:516-532 | If requests start immediately, none with a handler is left as it was made with nothing to start it |
| AfStates.CancelledGetsNoTask | MyCloset/Pods/Alamofire/Source/Session.swift:827-907 | After a cancel no task is made for the request, unless it was past the last guard |
| AfStates.PhasesPass | MyCloset/Pods/Alamofire/Source/Session.swift:867-1020 | Exactly which steps bring a request to set-up, creation, failure, retrier and retry, in which cases |
| AfRuns.CancelledForever | MyCloset/Pods/Alamofire/Source/Request.swift:50-63 | Cancelled is absorbing |
| AfRuns.StrandedMeansDropped | MyCloset/Pods/Alamofire/Source/Session.swift:1005-1020 | A request waits in vain if and only if its retry was dropped |
| AfRuns.StrandsExactly | MyCloset/Pods/Alamofire/Source/Session.swift:1007-1008 | The step that strands a request: retryRequest meets a cancelled request for which no finish is queued |
| AfRuns.StrandedForever | MyCloset/Pods/Alamofire/Source/Session.swift:1007-1008 | A stranded request is never finished |
| AfRuns.RetryOfCancelledStrands | MyCloset/Pods/Alamofire/Source/Session.swift:1005-1020 | A concrete run in which a retrier asks to retry a cancelled request and its handler is never called |
| AfObjects.Call | MyCloset/Pods/Alamofire/Source/Request.swift:652-714 | cancel, suspend and resume on the objects are the steps of the system, and post the blocks these queue |
| AfObjects.Append | MyCloset/Pods/Alamofire/Source/Request.swift:516-532 | So is appendResponseSerializer |
| AfObjects.StartIfStarting | MyCloset/Pods/Alamofire/Source/Request.swift:528-530 | So is the block it posts to start the request |
| AfObjects.RunQueued | MyCloset/Pods/Alamofire/Source/Request.swift:476-605 | So are the queued steps, with the completions they call |
| AfObjects.Start | MyCloset/Pods/Alamofire/Source/Session.swift:904-914 | didCreateURLRequest on the objects takes them to the specified state |
| AfObjects.CreatedSteps | MyCloset/Pods/Alamofire/Source/Session.swift:904-945 | That state is reached by the guard alone, or by four steps of the system in a row |
| AfObjects.DeliverMetrics | MyCloset/Pods/Alamofire/Source/Session.swift:1032-1041 | The metrics event on the objects is its step, and calls the completion closure just as the second event |
| AfObjects.DeliverCompletion | MyCloset/Pods/Alamofire/Source/Session.swift:1043-1053 | The same for the completion event |
| AfObjects.Perform | MyCloset/Pods/Alamofire/Source/Session.swift:904-1053 | The objects can do every enabled step, and then show the state after it |
| AfObjects.Execute | MyCloset/Pods/Alamofire/Source/Session.swift:904-1053 | Every run of the transition system is a run of the objects |
| FormComponent.EncodedKeeps | MyCloset/Pods/Alamofire/Source/URLEncodedFormEncoder.swift:496-547 | Path-addressed updates rebuild a nested value, with array order and order of keys, if and only if its keys are distinct and no container in it is empty (or it is the empty object) |
| FormComponent.Rebuilds | MyCloset/Pods/Alamofire/Source/URLEncodedFormEncoder.swift:496-547 | From an empty container of either kind the leaves rebuild the value |
| FormComponent.SetAllBelow | MyCloset/Pods/Alamofire/Source/URLEncodedFormEncoder.swift:509-547 | Updates below one key build up the child under that key and nothing else |
| FormComponent.SetAtPlain | MyCloset/Pods/Alamofire/Source/URLEncodedFormEncoder.swift:501-547 | An update never leaves an empty container or a repeated key behind |
| FormComponent.EncodeAt | MyCloset/Pods/Alamofire/Source/URLEncodedFormEncoder.swift:800-876 | The containers, with their count and nested paths, set the leaves depth first |
| FormComponent.Encode | MyCloset/Pods/Alamofire/Source/URLEncodedFormEncoder.swift:354-363 | The component tree of a value |
| FormSerializer.QueryParses | MyCloset/Pods/Alamofire/Source/URLEncodedFormEncoder.swift:900-937 | Splitting the query at & and = and decoding gives the leaves of the object, each under the key of its path (first name, then names in brackets, indices as brackets or nothing), in order or as a permutation when alphabetised |
| FormSerializer.EncoderParses | MyCloset/Pods/Alamofire/Source/URLEncodedFormEncoder.swift:354-363 | From end to end: a receiver reads the leaves of the encoded value, each under the key of its coding path |
| FormSerializer.LeafKeysDiffer | MyCloset/Pods/Alamofire/Source/URLEncodedFormEncoder.swift:919-928 | Paths of names without brackets have the same key only if they are the same |
| FormSerializer.Escaped | MyCloset/Pods/Alamofire/Source/URLEncodedFormEncoder.swift:939-946 | Each byte is itself, a chosen space, or a percent sign and two upper-case hexadecimal digits |
| FormSerializer.DelimitersEscaped | MyCloset/Pods/Alamofire/Source/URLEncodedFormEncoder.swift:955-973 | Which bytes stay: all printable ones but the delimiters other than / and ? and those no query may have |
| FormSerializer.AtMostIsDictionary | MyCloset/Pods/Alamofire/Source/URLEncodedFormEncoder.swift:900-909 | The order when alphabetised is that of dictionaries, by bytes |
| FormSerializer.SerializeParses | MyCloset/Pods/Alamofire/Source/URLEncodedFormEncoder.swift:911-937 | The same below any key, for every tree without empty containers |
| FormSerializer.UnescapeEscape | MyCloset/Pods/Alamofire/Source/URLEncodedFormEncoder.swift:939-946 | Percent-decoding recovers every text, under both encodings of spaces |
| FormSerializer.EscapeIsClean | MyCloset/Pods/Alamofire/Source/URLEncodedFormEncoder.swift:939-973 | Escaped text contains no delimiter |
| FormSerializer.SortedInOrder | MyCloset/Pods/Alamofire/Source/URLEncodedFormEncoder.swift:900-909 | Alphabetising sorts the segments and keeps them all |
| FormSerializer.SerializeRoot | MyCloset/Pods/Alamofire/Source/URLEncodedFormEncoder.swift:900-909 | The loop over the root object |
| Multipart.EncodingIsMultipart | MyCloset/Pods/Alamofire/Source/MultipartFormData.swift:57-75 | One initial boundary, one between consecutive parts, one final: section 5.1.1 of RFC 2046 |
| MultipartReader.EncodingReads | MyCloset/Pods/Alamofire/Source/MultipartFormData.swift:57-75 | A reader after section 5.1.1 of RFC 2046 gets back exactly the parts, with headers and bodies, and sees the end, when the delimiter occurs in no part and headers are single lines |
| Multipart.MultipartFormData.Encode | MyCloset/Pods/Alamofire/Source/MultipartFormData.swift:317-333 | encode produces that form, for any chunking of the body reads |
| Multipart.MultipartFormData.WriteEncodedData | MyCloset/Pods/Alamofire/Source/MultipartFormData.swift:342-366 | writeEncodedData emits the same bytes, for any chunking of reads and any partial writes |
| Multipart.MultipartFormData.EncodeBodyStream | MyCloset/Pods/Alamofire/Source/MultipartFormData.swift:397-420 | All of a body stream, however it is read |
| Multipart.MultipartFormData.WriteBuffer | MyCloset/Pods/Alamofire/Source/MultipartFormData.swift:482-498 | The partial-write loop emits exactly the buffer |

## Left out

- Pointer, callback and extension fields, `PB_ENABLE_MALLOC` and custom stream callbacks are not modelled: they depend on foreign function pointers or on other build settings.
- `pb_size_t` is taken to be 32 bits wide, as the pods define `PB_FIELD_32BIT`, and `size_t` 64 bits.
- Structs are message values with a slot per member, not raw memory; offsets are those the iterator adds up. A submessage is decoded in memory of its own that then replaces the value, and array entries are stored together at the end of the record, so writes that become visible before a failure are not captured; after a failed decode the contents of the destination are not specified.
- Bytes of a string buffer behind its NUL and the entries of a fixed-count array after defaults (the source overwrites the first of them with a count) are undefined in the model, except that the encoder reads strings up to their NUL.
- PbStream.OStream.Write: makes the test for overflow of `bytes_written` on sizing streams too, where the source would wrap around at 2^64.
- Error messages are not modelled, but for the one that the size of a submessage has changed.
- `pb_decode_delimited`, `pb_encode_delimited` and their variants are compositions of modelled steps.
- PbDecodeMessage.DecSubmessage: does not capture the bytes of a submessage that are written into its destination before the decoding fails, because the submessage is decoded in memory of its own.
- Writing `isFinishing` through `directValue` in `finish` is one step; the source reads and writes the whole state in two locked steps there, between which a concurrent cancel could be lost.
- Whether the session starts requests immediately is decided anew at each posted block, so that runs of both kinds are covered.
- Handlers attached after finish has begun, session invalidation and deinit, retries asked for by response serializers, and retriers or adapters that call back twice are not steps of the transition system.
- Whether there is an error, and which, is a free choice of the environment; `didCancel`, event monitors, progress, credentials, redirects and `activeRequests` are left out. `DownloadRequest`, which overrides `cancel`, is left out.
- Tasks have a state but no suspension count: suspending twice and resuming once leaves a task running.
- Coding keys are strings or array indices and leaves are strings; `Codable` reflection, date, data and Bool encodings, key encodings, `superEncoder` and Unicode are left out, and texts are compared byte by byte.
- Streams and files of the operating system are byte sequences: no stream error occurs, and output streams always have space, as the partial-write loop would silently drop bytes otherwise. Parts are encoded once, with fresh streams.
- The app's own code, AFError, event monitors, retry policies, server trust evaluation and the other pods would add only easy members.
