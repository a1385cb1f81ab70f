# The BOSSWAVE client's frame codec and request protocol

bw2c is a C client for the BOSSWAVE out-of-band protocol. This project models its two cores and
proves what they promise.

**The codec** (`frame.c`, `utils.c`). A frame is a 27-byte header, then key/value headers,
payload objects and routing objects in any order, each with a decimal length in front of its
bytes, then `end`. It is read from a stream whose `recv` may hand over any positive number of
bytes, into a caller's buffer that serves as a bump-allocated heap, or into `malloc`ed blocks.
`Decimal`, `Frames` and `Codec` say what the reader makes of every byte stream and what the
writer emits for every frame; `RoundTrip`, `Framing` and `Grammar` prove the laws of the format,
what is written is read and what is read is spelled as it should be, and `Faults` says when the reader writes through a null pointer; `Arrays` and `Splits` are the pieces in which
a frame is sent and the ways in which `send` cuts them up; `Stream`, `ObjectLists`, `Reader`,
`FrameReader`, `Headers`, `Writer` and `Release` are the loops, the heap, the linked lists with their tail
pointers, and the freeing of a frame, proved against all this.

**The request protocol** (`daemon.c`, `api.c`). Any number of API calls draw a sequence number,
push a request on a shared list, write a frame and sleep; one daemon thread reads frames, walks
the list, runs callbacks and unlinks requests, and tears everything down when the connection is
lost. `Protocol` is the transition system: one program counter per call, one for the daemon, the
owners of `reqslock` and `outlock`, the request's own lock, the flag `connected`, and the history
of frames dispatched, frames heard, callbacks made and bytes sent. Every action is one step
between two points at which another thread may run. `Basics` and `Fitting` hold what all runs
keep; `Ending`, `Teardown`, `Stranding`, `Results`, `Overtaking`, `Lifetime`, `Delivery`, `Exactness`, `Walks`,
`Deadlock`, `Numbers` and `Wire` prove the properties; `Streams` says what a request is to hear;
`Execution` and `Segments` build and compose runs. `Dispatch` is the list itself, with its nodes,
its pointer to a link and callbacks that give a node's memory away, and `Agreement` shows that the
walk of the protocol and the list code do the same.

In `Protocol`, `StepCall` is `bw2_transact`, `bw2_reqctxWait` and the return of the API functions,
one program counter for each point between two locks; `WorkDaemon` is `bw2_daemon` with `Treat` and
`NextStage` for the callbacks of `api.c`, one stage for each point at which a callback has changed
what others can see; `Send` and `Fail` are the two ways in which a `send` inside `bw2_writeFrame`
ends, of one of the arrays that the frame is written in; `Read` is the return of `bw2_readFrame`. `Codec.ReadFrame` and `Codec.Encode` are the two
directions of the format as functions, and `FrameReader.ReadFrame` and `Writer.WriteFrame` the
loops.

## Where the code departs from its intent

The code is modelled as it stands, and next to it the code with a named place put right. The
flags of `Codec.Build` and `Protocol.Repairs` choose; `false` is the code as written, and all
results hold for every choice of the flags that they do not mention. Where a property fails as
written, the result is an equivalence: it holds in all runs, or for all inputs, exactly when the
flags of the table are set, for the API functions it concerns, with a concrete frame or run for
the other direction. Next to it stands what does hold of the code as written: a condition on the
frame, the stream, the state or the run.

| flag | place | as written | exactly when | as written it holds |
|---|---|---|---|---|
| `guardsCount` | utils.c:98 | a token that fills its buffer makes the reader increment through NULL | `RoundTrip.FrameRoundTrip` | for frames with short tokens; `Faults.ReadFrameFaults` for streams |
| `reportsFull` | frame.c:481, 543, 590 | an object dropped for lack of heap is reported as read, and a null pointer is linked | `Framing.HeapBoundedReading` | while every object fits; `Faults.ReadFrameFaults` |
| `checksColon` | frame.c:508 | a payload number with no colon is written through NULL | `Faults.ReadFrameFaults` | for streams without one |
| `advancesSend` | utils.c:188 | a `send` that takes part of an array is followed by one from its start | `Stream.FullWriteIsExact`, `Splits.FrameWriteIsExact`, `Wire.FramesAreWholeExactly` | until a `send` is split: `Wire.FramesAreWhole` |
| `connectFirst` | api.c:300-305 | the daemon may look at `connected` before `bw2_connect` sets it | `Stranding.NoCallerIsStranded` | `Stranding.TeardownStrands` |
| `checksTransact` | api.c:537-538 | `bw2_query` waits for a request that was refused | `Stranding.NoCallerIsStranded` | for all other functions |
| `sweepAdvances` | daemon.c:66-69 | the teardown never moves on from the first request | `Teardown.TeardownEnds`, `Lifetime.RequestsOutliveTheirUse` | if the list is empty; until the sweep: `Lifetime.SafeWhileGuarded` |
| `judgesFirst` | api.c:459-460, 490-491, 576-577 | a callback reads `rv` from a request it has signalled | `Exactness.DeliveryIsExactExactly`, `Walks.DispatchIsFilterExactly`, `Lifetime.RequestsOutliveTheirUse` | until a stream is refused: `Exactness.DeliveryIsExact`, `Walks.DispatchIsFilter`; or finished by its first frame: `Lifetime.SafeWhileGuarded` |
| `unlinksFailed` | daemon.c:133-138 | a call whose write failed returns with its request linked; put right, it takes the request off the list again under `reqslock` | `Lifetime.RequestsOutliveTheirUse` | until a failed write closes the connection: `Lifetime.SafeWhileGuarded` |
| `returnsLocal` | api.c:520, 602, 671, 731, 774, 883 | a call that failed to send returns a `rv` that nobody has set | `Results.ZeroIsEarned` | for `bw2_publish`, `bw2_setEntity` and `bw2_query`, and for every call that gets to its wait: `Results.WaitedIsAccounted` |

Three more departures need no flag. Only `len` bytes are compared with "okay" and "true"
(frame.c:182, daemon.c:83), so every prefix passes: `Frames.MatchesLiteralExactly`. A failed write
with an error number that is not in the list of daemon.c:133-134 is reported as success: the
action `Fail(c, false)`. The addition at api.c:182 is taken to wrap at 32 bits. And one finding
has no place in the code: in every version a teardown may overtake the caller of an accepted
stream, which then returns a lost connection while its stream is still to be told so
(`Overtaking.AcceptedYetLost`). That is the only way in which an accepted call does not return 0:
`Overtaking.AcceptedReturnsZero` says exactly when, for every version, and that it never happens
before a teardown has begun. `Call.Gone` counts such a stream as still in use;
`Overtaking.StrictlySafeExactly` is for users who take the context back on the error.

## Model

| member | source | states |
|---|---|---|
| Decimal.NumDigits | frame.c:594-601 | the division loop counts exactly the decimal digits of its argument |
| Decimal.DigitsLength | frame.c:594-601 | a number has d digits if and only if it lies between 10^(d-1) and 10^d |
| Decimal.ValueOfDigits | frame.c:333-365 | reading back the printed digits of any number gives the number |
| Decimal.StrToULLOfDigits | frame.c:456-466 | a 64-bit number behind which the text does not go on with a digit is read in full and without overflow |
| Decimal.StrToULLExactly | frame.c:452 | strtoull on every text: blanks, a sign, digits, saturation, wrap-around, and where it stops |
| Decimal.StrToULLOfPadded | frame.c:316-318 | the same for a number padded with zeros to a fixed width |
| Frames.MatchesLiteralExactly | daemon.c:79-83 | the comparison over `len` bytes accepts exactly the prefixes of the literal, and what continues it behind a NUL |
| Frames.SameTextExactly | frame.c:170 | strncmp over 32 bytes is equality of the two C strings when the literal is shorter |
| Frames.FirstHeaderIsEarliest | frame.c:167-175 | the header found is the first whose key, as a C string, is the one asked for, and none is found only if there is none |
| Frames.MustResponseExactly | frame.c:177-191 | 0 if and only if the command is "resp" and the first "status" passes for "okay", and the exact condition of each of the three errors |
| Frames.IsFinalExactly | daemon.c:79-83 | a frame is final if and only if its first "finished" passes for "true" |
| Frames.HasHandleExactly | api.c:477-483 | the handle is missing if and only if no header has that key |
| Headers.GetFirstHeader | frame.c:167-175 | the loop over the linked headers finds that header in memory |
| Headers.FrameMustResponse | frame.c:177-191 | the code computed from the linked headers, with its exact condition |
| Headers.FrameIsFinal | daemon.c:79-83 | the flag computed from the linked headers, with its exact condition |
| RoundTrip.TokenRoundTrip | frame.c:386-409 | a token without its delimiter is read back exactly; one that fills its buffer faults unless the count is guarded |
| RoundTrip.NameFits | frame.h:49 | the 47-byte header buffer holds the header line of every item within the format's bounds |
| RoundTrip.NextItemRoundTrip | frame.c:98-162 | an emitted item is read back whatever bytes follow and whatever its value holds, or faults, with the exact condition |
| RoundTrip.ItemsRoundTrip | frame.c:98-165 | a whole body is read back item by item up to `end`, leaving what follows |
| RoundTrip.AddAllPartitions | frame.c:98-152 | for any order of items each of the three lists ends up with its own kind in arrival order |
| RoundTrip.AddAllInWriteOrder | frame.c:332-378 | the writer's order of the three lists is undone by the reader's sorting into them |
| RoundTrip.HeaderRoundTrip | frame.c:66-97 | the 27-byte header gives back command and sequence number |
| RoundTrip.FrameRoundTrip | frame.c:66-165 | for every frame within the format's bounds and every stream behind it, reading gives the frame back and leaves the stream, if and only if the count is guarded or every token leaves a byte of its buffer free |
| RoundTrip.UnguardedCountLosesFrames | utils.c:85-102 | a frame within the bounds that the code as written cannot read back, on any heap and before any stream |
| RoundTrip.ItemLengthExact | frame.c:607-636 | the length counted for an item is the length emitted if and only if its header line is not cut |
| RoundTrip.AnnouncedLengthExact | frame.c:284-304 | the announced length is never less than the number of bytes behind the header, and equal to it if and only if no item's header line is cut, as within the bounds none is |
| RoundTrip.HeaderAnnounces | frame.c:306-320 | for every frame the ten bytes behind the command spell a number that is never less than the bytes behind the header, and equal if and only if no item's header line is cut |
| RoundTrip.HeaderAnnouncesLength | frame.c:284-320 | every frame in bounds announces the number of bytes behind its header |
| RoundTrip.ToInt32Exactly | frame.c:96 | the cast to 32 bits keeps the number modulo 2^32 |
| RoundTrip.NegativeSeqnoRoundTrip | frame.c:96 | a negative number that fits the field is read back |
| RoundTrip.PlainNumberExactly | frame.c:499-506 | a plain payload number is kept modulo 2^32, or rejected if it does not fit 64 bits |
| RoundTrip.DotFormExactly | utils.c:150-183 | four numbers written with dots are accepted, as the packed number, exactly if none exceeds 255 |
| RoundTrip.DotFormRoundTrip | utils.c:150-183 | four fields of at most 255 written with dots are read back as the packed number |
| RoundTrip.PayloadNumberSpellingsAgree | frame.c:499-513 | both spellings of every 32-bit payload number are read as that number |
| RoundTrip.DottedIsOneToOne | utils.c:150-183 | a canonical dotted form is read as n if and only if its fields are the octets of n |
| Framing.FirstFitConcat | frame.c:411-424 | the greedy choice on remaining space goes on where it stopped |
| Framing.HeapStaysBounded | frame.c:411-424 | what is used is the sum of the blocks chosen and never more than the heap |
| Framing.AllFitBySum | frame.c:411-424 | nothing is dropped if and only if the sum of all blocks fits, whatever the order |
| Framing.MallocFitsAll | frame.c:411-414 | without a heap nothing is ever dropped |
| Framing.ReadItemsByScan | frame.c:98-162 | reading with a heap is reading without one followed by the greedy choice, on every byte stream |
| Framing.HeapBoundedReading | frame.c:66-165 | for every heap and every stream, its header well formed or not, the frame read holds the items chosen by first fit, and the bytes consumed are those of a reader with unlimited heap, if and only if a full heap is reported or never met |
| Framing.ReadFrameExtends | frame.c:66-165 | the format delimits itself: what is read does not depend on what follows |
| Framing.PartialFrameIsNoFrame | frame.c:66-165 | no proper prefix of a frame is read as a frame |
| Framing.WholeFramesFirst | daemon.c:46-47 | a stream of frames is read as these frames, then whatever the rest is read as |
| Framing.StreamRoundTrip | daemon.c:46-47 | whole frames and a proper part of one more are read as exactly the whole frames |
| Faults.ReadFrameFaults | frame.c:66-165 | on every stream the reader writes through a null pointer if and only if it comes to an object with a token that fills its buffer, a payload number without a colon, or no room in the heap, where the code does not provide for it; otherwise it ends as with every place put right |
| Faults.PutRightNeverFaults | frame.c:66-165 | with the three places put right no stream makes the reader write through a null pointer |
| Framing.ShortHeader | frame.c:70-79 | a stream that ends inside the header is a malformed frame, and one that breaks there a lost connection |
| Framing.ShortToken | frame.c:386-409 | a stream that ends inside a token is a malformed frame, and one that breaks there -1 |
| Framing.FailureCodes | frame.c:66-165 | a failed read reports a lost connection exactly if the connection broke inside the header, -1 only if it broke behind it, and a malformed frame otherwise |
| Grammar.Words | frame.h:37-87 | the tags, keys and values of the model spell the words of the format, and its buffers have the sizes of the source |
| Grammar.ReadFramesAreSpelled | frame.c:66-165 | every stream that a frame is read from is spelled as the format says: header, items with tag, name, length and value, end line; and the frame is what they spell |
| Framing.OnlySuchAreReceived | frame.c:66-165 | every frame read has a command of four bytes, a 32-bit number and each kind of item on its own list, which is all that the transition system lets the daemon receive |
| Stream.ReadUntilChar | utils.c:57-83 | the bytes before the delimiter, however `recv` splits the stream |
| Stream.DropUntilChar | utils.c:85-102 | everything up to the delimiter is consumed, unless the count is incremented through NULL |
| Stream.ReadUntilFull | utils.c:104-124 | the next `len` bytes, however `recv` splits the stream |
| Stream.DropFullArray | utils.c:127-148 | `len` bytes are consumed, however `recv` splits the stream |
| Stream.WriteFullArray | utils.c:185-195 | what is emitted, for every way in which `send` splits the array |
| Stream.FaithfulSend | utils.c:185-195 | with an advancing start every split emits exactly the array |
| Stream.RestartedSend | utils.c:185-195 | without it, an array that is not one byte repeated has a split that emits something else |
| Stream.FullWriteIsExact | utils.c:185-195 | every split emits exactly the array if and only if the start advances or all bytes are equal |
| ObjectLists.ObjectList.Append | frame.c:213-250 | appending any disjoint chain gives the concatenation, with the tail pointer at its last node |
| ObjectLists.ObjectList.Push | frame.c:114-122 | the reader's inline append adds one node behind the tail |
| ObjectLists.JoinLinks | frame.c:213-250 | two linked chains joined at the tail are one linked chain |
| Reader.ReadToken | frame.c:386-409 | the buffer holds the token as a C string, and the stream is left behind its delimiter |
| Reader.PonumFromDotForm | utils.c:150-183 | strtoull four times at a cursor computes the dotted number, or rejects the text |
| Reader.ReadNumber | frame.c:499-513 | the number in either spelling, the null write for a missing colon, and the eight bits of a routing object's number |
| Reader.FrameHeap.Alloc | frame.c:411-424 | a block inside the heap behind all earlier ones, or none if it does not fit |
| Reader.ReadObject | frame.c:436-592 | an object that holds the item of the stream in its block, or a dropped object and the same bytes consumed |
| FrameReader.FrameObject.Push | frame.c:114-151 | an object joins the list of its kind and the other two lists stay |
| FrameReader.FrameObject.Append | frame.c:213-250 | a chain of objects of one type goes behind the items of that type, and the other two lists stay |
| FrameReader.ReadBeside | frame.c:436-592 | the block of a new object is disjoint from those of all others and leaves their contents alone |
| FrameReader.ReadObjects | frame.c:98-162 | the loop over objects yields the specified lists, in place and with all blocks accounted for |
| FrameReader.ReadFrame | frame.c:66-165 | the whole reader agrees with the specification on every stream and every way to split it: status, lists, and stream left |
| Writer.FrameLength | frame.c:284-304 | the three loops compute the announced length |
| Arrays.FrameArraysConcat | frame.c:306-382 | the arrays that bw2_writeFrame sends, one after the other, are the encoding |
| Splits.FrameWriteIsExact | frame.c:306-382 | every way in which `send` splits the arrays of a frame emits exactly its encoding if and only if the start advances |
| Writer.WriteFrame | frame.c:306-382 | the bytes emitted are determined by the frame and the splits, with and without an advancing start; they are the encoding, or on an error a proper part of it, if the start advances or no send was split |
| Writer.AppendAndWrite | frame.c:213-250 | what is written after a chain was appended is the encoding of the frame with the chain's items behind the earlier ones of their type, in their order |
| Release.FreeList | frame.c:192-211 | each block of a list is freed once, the next pointer being read first |
| Release.FreeResources | frame.c:192-211 | exactly the blocks of the frame are freed, each while it is live |
| Release.ReadAndRelease | daemon.c:47-108 | with `malloc`, the live blocks after an error-free turn of the daemon are those before it |
| Basics.BasicHolds | daemon.c:112-144 | in every reachable state each lock has the one owner whose program counter says so, the list holds linked requests without repetition, and the cursor is inside it |
| Basics.OthersWait | daemon.c:49-101 | while the daemon holds `reqslock` nobody links or withdraws a request |
| Ending.EndingHolds | daemon.c:54-75 | a request leaves the list or is swept only after it has been signalled; if `connected` is set before the daemon starts, nothing is linked once the teardown has begun; as written the teardown stays at the head of the list |
| Ending.ClosesDown | daemon.c:49-75 | if `connected` is set before the daemon starts, then at the daemon's exit it is false, the list is empty, and no call waits for a signal that cannot come, unless it is of `bw2_query` as written |
| Ending.StaysClosed | daemon.c:54-75 | once `bw2_connect` is through, a connection marked as closed stays so, no frame is dispatched any more, and no request is linked but one that was about to be |
| Ending.NothingBeforeConnect | api.c:300-305 | until `bw2_connect` sets `connected` no request is linked and no frame dispatched |
| Teardown.WalkShrinks | daemon.c:66-99 | in a walk of the list every step of the daemon uses up a bounded measure and no other thread moves list or cursor |
| Teardown.WalkEnds | daemon.c:66-99 | from any state of a walk a run leads to its end, for the teardown with an empty list |
| Teardown.TeardownNeverEnds | daemon.c:66-69 | as written, whatever the other threads do the teardown stays at the first request and signals no other |
| Teardown.TeardownEnds | daemon.c:65-75 | from a reachable state of a teardown a run leads to the daemon's exit if and only if the loop advances or the list is empty |
| Teardown.CallsRunOut | daemon.c:157-165 | in every version of the code, after the daemon has exited each step of a call brings it nearer to its return, or puts it to sleep because it was not signalled, and nothing sets it back |
| Stranding.EverybodyReturns | daemon.c:46-191 | with `connected` set before the daemon starts, a teardown that advances and, if a query was made, `bw2_query` put right, a run leads from every reachable state to where the daemon has exited and every call has returned |
| Stranding.TeardownStrands | daemon.c:65-75 | a caller that waits unsignalled during a teardown, or after it, can still be woken if and only if its request is on the list and the loop advances or has it at the head |
| Stranding.StartRaceStrands | api.c:300-305 | a run for any API function in which the daemon exits before `connected` is set, and a later call sleeps for ever |
| Stranding.QueryStrands | api.c:537-538 | a run in which a query sleeps for ever for a request that was refused |
| Stranding.SecondStrands | daemon.c:66-69 | a run for any API function in which the teardown never comes to the second request, whose caller sleeps for ever |
| Stranding.NoCallerIsStranded | daemon.c:118-138 | no call of a given API function is left without any continuation that signals it, in any run, if and only if `connected` is set before the daemon starts, the teardown advances and, for `bw2_query`, the result of `bw2_transact` is looked at |
| Results.ResultsHold | api.c:324-335 | in every reachable state a signalled request holds the verdict on its first frame or a lost connection |
| Results.ReturnsAreAccounted | api.c:381-413 | every value returned is the verdict on the first frame heard, or a lost connection: for `bw2_publish`, `bw2_setEntity` and `bw2_query` in all runs of the code as written, for the others if the call's own `bw2_transact` returned no error |
| Results.VerdictExactly | api.c:470-492 | for each value of the verdict the exact condition on the frame's command and headers |
| Results.ZeroMeansAccepted | api.c:399-413 | under the same condition a call that returns 0 had a frame with its sequence number dispatched after its insertion that is a response with status "okay", and with a handle if `bw2_subscribe` was asked for one |
| Results.WaitedIsAccounted | api.c:399-413 | in every version a call that has waited for its signal returns the verdict on its first frame or a lost connection |
| Results.RefusedButZero | api.c:865-884 | for each of the other functions a run in which it is refused and returns 0 |
| Results.ZeroIsEarned | api.c:399-413 | a given API function returns 0 only for an accepted response, in all runs, if and only if it never returns a `rv` that nobody has set: `bw2_publish` and `bw2_setEntity` as written, `bw2_query` as long as it ignores the result of `bw2_transact`, the others put right |
| Overtaking.AcceptedReturnsZero | daemon.c:65-69 | in every version a call whose request was accepted returns 0 if and only if the teardown has not got to its request when it returns, and a lost connection otherwise; before a teardown has begun it returns 0 |
| Overtaking.AcceptedYetLost | daemon.c:66-69 | in every version a run in which an accepted query returns a lost connection |
| Overtaking.StrictlySafeExactly | daemon.c:65-99 | for users who also take a context back when its call returned an error: under the condition of SafeWhileGuarded memory is safe if and only if the teardown is not in the callback of a stream whose call has returned an error meanwhile |
| Overtaking.NeverStrictlySafe | daemon.c:66-69 | in every version such users are in danger in some run |
| Streams.HeardIsPrefix | daemon.c:77-99 | what a request is to hear is the frames with its number up to and including the first that ends it |
| Streams.FirstHandlers | api.c:404-600 | the callback that each API function installs |
| Streams.StreamsOpen | api.c:436-592 | `bw2_subscribe`, `bw2_query` and `bw2_list` go on after an accepted response that is not final, every other function is done with its first frame |
| Fitting.FitHolds | daemon.c:81-92 | in every reachable state, until a stream is refused or in all runs if callbacks judge before they signal, each listed request is unanswered or an open stream, and the one being treated is as its stage says |
| Lifetime.SafeWhileGuarded | daemon.c:65-99 | in all runs of any version no step touches a request whose memory may be reused, nor `bw2_subscribe`'s stack context once its caller could return, while no failed write has closed the connection, no non-empty list is swept and no stream was refused or finished by its first frame, each as far as its place is not put right |
| Lifetime.RefusalArrives | frame.c:66-165 | the frame of the failing runs is one that bw2_readFrame yields for its encoding, on any heap and before any bytes |
| Lifetime.GoneExactly | api.c:436-461 | what counts as memory that may be reused: the call has returned, and the request was never answered, has nothing more to hear, or its user was told of the lost connection |
| Lifetime.ReadsBack | api.c:455-461 | a run in which a callback reads a request whose caller has returned, the other two parts of the condition being met |
| Lifetime.SweepsAgain | daemon.c:66-69 | a run in which the teardown comes back to a request whose caller has returned, the other two parts being met |
| Lifetime.LeavesLinked | daemon.c:133-138 | a run in which a call returns with its request linked and the daemon gets to it, the other two parts being met |
| Lifetime.RequestsOutliveTheirUse | daemon.c:65-99 | memory is safe in all runs if and only if the three places are put right |
| Delivery.DeliveryHolds | api.c:436-492 | what each request has heard and each user was told, at every step of every run in which no stream was refused, or of all runs if callbacks judge before they signal |
| Exactness.DeliveryIsExact | api.c:436-492 | under the same condition, between dispatches each request has heard exactly the frames with its number since it was linked up to the one that ended it, and its user was told of all behind the response, in order and once, with one more call for a connection lost under an open stream |
| Exactness.UserIsTold | api.c:436-592 | under the same condition the user of a subscription, query or list is told of every frame with its number behind the accepting response, in order and once, up to the first that says "finished" or is answered with true, and of nothing else but possibly the lost connection |
| Exactness.OthersHearOnce | api.c:381-413 | every other request hears the first frame with its number only, and its user is told nothing |
| Exactness.ToldAfterRefusal | api.c:455-461 | a run in which the user of a refused query is told of a later frame |
| Exactness.DeliveryIsExactExactly | api.c:436-492 | delivery is exact in all runs if and only if callbacks judge before they signal |
| Exactness.RefusedIsSilent | api.c:454-461 | if callbacks judge before they signal, the user of a refused request is told nothing |
| Walks.DispatchIsFilter | daemon.c:77-99 | a whole dispatch, interleaved with any callers, lets every matching request hear the frame once and no other, and leaves the old list without those that it ended, until a stream is refused or in all runs if callbacks judge before they signal |
| Walks.DispatchIsFilterExactly | daemon.c:77-99 | every dispatch does so if and only if callbacks judge before they signal |
| Agreement.DispatchesAgree | daemon.c:77-99 | the walk of the protocol treats the same requests and leaves the same list as the list code of `Dispatch`, when the callbacks of the one answer what those of the other do |
| Sublists.KeptInOrder | daemon.c:85-98 | the elements kept are all that are not dropped, in their old order |
| Dispatch.Client.GetSeqNo | api.c:177-186 | the n-th number drawn is n modulo 2^31 |
| Dispatch.Client.Link | daemon.c:118-127 | the request becomes the head of the list, or nothing changes and the connection is reported lost |
| Dispatch.Client.Unlink | daemon.c:87-89 | writing through the pointer to the link takes one node out and keeps the others linked, whatever its own memory holds by then |
| Dispatch.Client.Turn | daemon.c:77-99 | one turn visits a matching node with `rv` cleared, and takes it out if and only if the frame was final or the answer was to stop |
| Dispatch.Client.Dispatch | daemon.c:51-99 | for every list and all answers the loop visits the matching nodes, each once and in order, and leaves the others and those that go on, linked and in order |
| Dispatch.DispatchHit | daemon.c:78-92 | the specification of the dispatch, one matching node further |
| Dispatch.DispatchMissed | daemon.c:94-98 | the specification of the dispatch, one other node further |
| Dispatch.Client.TearDown | daemon.c:54-70 | any number of turns of the teardown loop: as written it is at the first node in every turn and never over; with `next` read first it visits every node once and in order with a lost connection, and then leaves the list empty |
| Deadlock.ChainsAreShort | daemon.c:49-63 | locks are taken in one order: at most one thread that is waited for waits itself |
| Deadlock.NoDeadlock | daemon.c:112-144 | in every reachable state a thread kept waiting by a lock is kept waiting by another that can move |
| Deadlock.OthersMove | daemon.c:112-191 | every other thread can move unless it is done, sleeps unsignalled, or reads from the network |
| Deadlock.OwnLockIsExclusive | daemon.c:157-182 | the daemon asks for `ready` and signals only while the caller does not hold the lock of its request |
| Deadlock.NoLostWakeUp | daemon.c:157-182 | a caller that sleeps has a wake-up pending if and only if its request has been signalled |
| Numbers.SameNumber | api.c:177-186 | two draws give the same number if and only if a multiple of 2^31 lies between them |
| Numbers.DrawsAreCounted | api.c:177-186 | in every run the counter moves by one for each draw, also of a call that makes no request |
| Numbers.CorrelationIsUnambiguous | daemon.c:116-126 | while fewer than 2^31 numbers are drawn in the life of two requests their numbers differ and no frame is ever given to both |
| Numbers.CommandsSent | frame.h:51-87 | every frame sent has the command of its API function, spelled out |
| Wire.FramesAreWhole | daemon.c:130-143 | until a write fails, or a send is split where the start does not advance, the bytes sent by concurrent calls are whole frames in the order of `outlock`, each call's once, and one partial frame at most |
| Wire.NobodyClosesUnderAWriter | daemon.c:58-63 | while a call is in the middle of its frame nobody but that call closes the connection |
| Wire.RestartGarbles | utils.c:185-195 | a run in which the first byte of a frame goes out twice |
| Wire.FramesAreWholeExactly | daemon.c:130-143 | the bytes are whole frames in all runs without a failed write if and only if the start of a send advances |
| Wire.PeerReadsTheFrames | daemon.c:130-143 | under the condition of FramesAreWhole the decoder recovers from these bytes exactly the frames written, in that order |

## Left out

- Sockets, dialling, the greeting checked by `bw2_connect` and the reuse of file descriptors: a connection is a byte stream with short transfers, an end, and errors.
- `osutil.c`: a mutex is its owner and a condition variable is one flag of the one caller that waits on it; spurious wake-ups are included. The destruction of a mutex that a callback locks later (api.c:519, api.c:438) is not modelled.
- `bw2_logf`, `bw2_setLogging`, the formatting of times, and the setters of `objects.c`: library formatting and truncating copies.
- The headers that each API function chooses, `bw2_createDOT`'s early return except for the number it draws, `_bw2_simplemsg_from_frame` and the copying of header fields for users.
- `bw2_buildChain`: its callback is given NULL for its context (api.c:853), and it filters what it passes on.
- `bw2_transact` without a request context and `bw2_reqctxBroadcast`, which no API function uses, and `bw2_isConnected`, which only reads.
- Freeing the frame at the end of a dispatch is in Release.ReadAndRelease, not in the transition system; which bytes a dispatched frame was read from is in the codec, not there either.
- Sizes of structures are symbolic and below 2^32; pointers and `size_t` have 64 bits; `malloc` does not fail.
- `connected` is read and written in one step each, although api.c:305 and daemon.c:120 do not share a lock.
- Users that free a stream's context from inside their own callback, or call the API from it.
- A null-pointer write in the reader ends the program and is not an action of the transition system.
- A request keeps its fields in the transition system after its memory may have been reused; only the value that a callback reads back as `rv` is then arbitrary. Lifetime.SafeWhileGuarded says up to where this makes no difference.
- Liveness of the agent or of a `recv` that blocks, and fairness between threads: what is proved beyond safety is that steps run out and that a waiting thread waits for one that can move.
- Lifetime.RequestsOutliveTheirUse: a stream that was accepted counts as in use until its user is told it is over, also when its call returned a lost connection; the stricter reading is in Overtaking.StrictlySafeExactly.
- Dispatch.Client.TearDown: counts the turns, because the loop as written does not end.
- Exactness.DeliveryIsExact: says nothing of a walk in progress, which is in Delivery.DeliveryHolds, nor of what the user of the first request hears of a teardown that never moves on from it.
