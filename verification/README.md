# Verification of the media gateway's cores

A Dafny model of the parts of the gateway where a mistake would be hard to see: the JSON codec, the FFT
kernel, the path of video frames from the sender's packets to the encoder's ring, the fixed-point gain
control, the connection control with its mesh session, the base64 codec and the audio channel buffer.
`dafny verify dfyconfig.toml` checks all of it.

Every operation that works by changing things step by step is a method over the source's own state (arrays
written in place, classes whose fields are reassigned, doubly linked nodes), and its `ensures` ties the new
state to a function of the old one. What the source promises is then proved about those functions, for all
inputs and all runs.

## How the model reads the source

* Characters are the integers 0 to 255; a C string is a sequence, and reading at its end gives the terminator.
  Masks and shifts are written as remainders and quotients; where this is not obvious (the UTF-8 encoder) lemmas
  over bit-vectors say why.
* Integers are mathematical. Where the C code relies on a narrower type the model writes the conversion out
  (16-bit and 32-bit conversions in the gain control, sequence numbers and times that wrap around).
  Elsewhere ranges are proved: array bounds, table lookups, 16-bit samples.
* `float` in the FFT is `real`. The tables of weights are parameters; each theorem says what it asks of them.
* Reads the C standard leaves undefined (a `\u` escape without four hexadecimal digits, which `sscanf` would
  take differently, or a backslash directly before the terminator) end in the result `Undefined`.
* Sockets, threads, timers, logging and allocation failure are outside. Their results come in as parameters or
  events; sizes that are allocated are array lengths, so each write is proved to be inside.

## The main results

* **JSON.** The text of a tree, formatted or not, is read back as that tree, and all of it is consumed
  (`CJsonRoundTrip.RoundTrip`). The other way round every text of RFC 8259, whatever its blanks, escapes and
  numerals, is parsed as what it stands for (`CJsonGrammar.TextIsParsed`): its literals as the UTF-8 of their
  code points (`CJsonUnicode.LiteralDenotes`), its numerals as their exact values (`CJsonNumber.NumeralRead`).
  The formatted text is the plain one laid out by a rule that knows nothing of trees
  (`CJsonLayout.FormattedIsLaidOut`). The sizes computed before writing are enough, with exactly one exception: an
  empty object printed formatted at depth 0 takes four bytes in a block of three
  (`CJsonPrinter.AllocatedCovers`). The list operations keep the doubly linked form and refine append, remove
  and update on sequences; a deep copy is an equal tree of fresh nodes (`CJsonTree`).
* **FFT.** Both exchange schedules of `bitrv2` move pair i to the reversal of i's bits. `bitrv2` followed by
  `cftfsub` is the discrete Fourier transform for a table of roots of unity (`FftDft.ForwardIsDft`), `cftbsub`
  is the conjugate of `cftfsub` for every table, `rftbsub` undoes `rftfsub` up to conjugation exactly when the
  weights lie on the unit circle (`FftReal.MergeAfterSplit`, `FftReal.OffCircle`), the real
  transform is the discrete Fourier transform of the reals at every place (`FftRealDft.RealForwardIsDft`), and
  forwards and backwards multiplies by n/2 (`FftInverse.RealInverse`).
* **Video.** What the sender cuts into packets the receiver puts together again: from the first key frame on the
  saved items and the pending buffer are whole frames in order, or a short parameter frame with its successor
  (`VideoPath.EndToEnd`), but not for all frames: the receiver compares four bytes even when a shorter packet left
  old bytes standing, so a frame one zero byte longer than the payload is torn (`VideoTorn.OneByteMore`). With
  payloads of 1024 bytes and more, and the gateway's are 1400, the pieces arrive exactly when no later packet of a
  frame shows a start code in the packet buffer, and before the first key frame none that shows a key type with it
  (`VideoTorn.GatewayExactly`); a piece torn once is never repaired, and bytes taken too early stay
  (`VideoEarly.EarlyStart`).
  With smaller payloads a torn parameter frame may be glued to its own beginning, and `VideoTorn.EndToEndExactly`
  has the exact condition for all sizes. Clean frames of any length leave exactly the pieces that fit the buffer
  (`VideoOverflow.KeptExactly`). The ring behind the receiver is a queue as long as no ordinary frame is
  offered at 29 queued, and only then (`VideoRing.FifoExactly`); one such frame throws away the whole queue. Flow
  control starts exactly at the watermarks (`VideoRing.FlowStarts`), and past half a group it keeps the queue below
  that (`VideoRing.FluencyHolds`).
* **Gain control.** In every run after a successful initialization the levels keep their order, the tables are
  only read inside, and the reported level lies between its bounds (`AgcLevels.EveryRunKeeps`,
  `Agc.LegacyAgc.ProcessAnalog`, `Agc.LegacyAgc.AddMic`, `Agc.LegacyAgc.VirtualMic`). The limiter terminates and
  no sample under its envelope overloads (`AgcLimiter`), and its products stay inside 32 bits exactly under a condition
  on gain and envelope (`AgcRange.LimitFits32`). Raising the volume multiplies unsigned numbers: the product wraps
  exactly for a level below the minimum, unless in ranges of a few steps the weight overflows as well
  (`AgcProduct.WrapsExactly`), and some run raises one exactly when the range has fewer than 42 steps
  (`AgcNarrow.BelowExactly`), so not in the digital mode with its 255 steps. In such ranges a run ends with a
  saturated frame that sets the volume to the maximum (`AgcNarrow.SaturatedRaises`); in wide ones a saturated frame
  may still leave it there (`AgcNarrow.SaturatedStays`), a raise being bounded by `AgcProduct.RaiseBounded`.
  How far one call moves the volume has literal bounds in either direction (`AgcMoves.CallMoves`,
  `AgcMoves.SaturatedMoves`), and the weights of a raise follow the documented curves (`AgcCurve.WeightFollows`).
  Saturation is summed up in 16 bits, so that the loudest frames there are may wrap the sum and count as soft ones for
  sixty milliseconds (`AgcFrames.SaturatedExactly`, `AgcFrames.LoudestMissed`).
  The gain beyond the analog range goes to its share of the table (`AgcGains.IndexReaches`), and that of the virtual
  microphone lags one step behind its index (`AgcGains.AlongExactly`).
* **Connection control.** From a drained state four commands to switch reach the server and stay there, and
  three do not always (`ConnSteps.Converges`, `ConnSteps.ThreeAreNotEnough`); two reach the mesh server
  (`ConnSteps.MeshReachedExactly`), but a mesh client that was busy beside the server stays with the address it had
  (`ConnSteps.MeshStaysBehind`). Runs say what a call goes through and how far tries to log in lie apart
  (`ConnRuns.MeshCall`, `ConnRuns.RetriesApart`). The mesh session keeps its
  invariant exactly as long as no reply of status 200 lacks an id (`MeshSession.EveryRunKeepsExactly`). Replies
  may come in any pieces (`MeshReplies.SignedInExactly`), a connection stays exactly until an event that ends one
  (`MeshRuns.StaysConnectedExactly`), and what was read of a reply cut off spoils the next sign-in, because closing
  does not clear it (`MeshRuns.CutOffShuts`).
* **Base64 and channel buffer.** Decoding undoes encoding, decoding succeeds exactly on the well-formed texts, the
  url form is the standard form renamed; the buffer's views are disjoint, and cover the data exactly when the
  bands divide the frames; interleaving and deinterleaving undo each other.

## Where the code and its comments differ

* The ring is documented to reserve a slot for key frames. The test for ordinary frames compares for equality
  with 28 queued only, so one is let in at 29 and the ring runs full, which reads as empty. The model follows the
  code.
* A printed empty object is given `depth+3` bytes when formatted; at depth 0 it writes an opening
  brace, a line end, a closing brace and the terminator.
* `WebRtcAgc_SaturationCtrl` is to check whether the signal is saturated; it misses a sum beyond 32767, which the
  16-bit field wraps (`AgcFrames.SaturatedExactly`).
* `WebRtcAgc_AddMic` says that the highest level is never below the volume; this is not checked where the volume is
  set, and holds because every call ends by limiting it (`AgcLevels.ProcessKeeps`).

## Model

| member | source | states |
|---|---|---|
| CJsonRoundTrip.RoundTrip | gbcom_common/json/cjson.c:252-495 | parsing the text of any tree of null, booleans, C-int numbers, NUL-free strings, arrays and objects, formatted or not, gives the same tree and stops exactly at the end of the text |
| CJsonRoundTrip.RenderInjective | gbcom_common/json/cjson.c:270-306 | two trees with the same text are the same tree |
| CJsonRoundTrip.ValueReadBack | gbcom_common/json/cjson.c:275-306 | the same for a value in the middle of any text, at any depth, in front of any byte that cannot continue a number |
| CJsonRoundTrip.NumberReadBack | gbcom_common/json/cjson.c:96-140 | the decimal text of an integer is read back as that number, and nothing behind it is touched |
| CJsonRoundTrip.EscapeReadBack | gbcom_common/json/cjson.c:148-236 | unescaping an escaped byte string followed by a quote appends exactly that string; the scan for the closing quote stays inside |
| CJsonRoundTrip.EscapedExactly | gbcom_common/json/cjson.c:208-232 | which bytes are escaped, and by how many characters |
| CJsonRoundTrip.QuotedReadBack | gbcom_common/json/cjson.c:143-236 | the quoted form of a byte string is read back as that string |
| CJsonRoundTrip.ElementsReadBack | gbcom_common/json/cjson.c:308-391 | the printed items of an array are read back in order, with the separators of both layouts |
| CJsonRoundTrip.MemberReadBack | gbcom_common/json/cjson.c:394-428 | a printed key with its value is read back as that pair, blanks around the colon skipped |
| CJsonRoundTrip.MembersReadBack | gbcom_common/json/cjson.c:394-495 | the printed members of an object are read back in order |
| CJsonUnicode.LiteralDenotes | gbcom_common/json/cjson.c:143-199 | a closed literal of any pieces - characters, two-character escapes, four hexadecimal digits of either case, surrogate pairs, and the escapes that give nothing - yields the UTF-8 of the code points the pieces carry (section 7 of RFC 8259, section 3 of RFC 3629), from which they can be decoded; the pieces are written by tables of the digits and of the eight escapes, not by what the parser reads |
| CJsonNumber.NumeralRead | gbcom_common/json/cjson.c:96-116 | every numeral of section 6 of RFC 8259 is read as its exact value: sign, digits by place, fraction, exponent with or without sign; nothing behind it is touched |
| CJsonGrammar.TextIsParsed | gbcom_common/json/cjson.c:252-428 | every JSON text of RFC 8259, with any blanks where they may stand, any way to write its strings and numbers, duplicate keys included, is parsed as the value it stands for, up to its end |
| CJsonGrammar.SourceRead | gbcom_common/json/cjson.c:275-428 | the same for a value in the middle of any text, by induction over the document |
| CJsonLayout.FormattedIsLaidOut | gbcom_common/json/cjson.c:270-495 | the formatted text is the plain one with line ends, tabs by depth and blanks put in by a rule that goes over it byte by byte and knows strings, objects and arrays only |
| CJsonLayout.LaidValue | gbcom_common/json/cjson.c:290-495 | the same for a value at any depth, in any object or array |
| CJsonUnicode.DecodeEncoded | gbcom_common/json/cjson.c:180-188 | decoding the UTF-8 of any sequence of scalar values gives that sequence |
| CJsonUnicode.PairUnescaped | gbcom_common/json/cjson.c:172-188 | a pair of escapes for a high and a low surrogate gives the one code point beyond the basic plane, in four bytes |
| CJsonParser.CasesAreUtf8 | gbcom_common/json/cjson.c:180-188 | the switch that falls through its cases, filling bytes from the back, writes the UTF-8 of the code |
| CJsonParser.TrailingByteMask | gbcom_common/json/cjson.c:183-185 | setting and clearing bits of a trailing byte is adding 0x80 to the low six bits |
| CJsonParser.SurrogateMask | gbcom_common/json/cjson.c:177-177 | the masks and shifts that join two surrogates are sums and products |
| CJsonParser.SkipBlanks | gbcom_common/json/cjson.c:249-249 | goes to the first byte beyond a space, or to the terminator |
| CJsonParser.UnescapedFits | gbcom_common/json/cjson.c:148-195 | unescaping writes at most as many bytes as the first scan counted, so the terminator fits |
| CJsonParser.ParseNumber | gbcom_common/json/cjson.c:96-116 | the loops over digits, fraction and exponent compute the number the grammar of the code gives; the value is exact |
| CJsonParser.PutUtf8 | gbcom_common/json/cjson.c:180-188 | appends the UTF-8 of a code inside the buffer |
| CJsonParser.ParseString | gbcom_common/json/cjson.c:143-199 | the two scans and the filled buffer give the string of the literal, every write inside the allocated size |
| CJsonParser.UnescapeUnicode | gbcom_common/json/cjson.c:167-189 | one escape of four digits, alone or as a pair, moves both pointers as the code of a literal asks, or is undefined |
| CJsonParser.ParseArray | gbcom_common/json/cjson.c:308-334 | the loop over items gives the array or the offset of the failure |
| CJsonParser.ParseMember | gbcom_common/json/cjson.c:399-425 | key, colon and value with blanks between, or the offset of the failure |
| CJsonParser.ParseObject | gbcom_common/json/cjson.c:394-428 | the loop over members gives the object or the offset of the failure |
| CJsonParser.ParseValue | gbcom_common/json/cjson.c:275-287 | the kind of a value is decided by its first bytes, in the order of the tests |
| CJsonParser.Parse | gbcom_common/json/cjson.c:252-268 | leading blanks are skipped and what stands behind the value is not looked at |
| CJsonPrinter.AllocatedCovers | gbcom_common/json/cjson.c:203-235 | the size computed before writing holds the text and its terminator for every value and layout except the empty object formatted at depth 0, and only that; for strings it is exact |
| CJsonPrinter.EmptyObjectOverruns | gbcom_common/json/cjson.c:439-447 | the exception: three bytes of text, so four with the terminator, against a size of three |
| CJsonPrinter.ItemsFit | gbcom_common/json/cjson.c:356-365 | the sum over the items of an array covers their texts with separators |
| CJsonPrinter.FieldsFit | gbcom_common/json/cjson.c:456-464 | the sum over the members of an object covers keys, tabs, values and line ends |
| CJsonPrinter.NumberLength | gbcom_common/json/cjson.c:119-140 | an integer of 32 bits has at most eleven characters |
| CJsonPrinter.PrintString | gbcom_common/json/cjson.c:203-236 | the size pass and the filling loop give the quoted string |
| CJsonPrinter.PrintArray | gbcom_common/json/cjson.c:336-391 | collecting the items, adding up sizes and composing gives the text of the array |
| CJsonPrinter.JoinItems | gbcom_common/json/cjson.c:379-391 | composing the items into a block of the computed size never leaves it |
| CJsonPrinter.PrintObject | gbcom_common/json/cjson.c:430-495 | the same for objects; the one overrun is reported |
| CJsonPrinter.JoinFields | gbcom_common/json/cjson.c:478-495 | composing keys and values into a block of the computed size never leaves it |
| CJsonPrinter.PrintEmptyObject | gbcom_common/json/cjson.c:439-447 | an empty object is written inside its block iff it is not formatted at depth 0 |
| CJsonPrinter.PrintValue | gbcom_common/json/cjson.c:290-306 | the printer gives the text of the value, or overruns on exactly one input |
| CJsonTree.Item.Append | gbcom_common/json/cjson.c:503-508 | a fresh subtree hung behind the last child leaves a well-formed doubly linked list: append on the sequence of children, nothing else changes |
| CJsonTree.Item.Add | gbcom_common/json/cjson.c:508-508 | walking to the last child and hanging the item there is append on the sequence; the item and the earlier children keep ownership and value |
| CJsonTree.Item.Find | gbcom_common/json/cjson.c:499-499 | the child at the index, the first one for a negative index, none beyond the end |
| CJsonTree.Item.Detach | gbcom_common/json/cjson.c:513-514 | removes the child at the index from the sequence, leaves it with null links, and keeps every child as it was; beyond the end nothing happens |
| CJsonTree.Item.Replace | gbcom_common/json/cjson.c:520-522 | updates the sequence at the index; the old child is unlinked, the other children keep their values |
| CJsonTree.Duplicate | gbcom_common/json/cjson.c:542-567 | the copy is made of fresh nodes only and has the value of the original with the reference marks cleared; without recursion, its root |
| FftBitReversal.Bitrv2 | gbcom_common/ns/fft4g.cc:364-460 | for every power of two from 8 on, pair i goes to the place of i with its bits reversed, by either schedule of exchanges, all indices of both arrays inside |
| FftBitReversal.TwiceIsIdentity | gbcom_common/ns/fft4g.cc:364-460 | applied twice it restores the array |
| FftBitReversal.MakeTable | gbcom_common/ns/fft4g.cc:369-380 | the loop that doubles the index table ends with the bit reversals times the stride, and with an even or odd number of bits left in the middle |
| FftBits.RevBits | gbcom_common/ns/fft4g.cc:369-380 | bit k of the reversal is bit t-1-k of the number |
| FftBits.RevInvolution | gbcom_common/ns/fft4g.cc:369-380 | reversal undoes itself |
| FftBits.RevConcat | gbcom_common/ns/fft4g.cc:371-379 | the reversal of high and low bits is the reversal of the low in front of that of the high: what the doubling step uses |
| FftPass.Cft1st | gbcom_common/ns/fft4g.cc:558-659 | the first pass turns every four adjacent pairs by their factors, each pair touched once |
| FftPass.Cftmdl | gbcom_common/ns/fft4g.cc:661-783 | a middle pass does the same for pairs a stride apart, in all groups |
| FftPass.ThirdIsCube | gbcom_common/ns/fft4g.cc:604-640 | the third factor, computed without a product of complex numbers, is the cube of the first on the unit circle |
| FftTransform.PassedIsPass | gbcom_common/ns/fft4g.cc:661-783 | a finished pass is one function of the array before it |
| FftTransform.Cftfsub | gbcom_common/ns/fft4g.cc:462-508 | the passes and the last stage, of radix 4 or 2, compose to the forward transform of the stages |
| FftTransform.Cftbsub | gbcom_common/ns/fft4g.cc:510-556 | the backward transform is the conjugate of the forward one for every array, every table and both last stages |
| FftDft.FactorsArePowers | gbcom_common/ns/fft4g.cc:600-659 | with a table of powers of a root of unity, the factors of group g are the power with reversed bits, its square and its cube |
| FftDft.ForwardDone | gbcom_common/ns/fft4g.cc:462-508 | after each stage every block holds the partial sums of the transform; the last block is the whole sum |
| FftDft.SumReversed | gbcom_common/ns/fft4g.cc:364-460 | summing in bit-reversed order gives the same sum |
| FftDft.ForwardIsDft | gbcom_common/ns/fft4g.cc:364-508 | bit reversal followed by the stages is the discrete Fourier transform by its definition, for every power of two |
| FftReal.Rftfsub | gbcom_common/ns/fft4g.cc:786-807 | the loop over mirrored pairs splits each by its weight and leaves the ends alone |
| FftReal.Rftbsub | gbcom_common/ns/fft4g.cc:809-832 | the same for the way back, with the signs of its imaginary parts |
| FftReal.DefectOfWeight | gbcom_common/ns/fft4g.cc:792-796 | how far the two table entries of a weight are from the unit circle |
| FftReal.MergedAt | gbcom_common/ns/fft4g.cc:786-832 | what the way back after the way there leaves of a pair of mirrored places, for any table: the pair conjugated, off by the defect |
| FftReal.MergeAfterSplit | gbcom_common/ns/fft4g.cc:786-832 | with all weights on the circle the way back restores the array with every imaginary part negated |
| FftReal.OffCircle | gbcom_common/ns/fft4g.cc:786-832 | with one weight off the circle there is an array on which it does not |
| FftInverse.WholeTurnSum | gbcom_common/ns/fft4g.cc:836-872 | the powers of a root of unity over a whole turn add up to zero |
| FftInverse.KernelSum | gbcom_common/ns/fft4g.cc:836-872 | the kernels of two frequencies are orthogonal |
| FftInverse.InverseDft | gbcom_common/ns/fft4g.cc:836-872 | the conjugate of the transform of the conjugated transform is the array times its number of pairs |
| FftInverse.Analyze | gbcom_common/ns/fft4g.cc:836-855 | forwards: bit reversal, stages, split and the exchange of the first two numbers |
| FftInverse.Synthesize | gbcom_common/ns/fft4g.cc:856-872 | backwards: the first two numbers put back, merge, bit reversal, conjugate stages |
| FftInverse.Rdft | gbcom_common/ns/fft4g.cc:836-872 | the sign chooses between the two, for every power of two |
| FftInverse.RealInverse | gbcom_common/ns/fft4g.cc:836-872 | backwards after forwards multiplies every number by n/2, with tables of roots of unity and of weights on the circle |
| FftRealDft.RealForwardIsDft | gbcom_common/ns/fft4g.cc:836-855 | forwards, place k of n = 2^(q+1) numbers holds the sum of s[j] * y^(jk) over all j < n, by the definition of the discrete Fourier transform of reals, for every power of two and every root y with cosines and sines of its powers in the tables; the first place holds the two real outputs 0 and n/2 |
| FftRealDft.SplitPlaces | gbcom_common/ns/fft4g.cc:786-807 | the split turns the transform of the pairs into that of the reals at both mirrored places |
| FftRealDft.FirstPlace | gbcom_common/ns/fft4g.cc:852-854 | the first place gives the outputs 0 and n/2 as sum and difference |
| FftRealDft.RealTablesSuited | gbcom_common/ns/fft4g.cc:836-872 | tables that make the forward direction a Fourier transform make the backward one its inverse, up to n/2 |
| RtpSession.Session.Send | gbcom_common/comm/rtp_session.c:125-172 | the loop sends the chunks of the data in order with consecutive sequence numbers; the marker is written on the last only, the others carry the bit the uncleared buffer held |
| RtpSession.MarkerExactly | gbcom_common/comm/rtp_session.c:151-163 | so the marker tells the end of the data iff the buffer held none or one packet is all |
| RtpSession.ChunksJoined | gbcom_common/comm/rtp_session.c:137-170 | the payloads together are the data |
| RtpSession.ChunkSize | gbcom_common/comm/rtp_session.c:139-149 | no payload is empty or too long, and all but the last are full |
| RtpSession.PayloadsOfPackets | gbcom_common/comm/rtp_session.c:148-163 | heads do not change what is carried |
| RtpSession.Queue.Enqueue | gbcom_common/comm/rtp_session_thread.c:167-193 | the items put are the chunks of the data by the bound, or one item if it is small enough |
| RtpSession.OnePacketPerItem | gbcom_common/comm/rtp_session_thread.c:167-193 | items sent through a session whose packets hold them give the chunks of the whole: no item is split again |
| VideoReceiver.Receiver.Receive | video/video_data_recv.cc:459-545 | one round of the loop on both buffers is one step of the receiver, every copy inside |
| VideoReceiver.Receiver.ReceiveAll | video/video_data_recv.cc:459-545 | a series of packets is a run of the receiver |
| VideoPath.FrameReceived | video/video_data_recv.cc:492-544 | the packets of one frame, received in order, save and start what the whole frame would: glue a short parameter frame to it, or save what was pending |
| VideoPath.EndToEnd | video/video_data_recv.cc:459-545 | if no later packet of a frame shows a start code in the packet buffer: from the first key frame on, saved items and pending buffer are whole frames in order, or one 0x67 frame under 1024 bytes with its whole successor |
| VideoPath.BytesKept | video/video_data_recv.cc:459-545 | saved items followed by the pending buffer are the bytes of the frames from the first key frame on |
| VideoPath.PiecesJoined | video/video_data_recv.cc:522-534 | gluing neither loses nor makes up bytes |
| VideoPath.WireIsDelivered | gbcom_common/comm/rtp_session.c:137-170 | the payloads of the packets a session sends for a series of frames are what the receiver is given, numbered through modulo 65536 |
| VideoTorn.FrameExactly | video/video_data_recv.cc:459-545 | a frame behind the first key frame, or that one, is taken as the whole frame would be iff no later packet of it shows a start code in the packet buffer, for payloads from 5 to 2048 bytes |
| VideoTorn.FrameFate | video/video_data_recv.cc:459-545 | every frame is taken whole, or mended (a 0x67 frame whose one false start comes before 1024 bytes is glued to its own beginning), or an item too short is saved |
| VideoTorn.EndToEndExactly | video/video_data_recv.cc:459-545 | the encoder gets the pieces iff no frame before the first key frame has a later packet with a start code and a key type in the packet buffer, and the frames from it on survive: each is clean, or mended with nothing to be glued to it any more; for all payloads |
| VideoTorn.GatewayExactly | video/video_data_recv.cc:459-545 | with payloads of 1024 bytes and more the encoder gets the pieces iff every frame from the first key frame on is clean and none before it has a false key |
| VideoEarly.CleanIsQuiet | video/video_data_recv.cc:475-490 | a frame without a false start code is dropped before the first key frame, too |
| VideoEarly.EarlyStart | video/video_data_recv.cc:475-545 | one false key in a frame before the first key frame starts an item of its own, and what is saved and pending is never the pieces |
| VideoEarly.QuietDropped | video/video_data_recv.cc:475-490 | a frame before the first key frame without such a packet leaves the receiver as it was, even if a start code of another type shows |
| VideoEarly.AllBytes | video/video_data_recv.cc:492-545 | once an item is begun every byte that comes is saved or pending, for frames that fit behind a glued one |
| VideoTorn.SurvivesIfClean | video/video_data_recv.cc:522-534 | with such payloads no frame is mended |
| VideoTorn.AllFate | video/video_data_recv.cc:459-545 | a run from any point behind the first key frame: the pieces iff the frames survive, otherwise an item that was saved too short |
| VideoTorn.StaleStart | video/video_data_recv.cc:462-545 | a last packet of one to three bytes that completes a start code with bytes of the packet before: the frame without it is saved, and a frame of it is begun, unless it is glued |
| VideoTorn.OneByteMore | video/video_data_recv.cc:462-545 | so a frame one zero byte longer than a payload of 1024 bytes or more is saved without its last byte |
| VideoOverflow.KeptExactly | video/video_data_recv.cc:459-545 | clean frames of any length: saved and pending are exactly the pieces of at most 2097152 bytes, in order; a longer one is lost whole, and when it was a joined piece the next parameter set goes alone |
| VideoOverflow.FirstTakenExactly | video/video_data_recv.cc:471-490 | the first packet taken starts with 0 0 0 1 and 103 or 104; any other leaves nothing but its bytes in the packet buffer |
| VideoOverflow.ClosedExactly | video/video_data_recv.cc:510-544 | a start code saves what is pending, unless that is of type 103, below 1024 bytes and alone |
| VideoOverflow.TailExactly | video/video_data_recv.cc:492-508 | the tail of a frame is kept iff all of it fits into the buffer |
| VideoRing.Ring.Put | video/video_data_recv.cc:187-313 | the new queue, flow control and result are those of saving: refused, dropped or appended |
| VideoRing.Ring.Store | video/video_data_recv.cc:289-310 | storing appends, or empties the ring when it runs full |
| VideoRing.Ring.Get | video/video_data_recv.cc:327-363 | takes the oldest frame, or none when the ring is empty or the receiver is off |
| VideoRing.ApplyKeeps | video/video_data_recv.cc:187-363 | an operation that does not overrun keeps delivered and queued frames equal to those accepted; one that does loses thirty |
| VideoRing.FifoExactly | video/video_data_recv.cc:187-363 | over any series of operations the ring is a queue iff no accepted ordinary frame found 29 queued |
| VideoRing.NeverRecovered | video/video_data_recv.cc:187-363 | lost frames never come back |
| VideoRing.Refusal | video/video_data_recv.cc:263-287 | a frame is refused for space iff it is a key frame at 29 queued, or an ordinary one at 28 with flow control off |
| VideoRing.NothingBeforeKey | video/video_data_recv.cc:210-217 | once flow control is on, nothing is accepted before the next key frame |
| VideoRing.FlowStarts | video/video_data_recv.cc:219-261 | behind an ordinary frame flow control is on iff it was, or in the fluency mode with 25 or more queued past half a group, or 20 to 24 past four fifths of one; a key frame ends it |
| VideoRing.DroppedExactly | video/video_data_recv.cc:210-217 | a frame is dropped iff flow control is on and it is no key frame; what is not accepted leaves the queue alone |
| VideoRing.FluencyHolds | video/video_data_recv.cc:187-363 | in the fluency mode, past half a group, no series of ordinary frames and reads raises a queue of at most 25 above 26, and nothing is lost |
| VideoRing.TwoOffersEmptyTheRing | video/video_data_recv.cc:263-310 | a key frame and an ordinary frame at 28 queued leave an empty ring |
| Agc.LegacyAgc.Init | gbcom_common/agc/agc.c:2109-2275 | which modes and levels are accepted, the whole initial state, and that it is valid for levels below 2^15 |
| AgcLevels.InitialInv | gbcom_common/agc/agc.c:2168-2206 | the initial levels are in order |
| AgcLevels.ProcessKeeps | gbcom_common/agc/agc.c:1478-1928 | an accepted call keeps the invariant and ends with minOutput <= micVol <= maxLevel and the level reported between minOutput and maxAnalog |
| AgcLevels.EveryRunKeeps | gbcom_common/agc/agc.c:1478-1928 | so does every run of calls, configurations and restarts of the virtual volume, which belong to the adaptive digital mode (agc.h:176-181) |
| AgcLevels.RestartExactly | gbcom_common/agc/agc.c:1221-1227 | setting the volume to 127 keeps the invariant iff 127 lies between the least level and the highest, as it does in the digital mode |
| AgcLevels.AdoptKeeps | gbcom_common/agc/agc.c:1508-1561 | adopting the reported level keeps the order of the levels |
| AgcLevels.BlocksKeep | gbcom_common/agc/agc.c:1637-1906 | the five blocks of a frame keep what holds inside a call |
| AgcLevels.NotSilent | gbcom_common/agc/agc.c:1341-1415 | a frame found saturated is not found silent |
| AgcLevels.LoudOrQuiet | gbcom_common/agc/agc.c:1341-1361 | the decaying sum of the envelope passes its limit only with a loud subframe |
| AgcLevels.EchoHolds | gbcom_common/agc/agc.c:1908-1923 | with an echo the volume is at most the greater of the adopted level and the least output |
| AgcLevels.NothingHeard | gbcom_common/agc/agc.c:1563-1660 | without saturation, silence or speech the volume is the greater of the adopted level and the least output |
| AgcFrames.FirstLevel | gbcom_common/agc/agc.c:1508-1521 | the first call takes the reported level, in the analog mode at least a tenth of the range |
| AgcFrames.EchoedLevel | gbcom_common/agc/agc.c:1523-1557 | a reported level that is what was asked for leaves the volume, gain beyond the range included |
| AgcFrames.UserLevel | gbcom_common/agc/agc.c:1523-1557 | any other level is followed if it changed, taken for a coarse slider if not, and raised to a tenth if it lies below the least output |
| AgcFrames.CallsContinue | gbcom_common/agc/agc.c:1478-1928 | a caller who sets what he is told goes on from the volume where the call before ended |
| AgcFrames.SaturatedExactly | gbcom_common/agc/agc.c:1341-1361 | a frame is found saturated iff the decayed sum with the loudness of its subframes passes 25000 but not 32767, where 16 bits wrap |
| AgcFrames.SumStep | gbcom_common/agc/agc.c:1341-1361 | a saturated frame starts the sum over, any other leaves 0.99 of it, wrapped or not |
| AgcFrames.LoudestMissed | gbcom_common/agc/agc.c:1341-1361 | from a sum of 22528 on, frames at full scale wrap it: the first six in a row are not found saturated, the seventh is |
| AgcFrames.MissedIsReached | gbcom_common/agc/agc.c:1341-1361 | a new instance comes to such a sum in three frames none of which is found saturated |
| AgcFrames.ThirdFound | gbcom_common/agc/agc.c:1341-1361 | from a sum of zero the third frame at full scale is found saturated, and no earlier one |
| AgcFrames.CallSum | gbcom_common/agc/agc.c:1478-1928 | a call leaves the sum and the threshold of speech that its frame gives, whatever its blocks do |
| AgcFrames.ThresholdStep | gbcom_common/agc/agc.c:1417-1441 | the threshold of speech is 1500 behind a quiet far end, and otherwise goes a 32nd of the way to between 400 and 1400 |
| AgcFrames.ThresholdStays | gbcom_common/agc/agc.c:1417-1441 | in every run it stays between 400 and 1500 |
| AgcFrames.SilenceFound | gbcom_common/agc/agc.c:1363-1415 | fifty silent frames in a row do nothing, the next one is found and sets the guard |
| AgcFrames.SilenceRaises | gbcom_common/agc/agc.c:1388-1397 | found silence raises a level below the middle by a tenth up to its limit, and nothing else |
| AgcFrames.GuardHolds | gbcom_common/agc/agc.c:1908-1916 | while the guard of eight seconds runs no call raises the volume |
| AgcFrames.FreeCall | gbcom_common/agc/agc.c:1908-1923 | without echo and guard, and in the call that finds silence or saturation, the volume behind the blocks is that of the call, inside its limits |
| AgcFrames.SilenceLifts | gbcom_common/agc/agc.c:1388-1923 | a call that finds silence and no speech ends a tenth higher from below the middle, although it sets the guard |
| AgcFrames.InitialExactly | gbcom_common/agc/agc.c:2168-2243 | every field of a new instance, with the range on top and the least output as shares |
| AgcProduct.WrapsExactly | gbcom_common/agc/agc.c:1773-1796 | for every range the unsigned product of a raise differs from the true one iff the level is below the minimum; with the first table the weight itself overflows two below the minimum of a range of 1 or 3 to 11 steps up to the initial maximum, or one below that of 2 to 5, which undoes it |
| AgcProduct.JumpsBelow | gbcom_common/agc/agc.c:1789-1799 | where it differs the raised volume lies beyond every maximum, with either table |
| AgcProduct.RaiseBounded | gbcom_common/agc/agc.c:1773-1854 | from the minimum on a raise ends at most at 25395 (18432 for the second table) of 2^14 times the height above the minimum, or at the step above the last volume |
| AgcMoves.SaturationLowers | gbcom_common/agc/agc.c:1570-1622 | a saturated frame puts the volume at 0.903 of its height above the minimum or two below the last one, whichever is less, never below the minimum; the measure loses an eighth and the timers and limits start over |
| AgcMoves.VolumeStep | gbcom_common/agc/agc.c:1679-1888 | which of five regions the speech level is in and how long decides whether the volume falls to 0.95 or 0.965 of its height, rises by at least 1.05 or 1.0126 times a weight, stays, or follows the level |
| AgcMoves.TimerStep | gbcom_common/agc/agc.c:1679-1888 | the timers count the time on one side of the limits; a move or the other side starts them over |
| AgcMoves.SlowMode | gbcom_common/agc/agc.c:1872-1888 | four seconds inside the limits widen them and lengthen the times, and only that |
| AgcMoves.MeasureStep | gbcom_common/agc/agc.c:1684-1844 | a move scales the measure by 53/64 or 67/64; a step down takes the maximum a sixteenth towards the volume |
| AgcMoves.MeterStep | gbcom_common/agc/agc.c:1640-1655 | the short measure goes a 64th of the way, the sum of ten blocks takes in an eighth of the change |
| AgcMoves.SpeechStep | gbcom_common/agc/agc.c:1657-1677 | a quarter of a second of speech looks for the greatest short measure, from which the long one starts and then goes a 1024th of the way |
| AgcMoves.BlockStep | gbcom_common/agc/agc.c:1637-1905 | a block without speech only feeds the meters |
| AgcMoves.CallMoves | gbcom_common/agc/agc.c:1478-1928 | a call without saturation and long silence lowers the volume to 0.95 of its height at most, or by one, and raises it to 1.55 of that at most, or by two |
| AgcMoves.SaturatedMoves | gbcom_common/agc/agc.c:1478-1928 | a call with saturation lowers it to 0.903 of its height at most, or by two |
| AgcCurve.WeightFollows | gbcom_common/agc/agc.c:1774-1786 | at every tenth of the range the first weight is that of the curve 32^(-2x)/2 + 1.05, up to 110 parts of 2^14 |
| AgcCurve.WeightFalls | gbcom_common/agc/agc.c:1774-1841 | the higher the volume the smaller the weight, for both tables, up to one part of 2^14 at a joint |
| AgcCurve.SecondEnds | gbcom_common/agc/agc.c:1829-1841 | the second weight falls from 9/8 to about 73/72 |
| AgcNarrow.BelowExactly | gbcom_common/agc/agc.c:1478-1928 | from an initial state some run of calls, configurations and restarts raises a level below the minimum iff the range has fewer than 42 steps |
| AgcBelow.NeverBelow | gbcom_common/agc/agc.c:1478-1928 | from a state with the least output two above the minimum no run does |
| AgcNarrow.SaturatedRaises | gbcom_common/agc/agc.c:1570-1622 | for every range of fewer than 42 steps a run from the initial state ends with a level of at most one above the minimum and a saturated frame, for which the product wraps and the volume is set to the maximum |
| AgcNarrow.SaturatedStays | gbcom_common/agc/agc.c:1570-1857 | for every range a run from the initial state ends with a saturated frame at the highest level that leaves the level reported there: lowered, and raised again in the same call from above the last volume |
| Agc.LegacyAgc.ProcessAnalog | gbcom_common/agc/agc.c:1478-1928 | accepts exactly the levels between minLevel and maxAnalog, does what the level functions say, reports a level in range, and changes nothing when it refuses |
| Agc.LegacyAgc.AdoptLevel | gbcom_common/agc/agc.c:1508-1561 | the branches that decide between the reported and the stored volume |
| Agc.LegacyAgc.LowerSaturated | gbcom_common/agc/agc.c:1570-1622 | a saturated signal lowers the volume and resets the counters |
| Agc.LegacyAgc.AdaptBlock | gbcom_common/agc/agc.c:1679-1888 | the four thresholds choose how the volume moves |
| Agc.LegacyAgc.Prepare | gbcom_common/agc/agc.c:1508-1635 | adoption, saturation, silence and inactivity in their order; the warning iff a saturated volume falls below the minimal output |
| Agc.LegacyAgc.AllBlocks | gbcom_common/agc/agc.c:1637-1906 | the five blocks one after the other, each with the level of the one before |
| Agc.LegacyAgc.LimitGain | gbcom_common/agc/agc.c:1908-1923 | the limits at the end of a call |
| Agc.LegacyAgc.OneBlock | gbcom_common/agc/agc.c:1637-1905 | one block: meter, thresholds of speech, volume |
| Agc.LegacyAgc.SaturationCtrl | gbcom_common/agc/agc.c:1341-1361 | the decaying sum over ten subframes decides |
| Agc.LegacyAgc.ZeroCtrl | gbcom_common/agc/agc.c:1363-1415 | raises the volume after half a second of silence, by its steps and up to its limit |
| Agc.LegacyAgc.SpeakerInactiveCtrl | gbcom_common/agc/agc.c:1417-1441 | the threshold of speech by the deviation of the far end |
| Agc.LegacyAgc.UpdateAgcThresholds | gbcom_common/agc/agc.c:1285-1339 | a configuration puts the limits of the level back to those of the start, as the event of a run does |
| Agc.LegacyAgc.AddMic | gbcom_common/agc/agc.c:1018-1132 | refuses frames of the wrong length and leaves them alone; otherwise moves the gain index one step to its target inside the table, scales and clips every sample, and fills the envelope with the loudest energy of each subframe |
| Agc.LegacyAgc.FillEnvelope | gbcom_common/agc/agc.c:1091-1101 | the greatest square of each of the ten subframes, which fits 31 bits |
| Agc.ApplyGain | gbcom_common/agc/agc.c:1067-1079 | every sample of every band is scaled and clipped once |
| AgcMic.MicIdxInTable | gbcom_common/agc/agc.c:1043-1065 | the target index and the new one are below 32, and the divisor is positive |
| Agc.LegacyAgc.VirtualMic | gbcom_common/agc/agc.c:1165-1283 | in the adaptive digital mode every sample of every band is the old one under the gain in force, the level reported is the index reached, at most the volume, a changed reference restarts the volume at 127, and every table is read inside |
| Agc.VirtualGain | gbcom_common/agc/agc.c:1232-1275 | the loop over the samples: the lowest band steers the index, the other bands follow with the gain after the step |
| AgcMic.NoClip | gbcom_common/agc/agc.c:1240-1256 | a gain of at most 1024 cannot clip a 16-bit sample |
| AgcMic.ClippingIndex | gbcom_common/agc/agc.c:1240-1262 | only an index from 127 on can clip, so it never falls below 126 by clipping |
| AgcGains.IndexReaches | gbcom_common/agc/agc.c:1043-1062 | with the levels unchanged the gain index goes to its target by one a frame and stays; without extra volume it drops to 0 at once |
| AgcGains.TargetExactly | gbcom_common/agc/agc.c:1049-1054 | the target is the share of the extra volume in thirty-firsts, rounded down; 31 iff the volume is the highest level |
| AgcGains.AnalogExactly | gbcom_common/agc/agc.c:1064-1079 | a sample under a gain is the product rounded down, or the nearest bound of 16 bits; it is never smaller than it was, and unchanged at index 0 |
| AgcGains.GainRises | gbcom_common/agc/agc.c:109-140 | the gain of the virtual microphone rises strictly with the index, from 102 to 32382 parts of 1024, and is one at 127 |
| AgcGains.VirtualExactly | gbcom_common/agc/agc.c:1235-1258 | a sample under it is the product rounded down or the nearest bound: smaller below 127, larger above |
| AgcGains.AlongExactly | gbcom_common/agc/agc.c:1242-1262 | every sample of the lowest band that clips takes the index down by one, and the gain lags one step behind: the first such sample changes the level reported but not the gain |
| Agc.LegacyAgc.ProcessQueue | gbcom_common/agc/agc.c:1975-1998 | which modes run the level control, what it returns, and how the queue moves on |
| AgcLimiter.Mul32IsProduct | gbcom_common/agc/agc.c:44-47 | the split product is the product divided by 2^13 |
| AgcLimiter.Limit | gbcom_common/agc/agc.c:781-803 | the loop ends for every gain below 2^30 and envelope up to 2^30, at the first gain on the way down that passes the test, and there no sample under the envelope overloads |
| AgcLimiter.LimitFrame | gbcom_common/agc/agc.c:781-809 | every subframe gets the lesser of its limited gain and that of the next |
| AgcRange.LimitFits32 | gbcom_common/agc/agc.c:784-802 | every product of the loop stays inside 32 bits iff the gain is not from 47452160 to 47453132, where the square overflows, and the square times (env/2^12 + 1) is below 2^44 |
| AgcRange.AlwaysFitsExactly | gbcom_common/agc/agc.c:784-802 | it does for every envelope up to 2^30 iff the gain is below 8387584, the factor 128 |
| AgcRange.RunFitsExactly | gbcom_common/agc/agc.c:791-802 | no later round overflows if the first does not |
| AgcLimiter.NoOverload | gbcom_common/agc/agc.c:781-803 | a sample under the envelope stays inside 16 bits under the limited gain |
| AgcLimiter.SilencePasses | gbcom_common/agc/agc.c:791-803 | gain zero always passes, so the loop cannot go on |
| ConnSteps.EveryRunKeeps | conn_ctrl.cc:186-1137 | in every run of commands, rounds, callbacks and messages each slot holds only commands of its kind, and the states without a way in are never entered |
| ConnSteps.SwitchStep | conn_ctrl.cc:546-1137 | a command to switch and two rounds empty all slots and come one step nearer to the goal, or keep it with the same server status |
| ConnSteps.Converges | conn_ctrl.cc:546-1137 | four or more such commands from any drained state reach: mesh idle, the address taken over, the server logging in or logged in; and stay there |
| ConnSteps.ThreeAreNotEnough | conn_ctrl.cc:546-1137 | with the mesh busy and the server at another address three commands do not suffice |
| ConnSteps.ReachedExactly | conn_ctrl.cc:546-1137 | exactly as many commands are needed as the statuses and addresses of the state say |
| ConnSteps.MeshSwitchStep | conn_ctrl.cc:609-641 | a command to switch to the mesh server and two rounds empty all slots and come one step nearer to server idle, no rtc server, the address set and the mesh not idle, or keep that |
| ConnSteps.MeshReachedExactly | conn_ctrl.cc:546-1137 | from every drained state so many such commands reach that goal as the state says, at most two, and fewer do not; further ones keep it |
| ConnSteps.MeshConverges | conn_ctrl.cc:546-1137 | two always do |
| ConnSteps.OneIsNotEnough | conn_ctrl.cc:616-640 | with the server idle and another mesh server set, one does not |
| ConnSteps.MeshStaysBehind | conn_ctrl.cc:616-640 | but a mesh client that is busy beside an rtc session is never logged out: it stays with the server it had, whatever address was set |
| ConnSteps.BadAddressIgnored | conn_ctrl.cc:563-614 | without a valid address a switch changes nothing but the argument |
| ConnSteps.LoginEndsMesh | conn_ctrl.cc:854-1137 | a successful login logs the mesh client out within two rounds |
| ConnSteps.LogoutStartsMesh | conn_ctrl.cc:854-1137 | logging out of the server starts the mesh client within two rounds |
| ConnRuns.ServerExactly | conn_ctrl.cc:854-1124 | which status and command lead to each status of the server automaton |
| ConnRuns.MeshExactly | conn_ctrl.cc:693-832 | which status and command lead to each status of the mesh automaton |
| ConnRuns.MeshCommandExactly | conn_ctrl.cc:854-1124 | a finished login logs the mesh client out, leaving the server logs it in, and nothing else does either |
| ConnRuns.CallbackExactly | conn_ctrl.cc:283-498 | which status and callback of the mesh session lead to each status |
| ConnRuns.ServerSetExactly | conn_ctrl.cc:643-655 | the mesh server is set only while the mesh is idle, and only to an address |
| ConnRuns.MessagesInOrder | conn_ctrl.cc:345-409 | rounds handle the waiting messages in the order they came, one each |
| ConnRuns.MeshCall | conn_ctrl.cc:186-832 | a run from setting the server through sign-in, call, answer and hang-up reaches each status in turn |
| ConnRuns.RetryExactly | conn_ctrl.cc:860-882 | while logging in, a round without a command counts down with wrap-around and tries again iff more than eight seconds passed and the count is not used up |
| ConnRuns.RetriesApart | conn_ctrl.cc:860-882 | in every run on a clock that goes forward the tries lie more than eight seconds apart |
| ConnAddress.DottedExactly | gbcom_common/utils.c:96-144 | four parts without dots are an address iff each is a numeral of at most 255 and the first does not begin with 0 |
| ConnAddress.NumbersExactly | gbcom_common/utils.c:96-144 | four numbers written out are one iff none is above 255 and the first is not zero |
| ConnAddress.FourParts | gbcom_common/utils.c:96-144 | nothing but four parts between three dots is one |
| ConnControl.NamesExactly | conn_ctrl.cc:73-90 | which word stands for which command |
| ConnControl.MessageToldExactly | conn_ctrl.cc:186-247 | a message is the command of its first word; behind any number of spaces comes its argument |
| ConnControl.IsIpv4Addr | gbcom_common/utils.c:96-144 | the scan accepts exactly four dot-separated sections of digits of value at most 255, the first not starting with 0 |
| ConnControl.ConnCtrl.AppCmdWaiting | conn_ctrl.cc:164-183 | waiting iff one of the three slots is taken; such checks are counted, and every 300th ends the process |
| ConnControl.ConnCtrl.AppCmdSet | conn_ctrl.cc:186-247 | a known command goes to its slot with its argument freed of spaces; an unknown one changes nothing but the argument |
| ConnControl.ConnCtrl.ThreadCallbackHandle | conn_ctrl.cc:345-409 | takes one message and turns it into a server command |
| ConnControl.ConnCtrl.CfgCmdProc | conn_ctrl.cc:546-691 | empties its slot; both switches and the address setting with their refusals |
| ConnControl.ConnCtrl.MeshStatusProc | conn_ctrl.cc:693-832 | the mesh automaton takes one command |
| ConnControl.ConnCtrl.ServerStatusProc | conn_ctrl.cc:854-1124 | the server automaton takes one command, or counts down and times its login |
| ConnControl.ConnCtrl.Process | conn_ctrl.cc:1126-1137 | one round is the four in their order and keeps the invariant |
| ConnControl.ConnCtrl.QueueUIThreadCallback | conn_ctrl.cc:333-342 | a message goes behind those that wait |
| ConnControl.ConnCtrl.OnMeshSignFailed | conn_ctrl.cc:417-425 | a refused sign-in makes the mesh idle |
| ConnControl.ConnCtrl.OnMeshDisconnected | conn_ctrl.cc:440-455 | a lost connection makes the mesh idle only while logging in |
| ConnControl.ConnCtrl.OnMeshPeerConnected | conn_ctrl.cc:457-480 | any name but the own is taken as the peer |
| ConnControl.ConnCtrl.OnMeshSignedIn | conn_ctrl.cc:427-438 | only the own name logs in and sets the local id |
| ConnControl.ConnCtrl.OnMeshPeerDisconnected | conn_ctrl.cc:482-498 | a connected mesh falls back to logged in, any other starts to log in again without a peer |
| ConnControl.ConnCtrl.ConnectedPeerResult | conn_ctrl.cc:283-331 | only while connecting does the result count |
| MeshSession.NextKeepsExactly | peer_connection_mesh.cc:96-671 | an event keeps the session in order iff it is not a reply of status 200 without id |
| MeshSession.EveryRunKeepsExactly | peer_connection_mesh.cc:96-671 | in a run the session is in order throughout (not connected or signing out without id, connected with one, never left waiting to sign out) iff no such reply is read |
| MeshSession.FirstReplyWhileSigningIn | peer_connection_mesh.cc:436-507 | without id, a session that is neither closed nor signing out is signing in |
| MeshSession.IdIsStable | peer_connection_mesh.cc:436-671 | an id stays until the session is left |
| MeshSession.SignOutLeaves | peer_connection_mesh.cc:248-293 | signing out gives up the id and ends not connected or signing out, once the sockets exist |
| MeshReplies.SignedInExactly | peer_connection_mesh.cc:397-507 | a reply of any first line, header lines and body, cut into any pieces, signs in with the id of its Pragma line if its status is 200, and closes the session if not |
| MeshReplies.RequestAnswered | peer_connection_mesh.cc:397-507 | the same for the answer to a request: the session stays as it is, unless the status is an error |
| MeshReplies.PiecesRead | peer_connection_mesh.cc:397-507 | pieces of a text of which no beginning is complete do what the whole text does |
| MeshReplies.ReplyRead | peer_connection_mesh.cc:367-620 | status, id and announced length are read from where they stand, and the reply is complete iff its body has that length |
| MeshReplies.NoneSooner | peer_connection_mesh.cc:397-434 | no beginning of a reply is complete |
| MeshReplies.SignedRead | peer_connection_mesh.cc:367-379 | numbers are read behind blanks and a sign as C reads them |
| MeshRuns.StaysConnectedExactly | peer_connection_mesh.cc:96-671 | a connection stays, with its id, through a run iff none of its events closes the session, signs out, or dials again |
| MeshRuns.SignedInFirst | peer_connection_mesh.cc:96-671 | in every run that ends connected a dial succeeded and later a whole reply of status 200 was read |
| MeshRuns.FromClosed | peer_connection_mesh.cc:96-198 | what leads out of a closed session |
| MeshRuns.FromSigningIn | peer_connection_mesh.cc:165-507 | what leads on from signing in, with the id |
| MeshRuns.FromConnected | peer_connection_mesh.cc:200-671 | what leads on from a connected session, with the id |
| MeshRuns.FromSigningOut | peer_connection_mesh.cc:96-314 | what leads on from signing out; the control socket is not read then |
| MeshRuns.NotificationHeard | peer_connection_mesh.cc:509-553 | a notification in any pieces leaves the session as it is, in every state, unless its status is an error |
| MeshRuns.StaleSignIn | peer_connection_mesh.cc:295-314 | closing does not clear what was read: behind a reply cut off in its first line, the next sign-in takes the status of the old reply and the id of the new one |
| MeshRuns.CutOffShuts | peer_connection_mesh.cc:295-507 | so from a new session an error reply cut off, a close and a dial make a welcome shut the session that would connect a new one |
| MeshRuns.OldIdKept | peer_connection_mesh.cc:165-507 | a connected session that dials again keeps its old id, whatever the new reply carries |
| MeshSession.PeerConnectionMesh.Connect | peer_connection_mesh.cc:96-136 | dials only with a server and a name, and only when not connected or signing out; otherwise nothing changes |
| MeshSession.PeerConnectionMesh.DoConnect | peer_connection_mesh.cc:165-198 | gives up a sign-in under way, then signs in with new sockets, or closes when the dialling fails |
| MeshSession.PeerConnectionMesh.SignOut | peer_connection_mesh.cc:248-293 | nothing without a session; otherwise signing out without id, or closed when a request is in flight or the dialling fails |
| MeshSession.PeerConnectionMesh.OnRead | peer_connection_mesh.cc:436-507 | a complete reply is taken as sign-in, as an answer, or as the end of signing out, by the state |
| MeshSession.PeerConnectionMesh.OnHangingGetRead | peer_connection_mesh.cc:509-553 | a notification does not change the state unless its status is an error |
| MeshSession.PeerConnectionMesh.ParseServerResponse | peer_connection_mesh.cc:591-620 | status and id are taken from the text; anything but 200 closes the session |
| MeshSession.PeerConnectionMesh.OnClose | peer_connection_mesh.cc:622-662 | only a refused notification socket closes the session; any other end of a socket keeps it |
| MeshSession.PeerConnectionMesh.OnMessage | peer_connection_mesh.cc:664-671 | a delayed message dials again while the session is to run |
| MeshSession.PeerConnectionMesh.Close | peer_connection_mesh.cc:295-314 | no id and not connected, from any state |
| MeshSession.PeerConnectionMesh.SendToPeer | peer_connection_mesh.cc:200-232 | only a connected session with an id dials, and a failing dial closes it |
| Base64.RoundTrip | gbcom_common/base64.c:74-275 | decoding the encoding of any non-empty text gives that text |
| Base64.DecodesExactly | gbcom_common/base64.c:121-182 | decoding succeeds iff the text is non-empty, a multiple of four long, and letters of the alphabet with at most two pads at the end |
| Base64.EncodedLength | gbcom_common/base64.c:190-275 | the lengths of sections 4 and 5 of RFC 4648 |
| Base64.EncodedFits | gbcom_common/base64.c:213-213 | text and terminator fit the allocation in both forms |
| Base64.UrlForm | gbcom_common/base64.c:286-319 | the url form is the standard form with two letters exchanged and the pads removed |
| Base64.QuantumPads | gbcom_common/base64.c:139-160 | after the position check only the last quantum has pads |
| Base64.Encode | gbcom_common/base64.c:190-275 | the loop over groups writes the encoding; a size of zero stands for the length of the C string |
| Base64.PrintGroup | gbcom_common/base64.c:239-266 | one group of three, two or four characters behind what was written |
| Base64.DecodeQuantum | gbcom_common/base64.c:74-105 | four characters give up to three bytes behind what was written, or none if one is not a letter |
| Base64.Decode | gbcom_common/base64.c:121-182 | the checks and the loop over quanta give the decoded text or fail, every store inside the allocation |
| ChannelBuffers.ChannelBuffer.constructor | gbcom_common/ns/channel_buffer.h:45-78 | the nested loops fill both pointer tables and both tables of views alike, for any sizes |
| ChannelBuffers.ChannelBuffer.Populate | gbcom_common/ns/channel_buffer.h:66-77 | one entry is set in all four tables and no other is disturbed |
| ChannelBuffers.ChannelBuffer.SameStorage | gbcom_common/ns/channel_buffer.h:66-77 | the channel of a band and the band of a channel name the same stretch, at the documented place |
| ChannelBuffers.ChannelBuffer.Disjoint | gbcom_common/ns/channel_buffer.h:45-78 | two views share no sample unless they are the same |
| ChannelBuffers.ChannelBuffer.CoversExactly | gbcom_common/ns/channel_buffer.h:45-78 | every sample lies in a view iff the bands divide the frames, or there is no channel |
| ChannelBuffers.ChannelBuffer.FullBandApart | gbcom_common/ns/channel_buffer.h:88-97 | the channels without a band are separate stretches of all frames |
| ChannelBuffers.ChannelBuffer.Slice | gbcom_common/ns/channel_buffer.h:137-144 | pointers into each visible channel at the frame asked for |
| ChannelBuffers.InterleaveBack | gbcom_common/ns/audio_util.h:118-149 | interleaving what was deinterleaved restores it, for all counts |
| ChannelBuffers.DeinterleaveBack | gbcom_common/ns/audio_util.h:118-149 | deinterleaving what was interleaved restores the channels, for all counts |
| ChannelBuffers.Deinterleave | gbcom_common/ns/audio_util.h:118-131 | sample j of channel i comes from j times the channels plus i; nothing outside the channels changes |
| ChannelBuffers.Interleave | gbcom_common/ns/audio_util.h:136-149 | the way back; nothing behind the samples changes |

## Left out

* Allocation failure, `cJSON_Delete`, references to items, lookup by key, and the constructors of basic values: flat, or without a state to relate.
* Numbers that are not integers: they are parsed exactly over `real`, but printing with `%f` or `%e` and the rounding of `double` are not modelled; the round trip is for C integers.
* The JSON counters and sizes are unbounded; texts of more than 2^31 bytes are not considered, and neither is stack depth.
- CJsonParser.ParseNumber: reads the number over `real`, where the code multiplies `double` values.
* The links the parser itself sets between the children it reads: it builds values here, and links are the matter of the list operations and of the copy.
- CJsonRoundTrip.RoundTrip: compares trees by type, number, text, key and order; the integer copy of a number and the flag of `true` are not kept in the tree.
* Float rounding, and the sine and cosine tables of `makewt` and `makect`: the tables are parameters, with the conditions each theorem names. `cdft` and the cosine and sine transforms are not in the source file.
- FftRealDft.RealForwardIsDft: the tables are those of exact sines and cosines of a root y, which are parameters.
- FftInverse.Rdft: takes the tables as they are; the calls that make or grow them and the sizes kept in the index array are not modelled.
* The other header fields of a packet; the bit `held` stands for the marker that the uncleared stack buffer happens to hold.
* Failing sends, receiving (`rtp_data_recv`), the session and queue tables, and bounds of the circular queues: circular_queue is not part of this model.
- VideoPath.EndToEnd: asks for payloads of 5 to 2048 bytes (the gateway's are 1400), frames that begin with a start code and a type byte, and pieces that fit the buffer; `VideoOverflow.KeptExactly` does without the last, and that no later packet shows a start code is necessary (`VideoTorn`).
- VideoTorn.EndToEndExactly: with a false key before the first key frame, frames within 1023 bytes of the buffer's size are not looked into: such a frame could make the receiver drop the false start again.
- VideoReceiver.Receiver.Receive: the packet count handed to the saver and the statistics are left out; they do not influence what is saved.
* The encoder side of the video file (bit rates, sizes, rate control), which only sets parameters.
* Voice activity, far-end energies and downsampling, whose saturating helper wraps upwards because its cast binds before the comparison; their results are arbitrary parameters here.
- Agc.LegacyAgc.UpdateAgcThresholds: the analog target from the compression gain and the digital thresholds are left out; its level limits are constants.
* The zero crossings and energy that mark a low-level signal are a parameter; gain-table generation and the gate of the digital gain are left out.
- Agc.LegacyAgc.ProcessAnalog: the level fields are kept in one record of the object, and the energies of the frame, the speech measure and the echo flag come in as parameters.
- AgcNarrow.SaturatedRaises: envelopes, energies, the speech measure and the deviation of the far end are separate parameters; those of the run are what speech as a square wave of amplitude 2608 gives at 8 kHz, and one full-scale sample per subframe at its end.
- AgcLevels.EveryRunKeeps: restarts of the virtual volume in another mode than the adaptive digital one are not part of a run; the header documents the function for that mode alone.
- Agc.LegacyAgc.VirtualMic: for the adaptive digital mode, in which the levels run from 0 to 255.
- AgcLimiter.Limit: the products are mathematical; what the code computes where they leave 32 bits, which `AgcRange.LimitFits32` says exactly, is undefined in C.
- AgcLimiter.LimitFrame: the interpolation of the gain from sample to sample behind it is not modelled.
* Effects of the connection control (logging in, calls, messages to the user interface) and its logging; the branch without an observer; the build with MESH_DJI; addresses by name.
- ConnControl.ConnCtrl.AppCmdWaiting: the counter belongs to the object and is unbounded.
- ConnControl.ConnCtrl.AppCmdSet: command words longer than the 63 characters the code copies are not cut.
- ConnControl.IsIpv4Addr: sums are mathematical; a section of so many digits that a 32-bit sum wraps is refused.
- ConnSteps.Converges: no other events between the commands.
- ConnSteps.MeshReachedExactly: no other events between the commands.
* A claim that mesh and server sessions exclude each other would be false: a call on the HDMI input and a lost peer both break it.
* The peer list in the reply to signing in and the messages to peers, which change no state of the session; ids beyond 32 bits.
- MeshReplies.SignedInExactly: header lines without a carriage return inside, and below 2^64 bytes; a reply asking to close the socket is not told apart.
- MeshSession.PeerConnectionMesh.OnRead: the text arrives in any pieces, and the model keeps what has not been used; the length a header announces is honoured, the content is not.
* The 32-bit limit on the size to encode, and memory for the results.
* Up- and downmixing and sample conversion in the audio helpers; `SetDataForTesting`.
- ChannelBuffers.ChannelBuffer.constructor: sizes are mathematical, so the product of frames and channels does not wrap.
