# The link layer and the data mode of a soft modem

This project models the parts of a software modem on which its users' data depends, and proves what they are for:

- **V.42 bis compression** (`V42*.dfy`): the string dictionary with its recovery of entries, the encoder with its
  mode switches, and the decoder one update behind it. What is compressed is decompressed, whatever the parameters;
  strings are the longest there are, and compression is used where it pays.
- **LAPM error correction** (`Lapm*.dfy`, `Xid*.dfy`, `Negotiation.dfy`): two ends, joined by channels that lose
  frames, that negotiate, establish, number, acknowledge, reject, poll and give up. What is delivered is a prefix of
  what was sent, whatever is lost; and after any losses all of it can still be delivered, or exactly when not is said.
- **The link** (`Link.dfy`): compression over LAPM, from one DTE to the other.
- **HDLC framing** (`Fcs.dfy`, `Hdlc*.dfy`): the frame check sequence, zero-bit insertion, and a deframer that any
  flag sets straight.
- **V.34 data mode** (`V34*.dfy`): framing, the shell mapper, the constellation, the fixed-point precoder, the trellis
  encoder, the non-linear encoder and its inverse, the Viterbi decoder and the way from its decisions back to bits. What
  is sent is decoded bit for bit through a bounded disturbance, and the decoder's path is the best there is. Also the MP
  sequences of the handshake.
- **Beside them**: the linear solver and the history of the echo canceller (`RidgeSolve.dfy`, `EchoHistory.dfy`), and
  the reordering of received RTP packets (`Reorder*.dfy`).

## How it is laid out

Each component that changes its fields has two forms. A module of datatypes and functions says what every operation
makes of a state; a class next to it (`V42Codec`, `V42DictionaryClass`, `LapmClass`, `HdlcClass`, `XidClass`,
`V34PrecoderClass`, `V34EncoderClass`, `V34DecoderClass`, `V34MpClass`, `ReorderClass`) does it with fields, arrays
and loops, each method proved to leave the object in the state the function gives. The theorems over all runs are
about the functions, and so hold of the objects.

Conventions:

- Octets are integers from 0 to 255 and sequence numbers integers below 128; wherever the width of an integer
  matters (modulo 128, 16-bit sequences, 32-bit timestamps, saturation) it is written out.
- A word that the source puts together by shifting and or-ing disjoint bits is written here as the concatenation of
  its fields (`Join` in `Arithmetic.dfy`, `FieldBits` in `BitField.dfy`), with the width of each field proved. The FCS
  register, where bits do overlap, is a 16-bit vector.
- Numbers that the source keeps as `f64` are real numbers: the metrics, the nearest point, the whitening filter, the
  warp and its inverse, and the linear solver. A metric that is infinite is a value of its own. The magnitude of an
  equalized point, which the source has from `hypot`, comes with the point (`V34Warp.Heard`).
- Times are integers given to each operation. Ghost parts of a state (packet numbers without their modulus, all
  octets delivered so far) are not read by any operation.
- Where the source's documentation and its code differ, the code is followed. `Deframer::bad_frames` is documented in
  `softmodem-dsp/src/hdlc.rs:126-130` as counting frames dropped for a bad FCS or length; the code counts those that
  are too short but lets one of more than 4197 octets go uncounted, and `Hdlc.FrameRuns` says so. `Directions::conclude` is
  documented in `softmodem-link/src/v42bis.rs:124-129` as failing for values outside section 5.1; the code does not look
  at them where the reply names no direction (`Negotiation.ConcludeIsWithin`, `Negotiation.EmptyReplyIsNotRead`).

## Model

| member | source | states |
|---|---|---|
| V42Dictionary.OnlyPrefixes | softmodem-link/src/v42bis.rs:219-253 | if no other entry is free, every entry in use is a prefix of the newest string, the one of its length |
| V42Dictionary.AnotherIsFree | softmodem-link/src/v42bis.rs:235-253 | with the parameters of section 5.1 some entry other than the newest is always empty or a leaf, by counting lengths |
| V42Dictionary.RecoversAnother | softmodem-link/src/v42bis.rs:235-253 | the search for an entry to recover ends, at a free one that is never the entry just made |
| V42Dictionary.InsertKeepsTree | softmodem-link/src/v42bis.rs:219-233 | a new entry keeps every string a path of entries with the right lengths, no key twice |
| V42Dictionary.RemovalKeepsTree | softmodem-link/src/v42bis.rs:235-253 | emptying a leaf leaves all other strings whole |
| V42Dictionary.AddKeepsInv | softmodem-link/src/v42bis.rs:219-253 | every update keeps the dictionary's invariant and the string it extends, and makes the entry that was next |
| V42Dictionary.String | softmodem-link/src/v42bis.rs:256-268 | a codeword in use spells a string of the length its entry records |
| V42Dictionary.AddKeepsStrings | softmodem-link/src/v42bis.rs:219-268 | after an update every codeword but the new one spells what it spelt before, so a decoder one update behind reads it alike |
| V42Learning.ScanIsFirst | softmodem-link/src/v42bis.rs:235-243 | the search for an entry to recover passes over none that is free |
| V42Learning.Learns | softmodem-link/src/v42bis.rs:219-253 | a string is learnt with a character more exactly if it is not too long and the longer one is unknown; that one gets codeword C1, and only the next free entry in cyclic order is forgotten |
| V42DictionaryClass.InsertMirrors | softmodem-link/src/v42bis.rs:219-233 | parent, character, length, child counts and the hash map all stay those of the modelled dictionary when an entry is made |
| V42DictionaryClass.DropMirrors | softmodem-link/src/v42bis.rs:245-251 | and when one is emptied, with its parent's count one lower and its key out of the map |
| V42DictionaryClass.ScanIsNext | softmodem-link/src/v42bis.rs:235-243 | stepping round the table by length and child count stops where the modelled search does |
| V42DictionaryClass.Dictionary.constructor | softmodem-link/src/v42bis.rs:195-212 | starts with the 256 strings of one character and nothing else |
| V42DictionaryClass.Dictionary.Clear | softmodem-link/src/v42bis.rs:195-212 | makes the arrays and the map those of an empty dictionary |
| V42DictionaryClass.Dictionary.ChildOf | softmodem-link/src/v42bis.rs:214-216 | finds the entry that extends a string by a character exactly when there is one |
| V42DictionaryClass.Dictionary.Add | softmodem-link/src/v42bis.rs:219-233 | makes the modelled update, with its result and its recovery, in place |
| V42DictionaryClass.Dictionary.Recover | softmodem-link/src/v42bis.rs:235-253 | terminates, moves to the free entry the model finds, and empties it |
| V42DictionaryClass.Dictionary.StringOf | softmodem-link/src/v42bis.rs:256-268 | walks parents back and returns the string, or nothing for a codeword not in use |
| V42bis.PushKeepsOk | softmodem-link/src/v42bis.rs:284-309 | the matcher's current string stays in the dictionary through the update it makes |
| V42bis.SendKeepsOk | softmodem-link/src/v42bis.rs:401-453 | the encoder's invariant through one character in either mode |
| V42bis.DecodesInParts | softmodem-link/src/v42bis.rs:515-533 | octets decoded in parts give what they give together, errors included |
| V42Line.ChainAppends | softmodem-link/src/v42bis.rs:319-327 | codewords packed least significant bit first come apart in order, each at the width the decoder has by then |
| V42Line.OctetArrives | softmodem-link/src/v42bis.rs:515-533 | one octet moves bits from the line to the decoder, which stays on its way to the same state |
| V42Line.PutReaches | softmodem-link/src/v42bis.rs:319-327 | a codeword put on the line takes the decoder, in time, to what decoding it gives |
| V42Line.AlignReaches | softmodem-link/src/v42bis.rs:329-339 | a command that realigns leaves both ends at an octet boundary with no bits kept |
| V42RoundTrip.CatchesUp | softmodem-link/src/v42bis.rs:568-604 | the codeword of the string in hand is never the one the pending update recovers, and makes the decoder's dictionary the encoder's |
| V42RoundTrip.CodewordReaches | softmodem-link/src/v42bis.rs:460-475 | STEPUPs widen both ends alike until the codeword fits, and it is heard as sent |
| V42RoundTrip.TestKeepsStep | softmodem-link/src/v42bis.rs:428-453 | a test of compressibility, whether or not it changes mode, keeps the ends in step |
| V42RoundTrip.CharacterKeepsStep | softmodem-link/src/v42bis.rs:401-453 | one character, in either mode, through updates, recovery, escapes and mode switches, keeps them in step |
| V42RoundTrip.FlushKeepsStep | softmodem-link/src/v42bis.rs:386-399 | after a flush nothing is held back and the decoder has it all |
| V42RoundTrip.RunKeepsStep | softmodem-link/src/v42bis.rs:378-475 | any interleaving of chunks and flushes keeps them in step |
| V42RoundTrip.RoundTrip | softmodem-link/src/v42bis.rs:378-611 | for any valid parameters and any run, any prefix of what was sent decodes without error to a prefix of the text, and to all of it after a flush |
| V42Learning.NeverTooWide | softmodem-link/src/v42bis.rs:515-604 | no octets from any sender widen a decoder's codewords past N1 without an error |
| V42Greedy.StringsDiffer | softmodem-link/src/v42bis.rs:256-268 | no two codewords in use spell the same string |
| V42Greedy.PushIsGreedy | softmodem-link/src/v42bis.rs:284-309 | a string in hand ends exactly if the dictionary has no longer one with the next character, other than the entry made last |
| V42Greedy.ParsesGreedily | softmodem-link/src/v42bis.rs:378-475 | in every run, the codewords sent in compressed mode, with what is held, are the parse of the text into longest strings, each learnt with the character after it |
| V42Greedy.EscapeCycles | softmodem-link/src/v42bis.rs:419-421 | in every run the escape character is 51 times the number of times it was met, modulo 256 |
| V42Window.CodewordTakes | softmodem-link/src/v42bis.rs:460-475 | the bits counted for a codeword are those the writer takes for it and its STEPUPs |
| V42Window.WindowCounts | softmodem-link/src/v42bis.rs:401-427 | within a window the count is of the bits written for codewords, or in transparent mode of those the ended strings would have taken |
| V42Window.WindowDecides | softmodem-link/src/v42bis.rs:428-453 | 512 characters leave compressed mode exactly if their codewords took over 4096 bits, and enter it exactly if their strings would have taken under 3072 |
| V42Window.WindowsTile | softmodem-link/src/v42bis.rs:423-434 | in every run a window begins at each 512th character with nothing counted |
| V42Codec.StringMatcher.Push | softmodem-link/src/v42bis.rs:284-309 | in place, the matching that `V42Greedy.PushIsGreedy` shows to take the longest string |
| V42Codec.BitWriter.Put | softmodem-link/src/v42bis.rs:319-327 | appends a value's bits and spills whole octets, in a loop, as modelled |
| V42Codec.BitWriter.AlignBits | softmodem-link/src/v42bis.rs:329-339 | pads to an octet boundary |
| V42Codec.Encoder.SendCode | softmodem-link/src/v42bis.rs:460-470 | STEPUPs, the codeword, and the number of bits they took |
| V42Codec.Encoder.TestCompressibility | softmodem-link/src/v42bis.rs:428-453 | in place, the test that decides as `V42Window.WindowDecides` says, with the commands that switch |
| V42Codec.Encoder.Character | softmodem-link/src/v42bis.rs:401-453 | one character in place |
| V42Codec.Encoder.EncodeChunk | softmodem-link/src/v42bis.rs:378-384 | a chunk in place; the octets returned are those completed since the last were taken |
| V42Codec.Encoder.FlushHeld | softmodem-link/src/v42bis.rs:386-399 | the flush in place |
| V42Codec.Decoder.DecodeCode | softmodem-link/src/v42bis.rs:568-604 | commands, errors and strings of one codeword in place |
| V42Codec.Decoder.HearOctet | softmodem-link/src/v42bis.rs:535-566 | an octet of transparent mode, with its escapes, commands and matching |
| V42Codec.Decoder.DecodeOctets | softmodem-link/src/v42bis.rs:515-533 | decodes octets in order up to the first error, as modelled |
| Negotiation.AnswersAgreement | softmodem-link/src/v42bis.rs:78-127 | the responder accepts exactly the directions both offered, at the lower of each limit, and mirrors them |
| Negotiation.BothEndsAgree | softmodem-link/src/v42bis.rs:76-163 | for all valid offers both ends end without error with the same limits and mirrored directions, or both without compression |
| Negotiation.AnswerIsWithin | softmodem-link/src/v42bis.rs:88-127 | a proposal of any values fails exactly if they are not allowed, and gets no more than was offered |
| Negotiation.ConcludeIsWithin | softmodem-link/src/v42bis.rs:124-156 | a reply of any values fails exactly if it names a direction, and one not proposed or values not allowed; the rest is within the offer |
| Negotiation.EmptyReplyIsNotRead | softmodem-link/src/v42bis.rs:124-144 | a reply with no direction and values outside section 5.1 is accepted as no compression |
| XidField.MinimalDropsZeros | softmodem-link/src/xid.rs:188-191 | leading zeros go, all of them and nothing else, but for the last octet |
| XidField.MinimalKeepsNumber | softmodem-link/src/xid.rs:170-191 | dropping leading zeros leaves the number read |
| XidField.ParsesParameters | softmodem-link/src/xid.rs:160-186 | a group's parameters are read back as listed |
| XidField.ReadsPublic | softmodem-link/src/xid.rs:59-135 | sizes, windows and functions come back from their octets |
| XidField.ReadsPrivate | softmodem-link/src/xid.rs:76-156 | so do the parameters of V.42 bis |
| XidField.ParsesBytes | softmodem-link/src/xid.rs:59-199 | parsing inverts writing whenever the functions avoid the bits always set and the directions are at most 3 |
| XidClass.Parameters | softmodem-link/src/xid.rs:160-168 | the loop over a group gives the modelled list, or fails where it does |
| XidClass.Numbered | softmodem-link/src/xid.rs:170-174 | the checked fold gives the number, or nothing past 32 bits |
| XidClass.Write | softmodem-link/src/xid.rs:59-90 | pushing parameters and groups one by one writes the modelled octets |
| XidClass.Reader.ReadPublic | softmodem-link/src/xid.rs:117-135 | reads the public group into its fields |
| XidClass.Reader.ReadPrivate | softmodem-link/src/xid.rs:137-157 | reads the private group, with no compression without P0 |
| XidClass.Read | softmodem-link/src/xid.rs:93-115 | the loop over groups parses as modelled, with the same failures |
| LapmFrame.ParsesBytes | softmodem-link/src/frame.rs:104-183 | every frame of Table 8 is read back as written, and one with an information field out of place is undefined |
| LapmFrame.BytesOfParsed | softmodem-link/src/frame.rs:124-183 | nothing but a well-formed frame's own octets is read as it |
| LapmPair.SameNumber | softmodem-link/src/lapm.rs:446-465 | though N(S) wraps around, an I frame in flight has the number awaited only if it is the frame awaited |
| LapmPair.AcknowledgeKeeps | softmodem-link/src/lapm.rs:505-521 | an N(R) in flight is valid and acknowledges what it says, without its modulus |
| LapmPair.InformationKeeps | softmodem-link/src/lapm.rs:446-465 | an I frame, in sequence or not, keeps what each end delivered a prefix |
| LapmPair.SupervisoryKeeps | softmodem-link/src/lapm.rs:467-503 | so do RR, RNR, REJ and SREJ; where the end goes on from is `LapmResend.ResendsInRuns` |
| LapmPair.IFrameKeeps | softmodem-link/src/lapm.rs:523-549 | so does sending an I frame, new or again |
| LapmPair.ArriveKeeps | softmodem-link/src/lapm.rs:222-251 | any well-formed frame that arrives keeps the pair's invariant |
| LapmPair.TransmitKeeps | softmodem-link/src/lapm.rs:187-219 | so does any frame that is sent, with what T401 does first |
| LapmPair.LosesKeep | softmodem-link/src/lapm.rs:446-549 | and so does losing any frame in flight |
| LapmRun.OwnXidParses | softmodem-link/src/lapm.rs:312-325 | an end's own XID command parses to its offer |
| LapmRun.XidCommandSettles | softmodem-link/src/lapm.rs:408-431 | the called end settles on the agreement when it hears the caller's XID |
| LapmRun.XidReplySettles | softmodem-link/src/lapm.rs:348-431 | the caller settles on the same when it hears the reply |
| LapmRun.RunOk | softmodem-link/src/lapm.rs:97-549 | every run of two ends, from establishment on, keeps the system's invariant |
| LapmRun.DeliversInOrder | softmodem-link/src/lapm.rs:446-549 | in every run over lossy channels each end has delivered a prefix of what the other was given: nothing lost, doubled or reordered |
| LapmRun.EveryNrIsValid | softmodem-link/src/lapm.rs:467-549 | every N(R) in flight is valid, V(S) - V(A) never exceeds the unacknowledged frames, and those never exceed 127 |
| LapmRun.NegotiatesAlike | softmodem-link/src/lapm.rs:348-431 | once both are connected they have settled on what both offered, mirrored |
| LapmRun.CallerHoldsOn | softmodem-link/src/lapm.rs:222-251 | no frame ever releases a connected caller |
| LapmRun.CalledHoldsOn | softmodem-link/src/lapm.rs:348-406 | a frame releases a connected called end exactly if it is a repeated SABME after data has passed |
| LapmAnswers.UrgentInOrder | softmodem-link/src/lapm.rs:187-201 | what is urgent goes out in order, a frame at each call, before anything else and whatever T401 does |
| LapmAnswers.DiscReleases | softmodem-link/src/lapm.rs:393-397 | a DISC releases a connected end, which answers UA next after what was urgent; one not connected stays as it was and answers DM |
| LapmAnswers.ReleasedExactly | softmodem-link/src/lapm.rs:222-251 | whatever octets arrive in time, a connected end is released exactly by a DISC, a SABME once data passed, a FRMR, a DM not polled for or got while polling, an SREJ, an invalid N(R), or an undefined frame |
| LapmAnswers.ReleasedForGood | softmodem-link/src/lapm.rs:168-297 | in every life a released end keeps nothing to send, takes no more data and delivers none, and nothing it hears brings it back |
| LapmAnswers.GapIsRejected | softmodem-link/src/lapm.rs:446-465 | an I frame out of sequence is not delivered; the first of a gap is answered at once by a REJ for the frame awaited with the poll's F, the rest by no other |
| LapmAnswers.AwaitedIsDelivered | softmodem-link/src/lapm.rs:446-465 | the I frame awaited is delivered, is to be acknowledged, with F = 1 if it polls, and ends the exception, so the next gap is rejected again |
| LapmAnswers.BreakIsAnswered | softmodem-link/src/lapm.rs:433-444 | a BRK, new or repeated, is answered by a BRKACK with the opposite bit |
| LapmResend.ResendsFrom | softmodem-link/src/lapm.rs:467-503 | after a REJ outside timer recovery, or the answer to the poll in it, the next I frame that goes out is the one asked for by number, with the octets it had |
| LapmResend.ResendsInRuns | softmodem-link/src/lapm.rs:467-549 | so it is at either end in every run of the pair |
| LapmRecovery.AskedHearsS | softmodem-link/src/lapm.rs:467-483 | an answer with F = 1 ends timer recovery at the N(R) it brings, and one without does not |
| LapmRecovery.Recovers | softmodem-link/src/lapm.rs:187-521 | an end in timer recovery pays what it owes, polls and is answered, and knows then what the other end awaits |
| LapmRecovery.Cycle | softmodem-link/src/lapm.rs:187-549 | by way of T401 and a poll, an end with something left gets into step with the other, or gets a frame across |
| LapmRecovery.Drain | softmodem-link/src/lapm.rs:187-549 | so it gets across all that it has left, and undoes nothing at the other end |
| LapmLoss.RunHealthy | softmodem-link/src/lapm.rs:187-503 | in every run no end holds its data back, forgets what it waits for, or has a timed frame urgent at the called end |
| LapmLoss.DeliversAfterLoss | softmodem-link/src/lapm.rs:187-549 | from every reachable pair with both ends connected, nothing in flight and retries left, whatever was lost, frames that are sent and arrive while T401 runs out deliver and acknowledge all that either was given, unless a SABME is left over and data has passed |
| LapmLoss.SabmeStops | softmodem-link/src/lapm.rs:382-391 | a SABME left over once data has passed lets nothing more through to the called end |
| LapmLoss.DeliversExactly | softmodem-link/src/lapm.rs:187-549 | so with something still to reach the called end, everything can be delivered exactly if no SABME is left over or no data has passed |
| LapmLoss.LateAnswer | softmodem-link/src/lapm.rs:253-406 | a reachable pair where it is so: T401 runs out at the caller just before the UA arrives, and the called end has sent data by then |
| LapmLimits.XidSets | softmodem-link/src/lapm.rs:348-431 | an XID command or reply of any octets gives the end its receive limits, clamped, or the defaults 128 and 15 |
| LapmLimits.StaysWithinExactly | softmodem-link/src/lapm.rs:523-549 | an end keeps within its limits in every life without another XID exactly if what it has unacknowledged does already |
| LapmLimits.XidBinds | softmodem-link/src/lapm.rs:369-431 | after an XID no I frame is longer and no more are unacknowledged than it lets, for ever, in every end not connected yet, and in a connected one exactly if its unacknowledged frames were within; the reply declares those limits, and returns the far end's own |
| LapmLimits.LivesBind | softmodem-link/src/lapm.rs:97-406 | which applies to every life of every end, as nothing urgent is ever numbered |
| LapmTimers.ExpireWatched | softmodem-link/src/lapm.rs:253-290 | an expiry of T401 leaves the timer or the frame that starts it in place |
| LapmTimers.NextWatched | softmodem-link/src/lapm.rs:187-219 | so does sending |
| LapmTimers.ReceiveWatched | softmodem-link/src/lapm.rs:222-251 | so does any octets at all that arrive |
| LapmTimers.NothingForgotten | softmodem-link/src/lapm.rs:187-521 | whatever an end is given, asked for and told, at any times, what it waits for keeps T401 running or the frame that starts it to be sent |
| LapmTimers.NeverForgotten | softmodem-link/src/lapm.rs:97-521 | and so in every life of an originator and of an answerer, from its start |
| LapmTimers.SilenceCosts | softmodem-link/src/lapm.rs:253-290 | an end that hears nothing more, whatever it is given and however often it is asked for frames, releases exactly when T401 has run out as often as its patience, at most N400 + 1 times |
| LapmTimers.TimerStarts | softmodem-link/src/lapm.rs:187-219 | with T401 stopped, an end that waits has it running, for T401 from that call, by as many calls for a frame as it has frames to send first, at any spacing |
| LapmTimers.SilenceReleases | softmodem-link/src/lapm.rs:187-290 | so it has released once it was asked for a frame, with T401 stopped or run out, as often as its patience and what it had to send allow |
| LapmTimers.AnswererGivesUp | softmodem-link/src/lapm.rs:253-257 | an answerer that hears nothing gives up exactly if it is asked for a frame ten times T401 after it began |
| LapmClass.LapmEnd.Originate | softmodem-link/src/lapm.rs:100-107 | starts negotiating with its XID queued |
| LapmClass.LapmEnd.Answer | softmodem-link/src/lapm.rs:111-114 | starts waiting, with a deadline |
| LapmClass.LapmEnd.Send | softmodem-link/src/lapm.rs:168-173 | queues data unless released |
| LapmClass.LapmEnd.TakeReceived | softmodem-link/src/lapm.rs:182-184 | gives all that was delivered since the last time, and nothing else changes |
| LapmClass.LapmEnd.NextFrame | softmodem-link/src/lapm.rs:187-219 | the next frame's octets and the new state, in the source's order of precedence |
| LapmClass.LapmEnd.Receive | softmodem-link/src/lapm.rs:222-251 | every kind of received octets in place |
| LapmClass.LapmEnd.Expire | softmodem-link/src/lapm.rs:253-290 | deadlines, retries and recovery in place |
| LapmClass.LapmEnd.Agree | softmodem-link/src/lapm.rs:408-431 | in place, the answer and the limits that `LapmLimits.XidBinds` shows to be the far end's receive limits |
| LapmClass.LapmEnd.ReceiveUnnumbered | softmodem-link/src/lapm.rs:348-406 | unnumbered frames in every state |
| LapmClass.LapmEnd.Information | softmodem-link/src/lapm.rs:446-465 | I frames in place |
| LapmClass.LapmEnd.SupervisoryIn | softmodem-link/src/lapm.rs:467-503 | supervisory frames in place, going on from where `LapmResend.ResendsFrom` says |
| LapmClass.LapmEnd.Acknowledge | softmodem-link/src/lapm.rs:505-521 | takes acknowledged frames off in a loop, or releases for an N(R) out of range |
| LapmClass.LapmEnd.NextIFrame | softmodem-link/src/lapm.rs:523-549 | a frame again, or a new one from the queue if the window and the far end allow |
| LapmProgress.TurnPasses | softmodem-link/src/lapm.rs:446-549 | a frame sent and heard leaves the two ends as they were with their parts exchanged, and everything sent before it acknowledged |
| LapmProgress.Deliver | softmodem-link/src/lapm.rs:187-549 | from any such state, transmissions and arrivals empty both queues, with everything delivered and acknowledged |
| LapmProgress.EverythingArrives | softmodem-link/src/lapm.rs:97-549 | on a line that loses nothing, whatever both ends offer and are given, XID, SABME and UA connect them and all of both texts is delivered and acknowledged |
| LapmSettled.ReceiveSettles | softmodem-link/src/lapm.rs:222-431 | no octets make an end that is connected, or was, change the compression it settled on |
| LapmSettled.StaysNegotiated | softmodem-link/src/lapm.rs:348-431 | from when both ends are connected on, whatever becomes of them, they hold what both offered, mirrored |
| Link.CodecsMatch | softmodem-link/src/lib.rs:354-378 | each end hears with what the other sends with, also once either has released |
| Link.TextArrives | softmodem-link/src/lib.rs:222-334 | through compression and lossy channels, once both were connected, the text a DTE has is a prefix of what the other sent, without error, and all of it when all is delivered after a flush |
| Fcs.CrcFolds | softmodem-dsp/src/hdlc.rs:21-33 | bits taken one by one leave what they leave if folded into the register first |
| Fcs.FcsUpdate | softmodem-dsp/src/hdlc.rs:21-33 | the octet-wise loop computes the bit-serial CRC of the same bits |
| Fcs.Residue | softmodem-dsp/src/hdlc.rs:13-39 | whatever the register, its complement takes it to 0xf0b8 |
| Fcs.FramePasses | softmodem-dsp/src/hdlc.rs:35-39 | any octets and their FCS leave the good remainder |
| Fcs.CrcInjective | softmodem-dsp/src/v34/bits.rs:10-16 | the same bits never bring two registers together |
| Fcs.BurstIsCaught | softmodem-dsp/src/hdlc.rs:21-39 | a good frame of any length changed anywhere within 16 consecutive bits is not good |
| Hdlc.StuffedHasNoFlag | softmodem-dsp/src/hdlc.rs:47-62 | what is sent between flags never has six 1s in a row |
| Hdlc.FlagOpens | softmodem-dsp/src/hdlc.rs:93-155 | from any state at all, one flag leaves the deframer open and empty |
| Hdlc.Unstuffs | softmodem-dsp/src/hdlc.rs:93-117 | taking the inserted 0s out leaves the content, or the deframer gave up because it was too long |
| Hdlc.ContentRuns | softmodem-dsp/src/hdlc.rs:93-170 | any content between flags is heard whole, and the closing flag checks it |
| Hdlc.ChecksContent | softmodem-dsp/src/hdlc.rs:157-170 | the check passes exactly the frames that are not too short |
| Hdlc.FrameRuns | softmodem-dsp/src/hdlc.rs:93-170 | a frame is returned if and only if it has from min_content to 4197 octets; a shorter one counts as bad, a longer one goes silently |
| Hdlc.LineRuns | softmodem-dsp/src/hdlc.rs:41-170 | any list of frames with any number of further flags, after an opening flag |
| Hdlc.FramesSurvive | softmodem-dsp/src/hdlc.rs:41-170 | after any bit history and one flag, exactly those frames are returned, in order, and exactly the short ones count as bad |
| Hdlc.BurstIsDropped | softmodem-dsp/src/hdlc.rs:93-170 | a frame with a burst of up to 16 changed content bits is dropped and counted |
| HdlcClass.PushFlag | softmodem-dsp/src/hdlc.rs:41-43 | appends a flag bit by bit |
| HdlcClass.PushFrame | softmodem-dsp/src/hdlc.rs:47-62 | the loop with its ones counter appends the stuffed frame, FCS and flag |
| HdlcClass.Checked | softmodem-dsp/src/hdlc.rs:157-170 | the octets of a checked frame without their FCS |
| HdlcClass.Deframer.Push | softmodem-dsp/src/hdlc.rs:93-117 | one bit in place, and the frame it completes |
| HdlcClass.Deframer.Flag | softmodem-dsp/src/hdlc.rs:138-155 | a flag in place, with its counters |
| HdlcClass.LapmSurvives | softmodem-link/src/frame.rs:104-183 | after any bit history and one flag, every well-formed LAPM frame of up to 4197 octets reaches the parser's caller as it was sent |
| V34Constellation.SortOrders | softmodem-dsp/src/v34/constellation.rs:16-24 | sorting puts the grid strictly in order of energy and then from the top down, with every point kept |
| V34Constellation.LabelsAreLeast | softmodem-dsp/src/v34/constellation.rs:16-24 | a grid point without a label comes after all 416 that have one |
| V34Constellation.LabelInverts | softmodem-dsp/src/v34/constellation.rs:35-54 | a labelled point turned any number of times gives its label and its turns back |
| V34Constellation.LabelIs | softmodem-dsp/src/v34/constellation.rs:49-54 | a point has a label exactly if some label and turns give it |
| V34Trellis.SubsetParity | softmodem-dsp/src/v34/trellis.rs:11-63 | the low bit of a subset label of figure 9 is the parity of half the coordinates' sum |
| V34Trellis.NextSeparates | softmodem-dsp/src/v34/trellis.rs:107-128 | from every state of each of the three encoders 4, 8 or 16 states can follow, one for each value of the inputs it uses |
| V34Parity.InputsAre | softmodem-dsp/src/v34/trellis.rs:18-70 | table 13 as exclusive ors of the bits of the two labels |
| V34Parity.Parity16 | softmodem-dsp/src/v34/trellis.rs:97-118 | in any run from any state Y0(n) is the exclusive or of Y0(n-4), Y0(n-3), Y2(n-3), Y2(n-2) and Y1(n-1) |
| V34Parity.Parity32 | softmodem-dsp/src/v34/trellis.rs:97-119 | and for 32 states of Y0(n-5), Y2(n-4), Y1(n-3), Y4(n-2) and Y2(n-1) |
| V34Parity.Parity64 | softmodem-dsp/src/v34/trellis.rs:97-127 | and for 64 states the check that is not linear, over seven symbols |
| V34Nearest.SubsetCell | softmodem-dsp/src/v34/decoder.rs:28-38 | every point of a subset is its representative plus four times a point of the checkerboard |
| V34Nearest.CellSubset | softmodem-dsp/src/v34/decoder.rs:28-38 | and every such point is in the subset |
| V34Nearest.NearestIsIn | softmodem-dsp/src/v34/decoder.rs:40-58 | the point found is in the subset |
| V34Nearest.NearestIsBest | softmodem-dsp/src/v34/decoder.rs:40-58 | no point of the subset is nearer, also where the odd sum had to be put right |
| V34Shell.PairInverts | softmodem-dsp/src/v34/shell.rs:41-59 | two rings below M come from a sum and a place among its pairs, and give them back |
| V34Shell.LargestSplits | softmodem-dsp/src/v34/shell.rs:31-39 | the search for a part ends within the sum, with the remainder below the next term |
| V34Shell.Choose | softmodem-dsp/src/v34/shell.rs:94-99 | a value splits into a part and a place in each half, and adds up to itself again |
| V34Shell.ChosenIsChosen | softmodem-dsp/src/v34/shell.rs:121-133 | every part and places are those of one value |
| V34Shell.Map | softmodem-dsp/src/v34/shell.rs:90-112 | eight rings, each below M |
| V34Shell.UnmapInverts | softmodem-dsp/src/v34/shell.rs:90-134 | the inverse shell mapper gives back every value that was mapped |
| V34Shell.MapInverts | softmodem-dsp/src/v34/shell.rs:90-134 | every eight rings below M are those of one value, so the mapper is one to one and onto |
| V34Shell.ValuesAre | softmodem-dsp/src/v34/shell.rs:17-25 | the convolutions count exactly M to the eighth values |
| V34Shell.MapGrows | softmodem-dsp/src/v34/shell.rs:90-112 | a larger value never has a smaller sum of rings, so short frames take the inner rings |
| V34Framing.FrameBitsAre | softmodem-dsp/src/v34/framing.rs:66-68 | the bits of a data frame split exactly into high and low mapping frames |
| V34Framing.RingsFit | softmodem-dsp/src/v34/framing.rs:112-119 | the rings of table 10 exist, take K bits, and stay inside the 416 labels |
| V34Framing.RingCountsAre | softmodem-dsp/src/v34/framing.rs:112-119 | the minimum is the least M with M^8 at least 2^K, and the expanded count is 1.25 times the eighth root of 2^K rounded, or the minimum if that is more |
| V34Framing.ShellAndRestAre | softmodem-dsp/src/v34/framing.rs:69-74 | q is the least that leaves the shell mapper at most 31 bits |
| V34Framing.NewIsOk | softmodem-dsp/src/v34/framing.rs:53-89 | a framing is made for exactly the rates of table 8, and each meets what the mapping needs |
| V34Framing.BitsBeforeIs | softmodem-dsp/src/v34/framing.rs:94-96 | after any number of mapping frames the counter has made high ones as often as it should |
| V34Framing.DataFrameBits | softmodem-dsp/src/v34/framing.rs:53-96 | the mapping frames of a data frame carry exactly its share of the bit rate |
| V34Framing.FewestBits | softmodem-dsp/src/v34/encoder.rs:69-71 | no mapping frame takes fewer than its eight I bits |
| V34Precoder.RoundDivIs | softmodem-dsp/src/v34/precoder.rs:25-28 | division to the nearest, with halves to the smaller magnitude |
| V34Precoder.TapMultiplies | softmodem-dsp/src/v34/precoder.rs:66-71 | a tap is the complex product of sample and coefficient |
| V34Precoder.TapsBelow | softmodem-dsp/src/v34/precoder.rs:66-71 | no partial sum of the filter comes near the end of 64 bits |
| V34Precoder.MultipleIs | softmodem-dsp/src/v34/precoder.rs:74-76 | c(n) is the multiple of the modulo nearest to p(n), and never the fallback |
| V34Precoder.PushKeeps | softmodem-dsp/src/v34/precoder.rs:60-78 | one point keeps every bound, and x(n) within half the modulo of u(n) |
| V34Precoder.Stable | softmodem-dsp/src/v34/precoder.rs:25-78 | for any coefficients and any run: p(n) stays within 78336, every sum, partial sum and numerator stays inside 64 bits, and no fallback is taken |
| V34PrecoderClass.Precoder.Push | softmodem-dsp/src/v34/precoder.rs:60-78 | the precoder in place, with the loop over its taps |
| V34PrecoderClass.Unwarp | softmodem-dsp/src/v34/precoder.rs:98-113 | eight rounds of Newton's method in a loop give the modelled point |
| V34PrecoderClass.Whitener.Push | softmodem-dsp/src/v34/precoder.rs:149-161 | the unwarped point and the filter in place give y(n); the target for the equalizer is the point, warped again, that the filter would have made exactly the nearest odd point of |
| V34Warp.WarpSpreads | softmodem-dsp/src/v34/precoder.rs:91-118 | the non-linear encoder brings no two points nearer, so its inverse makes no disturbance larger |
| V34Warp.RoundCloses | softmodem-dsp/src/v34/precoder.rs:106-111 | one round stays above the root and leaves at most three tenths of the residual, as long as zeta is at most 8 |
| V34Warp.NewtonCloses | softmodem-dsp/src/v34/precoder.rs:98-113 | any number of rounds leave at most that power of what was left at first |
| V34Warp.UnwarpIsNear | softmodem-dsp/src/v34/precoder.rs:98-113 | a point heard within a thirtieth of what it was warped to comes back within a fourteenth of what it was |
| V34Warp.TargetWhitens | softmodem-dsp/src/v34/precoder.rs:149-168 | with the target in its place the filter gives exactly an odd point |
| V34Warp.DecidedWithin | softmodem-dsp/src/v34/precoder.rs:157-168 | which is the point sent wherever y(n) is within 1 of it |
| V34Whitener.WhitenedIsNear | softmodem-dsp/src/v34/precoder.rs:120-161 | from points within a fourteenth of x(n), the filter gives y(n) to less than 1 in each coordinate, for any coefficients |
| V34Mapper.ParseInverts | softmodem-dsp/src/v34/encoder.rs:87-122 | the bits of a mapping frame, high or low, with rings or without, are those its fields are written out as |
| V34Mapper.InversionIs | softmodem-dsp/src/v34/encoder.rs:148-161 | U0 is inverted exactly at the half data frames that table 12 marks, with B1 as the last data frame of a superframe |
| V34Mapper.TableFromB1 | softmodem-dsp/src/v34/encoder.rs:148-161 | the symbol n + 2 halves into data mode is inverted exactly if bit n mod 2J of the table is set, leftmost first |
| V34Mapper.OnlyHalvesInverted | softmodem-dsp/src/v34/encoder.rs:150-153 | and no symbol within a half |
| V34Coder.SymbolUnmaps | softmodem-dsp/src/v34/encoder.rs:125-146 | whatever c(n) was added, the receiver finds the group and rings of a 4D symbol and stays in step |
| V34Coder.SymbolParity | softmodem-dsp/src/v34/encoder.rs:125-161 | the two points of a 4D symbol have the parity of the trellis output, inverted exactly where table 12 marks a half data frame |
| V34Frames.FrameUnmaps | softmodem-dsp/src/v34/decoder.rs:226-273 | a mapping frame comes back bit for bit |
| V34Frames.AllUnmap | softmodem-dsp/src/v34/decoder.rs:226-273 | so do any number of them, through quadrants, rings, Q fields, c(n), and high and low frames |
| V34EncoderClass.Largest | softmodem-dsp/src/v34/shell.rs:32-39 | the loop stops within the sum with the modelled part and remainder |
| V34EncoderClass.Encoder.Symbol | softmodem-dsp/src/v34/encoder.rs:125-146 | steps 1 to 9 of table 11 in place, with U0 inverted where table 12 says |
| V34EncoderClass.Encoder.BitCount | softmodem-dsp/src/v34/encoder.rs:69-71 | as many bits as the modelled frame takes |
| V34EncoderClass.Encoder.EncodeFrame | softmodem-dsp/src/v34/encoder.rs:74-85 | a mapping frame in place: its eight x(n), warped if asked for, and the encoder after it |
| V34EncoderClass.Encoder.Encode | softmodem-dsp/src/v34/encoder.rs:74-85 | however many frames came before, the object is the one run over all of them, and gives the points of the last |
| V34Frames.EncodesOn | softmodem-dsp/src/v34/encoder.rs:74-85 | frames encoded in parts are encoded as if in one |
| V34Viterbi.FillAttains | softmodem-dsp/src/v34/decoder.rs:154-209 | every new metric is the cost of coming from its survivor's state through its points |
| V34Viterbi.FillIsBest | softmodem-dsp/src/v34/decoder.rs:154-209 | no other way in that the parity and the trellis allow costs less |
| V34Paths.SurvivorsAttain | softmodem-dsp/src/v34/decoder.rs:154-224 | after any number of steps a finite metric and the floors taken away are what the survivors' path costs |
| V34Paths.NoPathIsBetter | softmodem-dsp/src/v34/decoder.rs:154-224 | no allowed path from state 0 costs less, and a state that one leads to has a finite metric |
| V34Paths.SomeFinite | softmodem-dsp/src/v34/decoder.rs:180-181 | some state can always be reached, so the floor is finite |
| V34Paths.BestPathIsBest | softmodem-dsp/src/v34/decoder.rs:211-224 | tracing back from the least metric gives an allowed path nearest to all that was received |
| V34Paths.WalkIsPath | softmodem-dsp/src/v34/decoder.rs:211-224 | the walk over the survivors kept ends at that path's oldest points |
| V34Paths.DecisionIsBest | softmodem-dsp/src/v34/decoder.rs:124-138 | each decision is a point of the best path of its time |
| V34Paths.DecidesSent | softmodem-dsp/src/v34/decoder.rs:124-224 | an allowed path received less than 1 off in every coordinate is decided on exactly, 24 symbols late |
| V34RoundTrip.EncodedIsAllowed | softmodem-dsp/src/v34/encoder.rs:125-146 | whatever is encoded is among the paths the decoder searches |
| V34RoundTrip.DecoderAccounts | softmodem-dsp/src/v34/decoder.rs:124-138 | the bits given out are those of all decisions in whole mapping frames |
| V34RoundTrip.ChannelOutputDecodes | softmodem-dsp/src/v34/decoder.rs:124-273 | channel output less than 1 off decodes to the bits that were encoded, six mapping frames late |
| V34RoundTrip.SentBelow | softmodem-dsp/src/v34/encoder.rs:74-146 | no component of any x(n) is over 51 |
| V34RoundTrip.DataSurvives | softmodem-dsp/src/v34/decoder.rs:112-273 | at every rate of table 8, for any trellis, coefficients and bits, points heard within a fourteenth of what was sent, or a thirtieth of what it was warped to, give the bits back |
| V34DecoderClass.BestOf | softmodem-dsp/src/v34/decoder.rs:157-163 | the nearest point of each of the eight subsets with its distance |
| V34DecoderClass.ExtendFrom | softmodem-dsp/src/v34/decoder.rs:186-209 | the nested loops over label pairs improve the tables as modelled |
| V34DecoderClass.FillTable | softmodem-dsp/src/v34/decoder.rs:164-179 | all states, into fresh tables |
| V34DecoderClass.Decoder.Step | softmodem-dsp/src/v34/decoder.rs:154-183 | metrics less their floor, and one more column of survivors |
| V34DecoderClass.Decoder.TraceBack | softmodem-dsp/src/v34/decoder.rs:211-224 | the loop back over the survivors, and the oldest column forgotten |
| V34DecoderClass.Decoder.Unmap | softmodem-dsp/src/v34/decoder.rs:226-273 | the bits of four decisions, with quadrant and precoder moved on |
| V34DecoderClass.Decoder.Push | softmodem-dsp/src/v34/decoder.rs:112-122 | a point unwarped, whitened, kept, and with seven others decoded, with the target given back; the object stays what all points so far make of a new one |
| V34DecoderClass.DecodesOn | softmodem-dsp/src/v34/decoder.rs:112-138 | points heard in parts decode as if heard together |
| V34DecoderClass.HeardWhole | softmodem-dsp/src/v34/decoder.rs:112-138 | after whole mapping frames the object is the decoder of all points it heard, in pairs |
| V34DecoderClass.GivesBack | softmodem-dsp/src/v34/decoder.rs:112-273 | so an object that heard well all that an encoder sent has given its bits, six mapping frames late |
| V34Line.BitsComeThrough | softmodem-dsp/src/v34/encoder.rs:74-85 | an encoder object and a decoder object at the ends of a line: the bits taken are the bits given, but for the last six mapping frames |
| V34Mp.WordsInvert | softmodem-dsp/src/v34/mp.rs:98-168 | the words of an MP sequence are taken apart into the same fields |
| V34Mp.FrameLength | softmodem-dsp/src/v34/mp.rs:98-168 | a type 0 sequence has 88 bits and a type 1 sequence 188, fill bits included |
| V34Mp.SelfCancels | softmodem-dsp/src/v34/bits.rs:10-16 | a CRC after its data leaves 0 |
| V34Mp.OnlySync | softmodem-dsp/src/v34/mp.rs:174-192 | start bits let 17 ones before a 0 stand nowhere but at the sync |
| V34Mp.NotShort | softmodem-dsp/src/v34/mp.rs:210-216 | the type bit keeps the start of a type 1 sequence from passing as type 0 |
| V34Mp.NothingYet | softmodem-dsp/src/v34/mp.rs:202-221 | nothing is found before a sequence is whole |
| V34Mp.FoundWhole | softmodem-dsp/src/v34/mp.rs:202-221 | when it is whole it is found as sent |
| V34Mp.SequencesAreFound | softmodem-dsp/src/v34/mp.rs:98-221 | after any number of ones, any list of sequences of both types is read back as exactly that list |
| V34MpClass.Finder.Push | softmodem-dsp/src/v34/mp.rs:202-221 | one bit in place, with the window kept to the longest sequence |
| RidgeSolve.EliminateRow | softmodem-dsp/src/echo.rs:125-131 | the inner loop takes a multiple of the pivot row away and leaves 0 in the pivot's column |
| RidgeSolve.EliminationKeeps | softmodem-dsp/src/echo.rs:118-132 | a step of elimination keeps exactly the solutions there were |
| RidgeSolve.BackSubstitute | softmodem-dsp/src/echo.rs:133-138 | back substitution finds the one solution of an eliminated system |
| RidgeSolve.Solve | softmodem-dsp/src/echo.rs:111-139 | the ridge times the size is a hundredth of the diagonal's sum; a vector returned solves the system with the ridge's share of each unknown added and is its only solution; one is returned if and only if no row, less multiples of those before it, is within 1e-9 of nothing up to its diagonal |
| EchoHistory.SliceIsBack | softmodem-dsp/src/echo.rs:93-104 | any stretch of the history is one slice of the doubled ring |
| EchoHistory.History.Push | softmodem-dsp/src/echo.rs:77-90 | writes both copies in both buffers, and keeps where the broadband run began |
| EchoHistory.History.BackFrom | softmodem-dsp/src/echo.rs:93-104 | gives the samples back from a time, newest first, exactly if all are still kept |
| Reorder.PushSettles | softmodem-transport/src/reorder.rs:40-72 | after each push no more than the window is held, and nothing that is next |
| ReorderOrder.PushTracks | softmodem-transport/src/reorder.rs:62-72 | a new packet not overtaken by more than the window and not over 3000 ahead is held or let out in its place, never dropped as late |
| ReorderOrder.RepeatIsHarmlessExactly | softmodem-transport/src/reorder.rs:51-72 | a packet that arrives again changes nothing exactly if it is at most 3000 from what is next; from farther off it resynchronises and is let out again |
| ReorderOrder.EveryPacketInOrder | softmodem-transport/src/reorder.rs:40-103 | through 16-bit wrap-around every packet that came, however often, comes out once and in order, if none was overtaken by more than the window and each came within 3000 of what was next |
| ReorderOrder.TimelyPacketsInOrder | softmodem-transport/src/reorder.rs:40-103 | the same from the arrivals alone: each packet at most 3000 past the first still missing, and each copy less than 3000 behind any that came |
| ReorderTime.PushGoesOn | softmodem-transport/src/reorder.rs:40-72 | a push that does not resynchronise goes on with the order and the clock there were |
| ReorderTime.ResyncBegins | softmodem-transport/src/reorder.rs:54-61 | one that does lets out on time all that was held, and begins a stretch with its own packet and clock |
| ReorderTime.RunOnTime | softmodem-transport/src/reorder.rs:40-103 | in every run all that was let out splits at exactly the first packet and each that resynchronised, into stretches that begin with them and are strictly increasing and on time |
| ReorderTime.SamplesAreTime | softmodem-transport/src/reorder.rs:82-95 | where no gap is over 8000 each packet of a stretch comes after exactly as many samples, with the silence before it, as its timestamp says |
| ReorderClass.Reorder.Push | softmodem-transport/src/reorder.rs:40-72 | one packet in place, with the frames it lets out |
| ReorderClass.Reorder.Flush | softmodem-transport/src/reorder.rs:75-80 | everything held let out |
| ReorderClass.Reorder.Drain | softmodem-transport/src/reorder.rs:82-95 | the loop that lets out what is next, with silence for gaps |
| ReorderClass.Reorder.SkipToFirstHeld | softmodem-transport/src/reorder.rs:97-103 | moves on to the first packet held |

## Left out

- V42Codec.Decoder.DecodeOctets: asks that the octets never name an entry that the pending update has just recovered, which no encoder does (`V42RoundTrip.RoundTrip`); what the decoder makes of such octets is not modelled.
- LapmRun.DeliversInOrder: does not say that establishment succeeds after losses; a late repeated SABME may release a connection in use, as `LapmRun.CalledHoldsOn` says.
- LapmLoss.DeliversAfterLoss: asks that T401 may run out once more without N400 being reached, since an end whose last retry was lost can only release (`LapmTimers.SilenceCosts`), and that T401 is not 0; what a pair does that loses frames without end is not bounded.
- LapmTimers.SilenceCosts: is about an end that hears nothing more; what an end makes of answers that never acknowledge is not bounded, as in the source.
- LapmPair.ArriveKeeps: channels lose whole frames and keep their order; octets that the FCS passes by chance are not modelled.
- Link.TextArrives: is about what a DTE sends once the link is connected, as the source asks of it; the detection phase and the fall-back to plain characters are not modelled.
- V34RoundTrip.DataSurvives: takes the mean energy that the non-linear encoder divides by as a parameter, at least 2, with no point sent over 9.6 times it; that the source's estimate of the mean from 16384 samples meets this at every rate is not proved. The rounding of `f64` is not modelled.
- V34Framing.RingsFit: the expanded number of rings is 1.25 times the eighth root of 2 to the K rounded exactly; the rounding of `powf` is not modelled.
- V34Nearest.NearestIsBest: is in exact arithmetic, as are the metrics; the rounding of `f64` is not modelled.
- RidgeSolve.Solve: is in exact arithmetic; a system with no rows, for which the source divides 0 by 0 and uses it for nothing, has a ridge of 0 here, and the rows are kept in sequences that are replaced rather than in vectors split in two.
- ReorderOrder.TimelyPacketsInOrder: is about packets that are neither late nor far ahead; a new packet overtaken by more than the window is dropped, and what comes from farther off begins the stream again (`ReorderTime.RunOnTime`).
- The BREAK signal's effect beyond its acknowledgement, and `Lapm::status`, are not part of this model.
- The estimate of the constellation's mean energy and SWP as table 8 writes it are not part of this model.
- Sampled-audio processing (modulators, demodulators, tones, equalizers, echo cancellation beyond its solver and history) is floating point and trigonometry without an exact discrete claim.
- Handshake timing, V.8 bis, AT commands, SIP, RTP sockets, audio devices and the user interface are I/O or driven by detectors.
- The scrambler and the start-stop framing are simple beside the rest.
