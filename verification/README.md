# proxypen: verified models

proxypen measures proxies: it runs a TCP/UDP benchmark between a client and a server, presses a
target with many concurrent HTTP requests, resolves names with its own small DNS codec, and sends
UDP through SOCKS5 relays. This project models those four parts in Dafny and proves what they
promise over every input and every run. `dafny verify dfyconfig.toml` checks all of it.

| files | what they model |
|---|---|
| `Wire` | results, fixed-width integers, big-endian bytes |
| `Protocol`, `Stream`, `Datagrams` | the benchmark's messages, the control stream they travel on, the header of a datagram |
| `Plans`, `Session`, `Losses` | which tests run; the client and the server as two programs stepping in any order over two byte streams that deliver in pieces of any size; when losing datagrams stops them |
| `Sums`, `Trace`, `Stats`, `Reception` | the receive statistics: what the figures mean for a sequence of arrivals, the accumulator that computes them, the laws of the report |
| `Pacers`, `Sender`, `Receiver`, `DataPlane`, `Bench` | the pacer, the paced send loops with their sleeps, the receive loops, the session together with the datagrams of its UDP tests, and a whole benchmark, direct or through a relay |
| `Ordering`, `Percentiles`, `Press` | sorted samples, latency summaries, and the load generator's tasks as an interleaving of atomic steps |
| `Dns`, `DnsQuery` | the A-record response decoder and the query encoder |
| `Socks` | the SOCKS5 UDP header and the sockets that add and strip it |

How to read the models:

- A session, a press run or a clock is driven by choices nobody controls: schedules, fragmentation,
  losses, clock readings, request outcomes, send failures. The theorems quantify over all of them.
- The network of a UDP test may drop, repeat and reorder datagrams and never forges one from the
  peer (`Receiver.NotForged`); it repeats a bounded number of datagrams (`World.copies`).
- Loops and objects of the program are Dafny methods and classes, each proved against a function
  or a predicate over whole runs (`Trace`, `Dns.DecodeAResponse`, `Sender.ReportsSent`), and the
  laws are proved about those.
- Integer fields have their widths. 64-bit counters and the `i64` transit arithmetic wrap, the
  128-bit latency sum saturates, the pacer's 128-bit products wrap and its results clamp, and the
  `as u32` casts of a request truncate.

Where the program does something its comments or names do not say, the model follows the program:

- `src/bench/pacer.rs:37` says "sleep until packet number `nth` is due". At the wake time of packet
  n the loop test `seq < due` never passes (`Pacers.NotSendableAtWake`): it passes one packet
  interval later (`Pacers.SendableExactly`), and in between the loop turns without sleeping.
  `Pacers.WokenEarly` is an example: packets due every 8 ms, packet 5 woken for at 40 ms and sent at
  48 ms. What holds of the sleep is `Pacers.NearInverse` and `Sender.SleepDelaysNothing`.
- `src/bench/stats.rs:49` takes a minimum of 0 to mean "no sample yet", so a true zero latency is
  forgotten by the next arrival. `Reception.ForgottenZero` records two datagrams for which 5 ns is
  reported although one took 0, and `Reception.MinimumIsTrueExactly` says exactly when the
  reported minimum is the true one.
- `src/bench/server.rs:194` and `:232` wait for a first datagram without a time limit. When all of
  them are lost the session stops for good, unless a stranger's datagram ends the wait, which it
  may since the first one is not filtered. `Losses.CompletesExactly` says that nothing else stops
  a session early, and `Losses.EveryUdpTestCanStarve` that every UDP test can end this way.
- `src/transport.rs:94` allows 256 bytes for the relay's header, and a domain of 250 bytes or more
  makes it longer. `Socks.RelayIsTransparentExactly` gives the exact bound and
  `Socks.LongDomainCutsPayload` the loss.
- `src/press.rs:160` accepts a concurrency of 0, with which no task ever starts
  (`Press.StuckExactly`).
- `src/dns.rs:189` treats the reserved label types 01 and 10 of section 4.1.4 of RFC 1035 as long
  labels: `Dns.ReservedLabelIsAccepted` gives, for every label of 64 to 191 bytes, a response with it
  that is decoded. The code looks neither at the QR bit nor at the class of a record, and neither
  does `Dns.Answers`, the exact condition under which an address is returned.

## Model

| member | source | states |
|---|---|---|
| Protocol.DecodeEncode | src/bench/protocol.rs:17-172 | every message, followed by anything, is read back and exactly its bytes are consumed; only a response error past 65535 bytes is cut |
| Protocol.EncodeDecode | src/bench/protocol.rs:23-172 | the converse: whatever a reader accepts is the encoding of what it returns followed by what it left |
| Protocol.DecodeExtends | src/bench/protocol.rs:23-172 | bytes that arrive later never change what a reader has decided |
| Protocol.PartialMessage | src/bench/protocol.rs:23-172 | a strict prefix of a message is neither accepted nor rejected, however the stream is fragmented |
| Protocol.MoreAfterBad | src/bench/protocol.rs:23-40 | only a handshake can be malformed, and no further bytes repair it |
| Protocol.HelloLayout | src/bench/protocol.rs:5-21 | the nine bytes of a handshake, in figures |
| Protocol.RequestLayout | src/bench/protocol.rs:62-69 | a request is 25 bytes, each field at its offset and width |
| Protocol.ResponseLayout | src/bench/protocol.rs:109-117 | status, port, length and text of a response at their offsets, the text cut at 65535 bytes |
| Protocol.ReportLayout | src/bench/protocol.rs:145-157 | a report is ten fields of eight bytes in declaration order |
| Wire.BeHighByte | src/bench/protocol.rs:63-67 | an integer field is written most significant byte first, at every width |
| Wire.BigEndian | src/bench/protocol.rs:63-67 | the same in figures for 2, 4 and 8 bytes |
| Protocol.BenchCodecIsFaithful | src/bench/protocol.rs:17-172 | the four formats meet all that a session needs of its codec |
| Protocol.BenchStreamRoundTrip | src/bench/protocol.rs:17-172 | any concatenation of messages read in the order written comes back message by message and consumes exactly the bytes written |
| Stream.Pipe.ReadExact | src/bench/protocol.rs:25 | gives exactly the next n bytes, or drains a stream that ends before them |
| Stream.Pipe.WriteHandshake | src/bench/protocol.rs:17-21 | appends the encoding of the handshake, field by field |
| Stream.Pipe.ReadHandshake | src/bench/protocol.rs:23-40 | succeeds, fails as malformed or hits the end exactly as decoding the stream does |
| Stream.Pipe.WriteRequest | src/bench/protocol.rs:62-69 | appends the encoding of the request |
| Stream.Pipe.ReadRequest | src/bench/protocol.rs:71-79 | returns what the stream decodes to and leaves what follows |
| Stream.Pipe.WriteResponse | src/bench/protocol.rs:109-117 | appends the encoding of the response, its text cut to the 16-bit length |
| Stream.Pipe.ReadResponse | src/bench/protocol.rs:119-127 | returns what the stream decodes to and leaves what follows |
| Stream.Pipe.WriteReport | src/bench/protocol.rs:145-157 | appends the encoding of the report |
| Stream.Pipe.ReadReport | src/bench/protocol.rs:159-172 | returns what the stream decodes to and leaves what follows |
| Stream.ExchangeResponseAndReport | src/bench/protocol.rs:109-172 | a response with an oversized error and the report after it are read back in step: the error as its first 65535 bytes, the report unchanged, nothing left over |
| Datagrams.EncodeUdpHeader | src/bench/protocol.rs:178-181 | overwrites the first 16 bytes with number and time and leaves the rest of the buffer alone |
| Datagrams.HeaderRoundTrip | src/bench/protocol.rs:178-190 | the header decodes to the number and time written, whatever the payload |
| Datagrams.HeaderInverse | src/bench/protocol.rs:183-190 | exactly the datagrams of 16 bytes or more have a header, and they start with the encoding of what it decodes to |
| Plans.BuildPlans | src/bench/client.rs:231-273 | the plans are exactly those asked for, without extras: TCP first, then for the i-th bandwidth its upload and download side by side; empty only if no UDP bandwidth and no TCP was asked for |
| Plans.WantedKinds | src/bench/client.rs:232-235 | which plans are asked for, kind by kind, mode by mode and direction by direction |
| Plans.AllPlans | src/bench/client.rs:237-272 | the six plans of all modes and directions over two bandwidths, in order |
| Session.StepKeepsInv | src/bench/client.rs:107-191 | each step of the client, the server, the delivery, a loss, a repetition or a stranger keeps: both channels carry exactly the unread messages of the script, both parties agree on the round, outcomes and data in flight match |
| Session.RunKeepsInv | src/bench/server.rs:62-82 | the invariant holds in every state of every interleaving |
| Session.RunIsSafe | src/bench/client.rs:117-188 | in every run each side has read exactly a prefix of what the other wrote, no test is rejected, neither the `unreachable!` nor the unknown-kind branch is entered, and outcome i holds plan i, the client's report i and the server's report i |
| Session.ClientWrites | src/bench/client.rs:118-190 | message by message what the client writes in every run: hello, then for plan k a request with its kind and bandwidth, the 32-bit duration and the 32-bit datagram or chunk size, and its report for k, at last the closing request |
| Session.ServerWrites | src/bench/server.rs:62-215 | what the server writes: hello, then for each round status 0 with that round's port and no text, and its report |
| Session.StuckStates | src/bench/server.rs:62-271 | in a reachable state nothing but a stranger can step if and only if both parties are done, or the server waits for a first datagram, the client for the report, and nothing is on its way |
| Losses.LostCounts | src/bench/server.rs:184-194 | while the server waits, the datagrams lost in the round, those travelling and those not yet sent add up to all that the client sends and the network repeats |
| Losses.StarvedExactly | src/bench/server.rs:194 | the waiting states are those whose schedule lost everything the client sends in the round, with all copies |
| Losses.StuckExactly | src/bench/server.rs:100-271 | a run can go no further, strangers aside, if and only if both parties are done, or its schedule lost every datagram and copy of a UDP round and the client waits for the report |
| Losses.LostForGood | src/bench/server.rs:194 | once a round has lost all its datagrams and copies no continuation without a stranger's datagram leaves it |
| Losses.CompletesExactly | src/bench/server.rs:184-271 | a run that can go no further has completed the session if and only if each time a round had lost everything, a stranger's datagram came after that; losing any smaller number is harmless |
| Losses.EveryUdpTestCanStarve | src/bench/server.rs:187-232 | for every UDP test of any plan list, upload or download, some schedule completes the tests before it and loses all its datagrams |
| Session.FinishedSession | src/bench/client.rs:183-202 | after CLOSE every plan has its outcome in order, the server holds every client report, all that was written was read and both channels are empty |
| Session.StepShrinks | src/bench/client.rs:107-191 | every step lowers a lexicographic measure of program steps, datagrams and bytes in flight |
| Session.EveryRunEnds | src/bench/server.rs:62-82 | no schedule, however chosen, goes on for ever |
| Trace.ShareIsGeometric | src/bench/stats.rs:61 | in the closed form of the jitter a difference weighs 1/16 times 15/16 to the power of its age |
| Trace.JitterStep | src/bench/stats.rs:57-63 | the closed form, the sum of the differences so weighted, obeys the running estimate of section 6.4.1 of RFC 3550 |
| Trace.JitterBounds | src/bench/stats.rs:57-63 | the closed form lies between 0 and the largest difference |
| Trace.FirstIsOnePerSeq | src/bench/stats.rs:31-36 | there is exactly one first arrival for every number that arrived |
| Trace.LeastSinceZeroAppend | src/bench/stats.rs:48-51 | the running update of the minimum tracks the least latency since the last zero |
| Stats.UdpStats.constructor | src/bench/stats.rs:9-28 | an empty accumulator describes the empty trace |
| Stats.UdpStats.NoteOrder | src/bench/stats.rs:38-45 | the highest number is kept and a lower one counts as out of order |
| Stats.UdpStats.NoteLatency | src/bench/stats.rs:47-55 | minimum with its zero sentinel, maximum and saturating sum |
| Stats.UdpStats.NoteTransit | src/bench/stats.rs:57-63 | jitter moves a sixteenth of the way to the new transit difference, except for the first arrival |
| Stats.UdpStats.Record | src/bench/stats.rs:30-64 | after any arrivals the fields are what the trace amounts to: distinct numbers, repetitions, bytes of first arrivals, highest number, arrivals that are no left-to-right maximum, jitter, latency figures |
| Stats.UdpStats.IntoReport | src/bench/stats.rs:66-79 | the report is the truncated and saturated image of those figures |
| Stats.RepetitionCounts | src/bench/stats.rs:31-34 | a repetition changes only the repetition count |
| Stats.NewArrival | src/bench/stats.rs:35-63 | the running updates for a new number give the tally of the longer trace |
| Stats.EveryTraceHasATally | src/bench/stats.rs:30-64 | every list of arrivals has figures that describe it |
| Stats.ReportIsDetermined | src/bench/stats.rs:66-79 | and, but for the duration, only one report |
| Reception.ReportedFigures | src/bench/stats.rs:66-79 | what each field of a report is for the arrivals behind it, the jitter truncated and the sums wrapped or saturated |
| Reception.FiveDatagrams | src/bench/stats.rs:30-79 | five datagrams, one out of order and two repeated, and the ten numbers of their report |
| Reception.LatencyIs | src/bench/stats.rs:47-48 | latency is receipt minus sending, or 0 where the clocks contradict |
| Reception.GapIs | src/bench/stats.rs:57-61 | a transit difference is by how much the second datagram took longer or shorter than the first |
| Reception.Counted | src/bench/stats.rs:30-45 | packets is the number of distinct numbers, packets plus repetitions the number of datagrams, and out-of-order is packets minus the left-to-right maxima of the first arrivals |
| Reception.InOrderExactly | src/bench/stats.rs:38-45 | no arrival is reported out of order if and only if the first arrivals are strictly increasing |
| Reception.OrderDoesNotMatter | src/bench/stats.rs:30-45 | reordering the arrivals changes neither packets nor repetitions nor the highest number |
| Reception.OrderDoesNotMatterForTotals | src/bench/stats.rs:35-55 | nor bytes, highest latency and latency sum, when length and latency are determined by the number |
| Reception.AverageWithinMax | src/bench/client.rs:502-506 | the printed average latency never exceeds the reported maximum, even where the sum saturates |
| Reception.MinimumSinceLastZero | src/bench/stats.rs:48-51 | the reported minimum is the least latency after the last zero one, or 0 if that one is last |
| Reception.ForgottenZero | src/bench/stats.rs:49 | after latencies 0 and 5 the accumulator reports a minimum of 5, which is not the least |
| Reception.MinimumIsTrueExactly | src/bench/stats.rs:48-51 | it is the true minimum if and only if no latency was zero or the last one was |
| Reception.MinimumWithinAverage | src/bench/stats.rs:47-55 | with positive latencies whose sum fits, minimum times packets is at most the sum |
| Reception.JitterIgnoresClockOffset | src/bench/stats.rs:57-63 | adding one constant to every send time leaves the reported jitter unchanged, wrap-around included |
| Reception.JitterWithinGaps | src/bench/stats.rs:57-63 | the reported jitter is at most the largest transit difference |
| Pacers.NearInverse | src/bench/pacer.rs:24-50 | up to the wake time of packet n at most n packets are due, and past it at least n |
| Pacers.NeverOversleeps | src/bench/pacer.rs:38-50 | whenever more than n packets are due the wake time of packet n has passed: sleeping delays no sendable packet |
| Pacers.SendableExactly | src/bench/pacer.rs:24-35 | packet n may be sent if and only if n + 1 times its bits, in nanoseconds, fit the time passed times the rate |
| Pacers.NotSendableAtWake | src/bench/pacer.rs:37-50 | at the wake time of packet n it may not be sent yet |
| Pacers.WokenEarly | src/bench/pacer.rs:80-84 | 1000-byte packets at 1 Mbit/s: packet 5 is woken for at 40 ms and may be sent at 48 ms, not a nanosecond earlier |
| Pacers.DueMonotone | src/bench/pacer.rs:24-35 | the due count never falls as time passes |
| Pacers.DueAtTheEdges | src/bench/pacer.rs:24-35 | without a rate or a size everything is due, and with them nothing before the start |
| Pacers.Clamped | src/bench/pacer.rs:34-45 | counts and wake times past 64 bits are clamped to their maximum |
| Pacers.WakeMonotone | src/bench/pacer.rs:38-45 | later packets wake no earlier |
| Pacers.DueWithinAllowance | src/bench/pacer.rs:24-35 | before a deadline no more is due than the rate allows for the whole duration |
| Pacers.AllowanceIsFloor | src/bench/pacer.rs:33 | that room is the floor of duration times rate over the bits of a packet |
| Sender.SendNumbered | src/bench/client.rs:358-367 | one attempt: the buffer gets number and send time and keeps its payload, and on success exactly that buffer is appended to what was sent |
| Sender.SendDue | src/bench/client.rs:353-367 | sends consecutive numbers up to exactly the due count unless the deadline is seen or an attempt fails first, with two clock readings and one attempt for each packet; each datagram carries the second reading less the session start, and the first was before the deadline |
| Sender.SendRound | src/bench/server.rs:241-259 | one round, its sleep included, takes the loop from its specified state after n rounds to that after n + 1, or ends it for one of the three reasons |
| Sender.SendPaced | src/bench/server.rs:241-259 | the loop stands where the specification puts it after some number of full rounds, all begun before the deadline, and part of the next; every datagram is stamped with the time of its tick; unbroken numbering, exact byte count, at most the larger of its start and the rate's allowance |
| Sender.SentTicksAscend | src/bench/client.rs:354-366 | packets are stamped one after the other |
| Sender.SendTimesNeverFall | src/bench/client.rs:358-359 | the time in a datagram is the reading at its tick less the session start, and these times never fall |
| Sender.AskedIsSent | src/bench/client.rs:353-367 | in the specification every due count a full round took is sent |
| Sender.SenderKeepsPace | src/bench/client.rs:346-369 | so a sender has sent all that was due at every full round, and without a failed attempt only the deadline ends it |
| Sender.Clock.SleepUntil | src/bench/pacer.rs:45-49 | reads the clock once and goes on at the first tick that shows the target, at once where it has passed |
| Sender.NeverAhead | src/bench/client.rs:346-369 | after every round, at every instant: no more has been sent than is due then, or than the hello |
| Sender.SleepDelaysNothing | src/bench/client.rs:368 | at no instant a sleep skips is there a packet to send |
| Sender.WokenInTime | src/bench/pacer.rs:45-49 | a round with a sleep ends no earlier than the wake time |
| Sender.ToppedUpExactly | src/bench/client.rs:353-368 | past the wake time all that was sent is due, and the next round brings it to exactly the due count |
| Sender.SendHello | src/bench/client.rs:335-342 | one attempt with a hello numbered 0 at time 0, the session start read before it and the pacer's start after it |
| Sender.RunUdpUp | src/bench/client.rs:325-378 | an upload sends a hello at time 0 and numbers 1 to packets-1 stamped with their send times, reports packets, highest number, bytes and elapsed time, and keeps the specified pace, for any nondecreasing clock and any send failures; at most the larger of 1 and the allowance; no report if and only if the hello fails |
| Sender.RunUdpDown | src/bench/server.rs:234-268 | the same for a download, which has no hello and stays within the allowance itself |
| Receiver.ProcessPacket | src/bench/server.rs:274-279 | a datagram with a full header is one arrival, a shorter one is none |
| Receiver.RunUdpUpServer | src/bench/server.rs:189-212 | the server's report describes exactly the peer's datagrams, hello included and strangers left out; there is none if and only if a receive failed |
| Receiver.RunUdpDownClient | src/bench/client.rs:391-420 | the client's report describes exactly the datagrams before the first receive error |
| Receiver.ArrivalsAreAccepted | src/bench/server.rs:200-209 | the arrivals are, in order, the peer's datagrams with a full header: number and send time from their first 16 bytes, the time of their receipt, the bytes the buffer had room for |
| Receiver.ArrivalsAreCopies | src/bench/server.rs:189-209 | over a network that never forges, every arrival has the number and send time of a datagram sent, and the length of what its buffer had room for |
| Receiver.Conservation | src/bench/client.rs:496-501 | the receiver counts no more and no higher than the sender; what it lacks is exactly the numbers that never arrived, so the subtraction in the loss figure never saturates and the figure is 100 times their number over the number sent |
| Receiver.MissingExactly | src/bench/client.rs:496-501 | a number is missing if and only if it was sent and no arrival has it |
| Receiver.BytesConserved | src/bench/client.rs:371-377 | unless the counter wraps, both byte counts are packets times size, and the receiver's is no larger |
| Receiver.EndToEnd | src/bench/client.rs:335-421 | the same for the reports of the actual loops over a network that drops, repeats and reorders: the printed loss is exactly the share of the numbers sent that never arrived |
| Receiver.StoppedIsNotForged | src/bench/client.rs:403-406 | it applies to a reception that ends at an error as well |
| Bench.BenchmarkIsRunnable | src/bench/client.rs:91-94 | a session over the actual formats with plans taken from the options satisfies what the session theorems assume |
| DataPlane.MoveKeepsPlanes | src/bench/client.rs:107-191 | every step of the session and every datagram sent or heard keeps: each round's datagrams are numbered without a gap, nothing heard is forged, an upload has sent what the client's position says, and each report written is what its loop made of the round |
| DataPlane.PlayKeepsPlanes | src/bench/server.rs:62-82 | so it is in every state of every run |
| DataPlane.OneSize | src/bench/client.rs:121-125 | a datagram size below 2^32 is the size on both sides, at least 16, and the receiver's buffer is 64 bytes larger |
| DataPlane.RoundIsMeasured | src/bench/client.rs:183-187 | in a completed session both reports of every outcome describe the same round: the sender's what it sent, the receiver's copies of that |
| Bench.PrintedLossIsExact | src/bench/client.rs:466-501 | in a completed benchmark the loss printed for every UDP plan equals the share of the numbers sent in that round that never arrived, and the sender of an upload reports as many packets as the client sent |
| Bench.RelayedArrivals | src/transport.rs:90-103 | through a relay with any IP source or a domain of up to 249 bytes a test counts exactly the arrivals it would count directly |
| Ordering.RankByCount | src/press.rs:230-231 | the sorted sample of rank k is at most x if and only if more than k samples are |
| Ordering.SortedIsUnique | src/press.rs:230-231 | sorting depends on the samples and not on the order they were pushed in |
| Ordering.SumAnyOrder | src/press.rs:74 | a sum does not depend on the order of its samples |
| Ordering.RankDominance | src/press.rs:230-231 | more samples below every threshold means smaller at every rank |
| Percentiles.PercentileRank | src/press.rs:88-95 | a percentile is a sample; more than its share of the way is at or below it, and below anything smaller there is no more than that share |
| Percentiles.PercentileEdges | src/press.rs:88-95 | without samples a percentile is 0, and past either end it is the sample there |
| Percentiles.SummaryMeans | src/press.rs:69-85 | for samples in any order, the summary of the sorted ones holds their least, their greatest, their sum over their number, their 50th, 90th, 95th and 99th percentiles and their number; zeros for none |
| Percentiles.SummaryDominance | src/press.rs:69-85 | samples smaller rank by rank give a summary smaller in every figure |
| Percentiles.SummaryIsOrdered | src/press.rs:69-85 | min, p50, p90, p95, p99 and max ascend, and the average lies between min and max |
| Press.StepKeepsInv | src/press.rs:182-212 | every atomic step of any task keeps permits conserved, counters and vectors equal to the tasks past their pushes, samples equal as multisets, errors real and capped |
| Press.EveryState | src/press.rs:160-214 | in every reachable state permits plus running tasks is the concurrency, successes are at most the totals, which are at most the first-byte samples, and errors at most the smaller of 50 and the failures |
| Press.StepsAreNumbered | src/press.rs:170-218 | every run has exactly as many steps behind it as its tasks have fewer to go, so runs are bounded |
| Press.StuckExactly | src/press.rs:183-218 | no task can step if and only if all are done or the concurrency is 0 |
| Press.CompletedRun | src/press.rs:216-243 | successes and failures add up to the requests, both vectors hold one sample per success, exactly those of the requests, and the error list has the smaller of 50 and the failures |
| Press.NothingIsTakenBack | src/press.rs:200-209 | samples, counts and error messages only grow, in the order they were pushed |
| Press.SamplesGrow | src/press.rs:196-209 | a successful request contributes its two times in milliseconds, a failed one its message |
| Press.SummariesMean | src/press.rs:228-243 | the two reported summaries are those of the times of the successful requests, whatever the schedule |
| Press.ScheduleDoesNotMatter | src/press.rs:170-243 | for fixed outcomes all completed runs report the same counts and the same two summaries |
| Press.TtfbBelowTotal | src/press.rs:196-239 | after any schedule and two separate sorts the k-th first-byte sample is at most the k-th total, and so is every reported figure |
| Dns.SkipIsParse | src/dns.rs:178-200 | skipping a name succeeds if and only if there is one to parse, and stops where it ends |
| Dns.NameIsParsed | src/dns.rs:178-200 | a name ended by the root or a pointer is parsed back wherever it stands |
| Dns.ParsedNameIsThere | src/dns.rs:178-200 | a parsed name is well formed and its encoding is what stands in the buffer |
| Dns.SkipNameLoop | src/dns.rs:178-200 | the cursor loop ends on any bytes, within bounds, with the position or the error of the specification |
| Dns.DecodeAResponseLoop | src/dns.rs:110-176 | so does the decoder's, with the same address or the same error |
| Dns.SerializedResponseDecodes | src/dns.rs:110-176 | a serialized message with matching id, no error code, any questions and at least one answer decodes to the RDATA of the first A record of length 4, or to "no A record" |
| Dns.DecodesExactly | src/dns.rs:110-176 | over all bytes: an address is returned if and only if they carry it in their first A record, behind a matching id, no error code, the announced questions and records that are not of type A |
| Dns.RefusedHeaders | src/dns.rs:111-135 | what is refused on the header alone, byte by byte and in order: length, id, error code, no answers |
| Dns.SampleDecodes | src/dns.rs:110-176 | a response with an alias before the address, in bytes, and another id |
| Dns.ReservedLabelIsAccepted | src/dns.rs:189-198 | a label of 64 to 191 bytes in a question does not keep the answer behind it from being decoded |
| DnsQuery.SplitJoin | src/dns.rs:91 | the parts of a hostname contain no dot and joined by dots give it back |
| DnsQuery.EncodeQuery | src/dns.rs:81-108 | the query is the specified one and asks for type 1, class 1; it is refused if and only if a label exceeds 63 bytes |
| DnsQuery.QueryFields | src/dns.rs:84-106 | every query has the id, flags 0x0100, one question, no records, and ends in type 1, class 1 |
| DnsQuery.SampleQuery | src/dns.rs:81-108 | the 22 bytes of the query for "a..bc." |
| DnsQuery.QueryRoundTrip | src/dns.rs:81-108 | parsing the emitted name gives exactly the nonempty labels, it ends four bytes before the end, and the query is at most 18 bytes longer than the hostname |
| DnsQuery.AnsweredQueryDecodes | src/dns.rs:81-176 | a query turned into a one-answer response decodes to that answer |
| Socks.EncodeSocks5UdpHeader | src/udp_socket.rs:135-162 | pushes the header of section 7 of RFC 1928, cutting a domain to its declared length |
| Socks.HeaderBytes | src/udp_socket.rs:135-162 | the header in figures: address types 1, 4 and 3 behind three zeros, the port high byte first |
| Socks.DecodeHeader | src/udp_socket.rs:166-243 | a header decodes to its address, a domain cut to its declared length, and to its own length, whatever payload follows |
| Socks.AcceptedExactly | src/udp_socket.rs:166-243 | which datagrams have a header, by length, fragment byte and address type, and how the others are refused |
| Socks.ReservedIsIgnored | src/udp_socket.rs:174-175 | the two reserved bytes make no difference |
| Socks.EncodeDecoded | src/udp_socket.rs:166-243 | any accepted datagram with zero reserved bytes starts with the encoding of what it decodes to |
| Socks.PrefixFree | src/udp_socket.rs:135-162 | no header is the beginning of another |
| Socks.HeaderLength | src/udp_socket.rs:135-162 | a header fits 256 bytes if and only if its host is an IP address or a domain of at most 249 bytes |
| Socks.Send | src/transport.rs:71-86 | one datagram goes out: the payload itself, or behind the target's header |
| Socks.Recv | src/transport.rs:90-103 | one datagram is taken; its view lands at the front of the buffer and the rest of the buffer is untouched, also on every error |
| Socks.RelayIsTransparentExactly | src/transport.rs:90-103 | a framed datagram looks as if it had come directly if and only if the header fits 256 bytes, or header and payload fit buffer plus 256 |
| Socks.CommonSourcesAreTransparent | src/transport.rs:90-103 | in particular for every IP source and every domain of up to 249 bytes |
| Socks.CutHeader | src/udp_socket.rs:166-243 | a datagram cut inside its header is refused, never misread |
| Socks.LongDomainCutsPayload | src/transport.rs:94-100 | from a domain of 250 bytes or more a payload that fills the buffer loses the excess |
| Socks.RelayedPayloadArrives | src/transport.rs:71-103 | for every target and source: what is sent carries the target and the payload, and framed again with the source it arrives whole if and only if that header fits 256 bytes, or header and payload fit buffer plus 256 |
| Socks.TrySend | src/udp_socket.rs:54-60 | one datagram goes out: the target's header and the contents |
| Socks.PollRecv | src/udp_socket.rs:62-103 | a payload goes to the front of the first buffer and its length, as length and stride, with the remote address into the first metadata entry, even where the buffer has no room; an empty one yields 0 packets; errors leave buffer and metadata alone |
| Socks.PolledPayloadArrives | src/udp_socket.rs:62-103 | the QUIC endpoint gets a framed packet as if it had come bare if and only if the header and what its buffer has room for fit 65535 bytes |

## Left out

- Sockets, interface binding, TLS, QUIC, the HTTP clients and the HTTP test server: I/O over libraries that are not modelled; press takes from them only that the first byte comes no later than the end (`Press.Plausible`).
- SOCKS5 TCP handshake and UDP ASSOCIATE, and the address types of the shadowquic library: not part of this model; an address is assumed to hold the bytes its type declares (`Socks.Encodable`).
- CLI and URL parsing, printing, unit formatting, plan labels, `parse_bandwidth`: presentation or text parsing.
- IEEE rounding: jitter, milliseconds and percentile positions are exact reals. For magnitudes where `f64` loses integers the reported jitter may differ from the model.
- Debug builds: counters that overflow panic there; the wrapping release arithmetic is modelled.
- Error text of a response: modelled as bytes, so the replacement of invalid UTF-8 on reading is not.
- Session: failures of the control connection and of a data phase end the program's session with an error and have no step here; `Stream` models the end of the stream. Port binding, shutdown and logging are left out.
- TCP data phases: one connection that the server must accept; the bytes moved and the chunk sizes are free choices of the environment, as are the reports.
- Sender.SendPaced: factored out of the two loops of client and server, which are the same text, and split into SendRound and SendDue. A sleep ends at the first tick that shows its target; that the clock never goes back and shows every time at last are preconditions (`Clock.Monotone`, `Clock.GoesOn`), and a start time can be added to.
- DataPlane.RoundIsMeasured: a report of a run is fixed in advance (`World`) and its run has the step that writes it only where it is the report of the round; `Stats.EveryTraceHasATally` says that there always is one. The session counts the datagrams that travel before the server's first and does not say which they are, and a round whose wait a stranger ends is in Session and not here, since the server then takes the stranger for its peer.
- Sender.RunUdpDown: starts when the server knows its peer; the receipt of the hello is a step of Session.
- Receiver.RunUdpUpServer: the time of each receipt and the moment the deadline cuts the events off are inputs.
- Stats.UdpStats.Record: its branches are split over RecordNew, NoteOrder, NoteLatency and NoteTransit; in the source they are one body.
- Pacers.NearInverse: stated where the 128-bit product does not wrap and the result is not clamped to 64 bits.
- Reception.Counted: stated for fewer than 2^64 datagrams, beyond which the counters wrap; Stats.UdpStats.Record covers that case too.
- Ordering.SortOf: the in-place `sort_by` is modelled by the ascending arrangement it produces, on values.
- Press: wall-clock duration and requests per second, panicking tasks and the fairness of the semaphore; any waiting task may take a free permit.
- Dns: `resolve_a` with its 255-byte limit, timeout and random id; the message texts of errors are constructors.
- Socks.Recv: waiting for a datagram is the precondition that one is there; operating system errors are not modelled. So for Socks.PollRecv, whose `Pending` result and further buffers are left out, as are the two constant metadata fields.
