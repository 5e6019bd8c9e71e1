# SJRC F11 drone toolkit — a Dafny model

This project models the sequential logic of a small toolkit for reverse-engineering and driving a Wi-Fi toy drone. It has four pieces:

- **Packet capture and pattern analysis** (`reverse_engineering_tool.py`), in modules `Capture` and `Counting`.
  - Every captured datagram becomes a record. The record holds the sender, the length, a lowercase hex view and a printable-ASCII view.
  - The captured log is summarised three ways: a size histogram, per-source counts, and the five most frequent 4-byte hex prefixes.
- **Command-structure analysis** (`DroneProtocolAnalyzer`), in module `Analyzer`.
  - Hex samples are recorded under eleven fixed command labels.
  - For each label with at least two samples, every byte offset up to the shortest sample is classified. An offset is *fixed* when exactly one two-character slice was seen there, and *variable* otherwise.
- **The simulated drone** (`mock_drone.py`), in module `Simulator`.
  - It is a UDP server that keeps a six-field status record.
  - It answers the `HELLO` handshake with `OK`.
  - It implements `takeoff`, `land`, `emergency_stop` and `get_status`, and acknowledges anything else.
- **The client controller** (`drone_control.py`, and its copy in `routes/routes/drone_control.py`), in modules `DroneControl` and `RoutesDroneControl`.
  - A `connected` flag is set by a handshake.
  - Commands are sent only while connected.
  - The routes copy adds a status query and a `/status` route that falls back to its own record.

Module `Protocol` holds the shared values:
- decoded JSON documents (`Json`);
- the status record;
- the datagrams on the wire;
- the abstract outcome of one socket exchange (`Exchange<T>`: the reply received, or the exception raised).

Module `Scenarios` connects the client to the simulator. It shows three things:
- what the client sends is read back by the simulator under the same command name;
- the handshake succeeds;
- a connect → takeoff → status session through the routes copy returns HTTP 200 with the flying status.

The model is built as follows:
- Python dicts used as counters become insertion-ordered association lists `seq<(K, nat)>`. `Tally` is the reference.
  - The count of `k` equals `multiset(ks)[k]`.
  - The counts sum to the input length.
  - The keys are distinct and are exactly the inputs.
- The top-five selection is a stable sort by descending count, then a prefix, as Python's `sorted(..., reverse=True)[:5]` does.
- The classes keep the source's fields, and their methods state their whole new state. The one exception is the client's `drone_port`: nothing ever writes it, so it is the module constant `DronePort`. Each loop is proved against a specification function, and the lemmas about that function state what the source promises.

Where the code behaves oddly, the model follows the code:
- **`analyze_command_structure`, odd shortest length.** With an odd shortest sample length, the last step skips only the samples of exactly that length. When every sample has that length, the offset gets an empty set and is reported as variable (`OddLengthExample`). Longer samples still contribute their slice there, which reaches past the shortest sample (`MixedLengthExample`).
- **`connect`, empty handshake reply.** An empty reply falls through the `try` and returns `None`, and the flag keeps its previous value.
- **`handle_command`, status before send.** The status is changed before the reply is sent. So a command that arrives while the server socket is not open still changes the status.
- **`/status` in the routes copy.** The route nests the simulator's whole decoded reply, `success` flag included, under `"status"` (`ConnectTakeoffAndQuery`).

## Model

| member | source | states |
|---|---|---|
| Protocol.StatusToJson | mock_drone.py:11-18 | the wire form of the status has exactly the six keys battery, altitude, speed, gps_signal, armed, flying |
| Protocol.CloseIfPresent | drone_control.py:49-50 | after closing, the socket is never open, and it was absent afterwards exactly when it was absent before |
| Protocol.CloseIfPresentIdempotent | drone_control.py:47-51 | closing twice is the same as closing once |
| Counting.Get | reverse_engineering_tool.py:106 | defines `d.get(k, 0)`: the count recorded for k, or 0 |
| Counting.Bump | reverse_engineering_tool.py:106 | defines one counter update: an existing entry is incremented in place, or a new entry with count 1 is appended |
| Counting.Tally | reverse_engineering_tool.py:103-106 | defines the counter that the loop builds by bumping every key in order |
| Counting.BumpGet | reverse_engineering_tool.py:106 | `d.get(k, 0) + 1` raises the count of k by one and leaves every other count alone |
| Counting.BumpTotal | reverse_engineering_tool.py:106 | one increment raises the sum of the counts by exactly one |
| Counting.BumpKeyOrder | reverse_engineering_tool.py:106 | an existing key keeps its place; a new key is appended at the end |
| Counting.BumpKeys | reverse_engineering_tool.py:106 | distinct keys stay distinct, with existing keys in place and a new key appended |
| Counting.TallyCounts | reverse_engineering_tool.py:103-106 | the counter built by the loop gives every key its number of occurrences in the input |
| Counting.OccurrencesAsPositions | reverse_engineering_tool.py:103-106 | the occurrence count is the number of positions holding the key |
| Counting.TallyTotal | reverse_engineering_tool.py:103-106 | the counts sum to the number of inputs |
| Counting.TallyKeys | reverse_engineering_tool.py:103-106 | the keys are distinct and are exactly the values counted |
| Counting.SortByCount | reverse_engineering_tool.py:131 | defines the stable sort of the counter's items by descending count |
| Counting.TopByCount | reverse_engineering_tool.py:131 | defines `[:n]` of the sorted items |
| Counting.InsertByCountMultiset | reverse_engineering_tool.py:131 | inserting into the sorted list adds exactly that entry |
| Counting.InsertByCountSorted | reverse_engineering_tool.py:131 | inserting keeps the list in non-increasing count order |
| Counting.SortByCountProperties | reverse_engineering_tool.py:131 | the descending sort is a permutation of the counter and is in non-increasing count order |
| Counting.SortByCountLength | reverse_engineering_tool.py:131 | the sort keeps the number of entries |
| Counting.TopByCountSize | reverse_engineering_tool.py:131 | `[:n]` of the sorted items has min(n, number of keys) entries, all from the counter |
| Counting.TopByCountSorted | reverse_engineering_tool.py:131 | the kept entries are in non-increasing count order |
| Counting.TopByCountSplit | reverse_engineering_tool.py:131 | kept and dropped entries together are exactly the counter's entries |
| Counting.TopByCountDominates | reverse_engineering_tool.py:131 | no dropped entry has a larger count than a kept one |
| Capture.ToAscii | reverse_engineering_tool.py:84-86 | same length as the data; position i is chr(b) for 32 <= b <= 126 and '.' otherwise, so every character is printable |
| Capture.HexDigit | reverse_engineering_tool.py:64 | a nibble becomes a lowercase hex digit |
| Capture.ToHex | reverse_engineering_tool.py:64 | `data.hex()` has two lowercase hex digits per byte |
| Capture.HexValue | reverse_engineering_tool.py:64 | decodes exactly the lowercase hex digits, inverting HexDigit |
| Capture.HexValueOfDigit | reverse_engineering_tool.py:64 | decoding the digit of a nibble gives the nibble back |
| Capture.HexRoundTrip | reverse_engineering_tool.py:64 | the hex view decodes back to the exact bytes |
| Capture.MakePacket | reverse_engineering_tool.py:60-66 | defines the record for one datagram: timestamp, source or "unknown", length, hex view and ASCII view |
| Capture.PacketFields | reverse_engineering_tool.py:60-66 | a record has data_length = len(data), 2·data_length lowercase hex characters that decode to the data, one ASCII character per byte, and source "unknown" without an address |
| Capture.Records | reverse_engineering_tool.py:57-73 | the capture loop records at most one packet per read |
| Capture.RecordsAt | reverse_engineering_tool.py:57-73 | the k-th record is built from the k-th read, and every read before it succeeded |
| Capture.RecordsUpToError | reverse_engineering_tool.py:57-73 | every read before the first socket error is recorded, and nothing after it |
| Capture.RecordsAll | reverse_engineering_tool.py:57-73 | without a socket error, every datagram read is recorded |
| Capture.PacketCapture.constructor | reverse_engineering_tool.py:36-39 | the interface is kept, the log is empty, and the capture is not running |
| Capture.PacketCapture.StartCapture | reverse_engineering_tool.py:41-77 | sets running; without raw-socket permission nothing is appended; otherwise the records of the reads up to the first socket error are appended to the log |
| Capture.PacketCapture.StopCapture | reverse_engineering_tool.py:79-82 | clears the running flag |
| Capture.PacketCapture.AnalyzePatterns | reverse_engineering_tool.py:94-132 | no report exactly for an empty log; otherwise the packet count, the size and source counters, and the top five prefixes of the prefix counter |
| Capture.Lengths | reverse_engineering_tool.py:104-105 | one length per record, in log order |
| Capture.Sources | reverse_engineering_tool.py:114-115 | one source per record, in log order |
| Capture.CountSizes | reverse_engineering_tool.py:103-106 | the size loop builds the counter of the record lengths |
| Capture.CountSources | reverse_engineering_tool.py:113-116 | the source loop builds the counter of the record sources |
| Capture.CountPrefixes | reverse_engineering_tool.py:124-129 | the prefix loop counts the first 8 hex characters of the records with at least 8 |
| Capture.Prefixes | reverse_engineering_tool.py:124-129 | defines the keys the prefix loop counts: the first 8 hex characters of each record with at least 8, in log order |
| Capture.PrefixesFrom | reverse_engineering_tool.py:126-129 | every counted prefix is the first 8 hex characters of some record at least that long |
| Capture.WithPrefixStep | reverse_engineering_tool.py:125-129 | one more record adds its position to a prefix's records exactly when it carries that prefix |
| Capture.PrefixesStep | reverse_engineering_tool.py:125-129 | one more record adds one occurrence of a prefix exactly when it carries that prefix |
| Capture.PrefixesCount | reverse_engineering_tool.py:124-129 | a prefix occurs as often as there are records of at least 8 hex characters beginning with it; shorter records never count |
| Capture.SizeHistogram | reverse_engineering_tool.py:103-106 | the size counts sum to the number of packets, and the keys are distinct and are exactly the lengths seen |
| Capture.SizeCount | reverse_engineering_tool.py:103-106 | each size count is the number of packets of that length |
| Capture.SourceHistogram | reverse_engineering_tool.py:113-116 | the source counts sum to the number of packets, and the keys are distinct and are exactly the sources seen |
| Capture.SourceCount | reverse_engineering_tool.py:113-116 | each source count is the number of packets from that source |
| Capture.PrefixCounts | reverse_engineering_tool.py:124-129 | prefix keys are distinct and come from records with at least 8 hex characters, and each count is the number of such records with that prefix |
| Capture.TopPrefixes | reverse_engineering_tool.py:131-132 | at most five prefixes (fewer only when there are fewer), all counted, in non-increasing count order; reported and omitted together are all the prefixes, and no omitted prefix is more frequent than a reported one |
| Analyzer.MinLength | reverse_engineering_tool.py:176 | the length of some sample, and no longer than any sample |
| Analyzer.Single | reverse_engineering_tool.py:184 | `list(byte_values)[0]` of a one-element set is its element |
| Analyzer.ValuesAt | reverse_engineering_tool.py:178-181 | defines the set of slices `sample[i:i+2]` over the samples with i + 1 < len(sample) |
| Analyzer.FixedUpTo | reverse_engineering_tool.py:173-184 | defines `fixed_bytes` after the first k offsets: an offset with exactly one slice value, paired with it |
| Analyzer.VariableUpTo | reverse_engineering_tool.py:174-186 | defines `variable_bytes` after the first k offsets: every other offset, paired with its slice set |
| Analyzer.Summarize | reverse_engineering_tool.py:169-191 | defines one label's report: raw with its one sample, or classified over the first (min_length + 1) / 2 offsets |
| Analyzer.Report | reverse_engineering_tool.py:164-191 | defines the report for the labels in order, skipping labels with no samples |
| Analyzer.SingleMember | reverse_engineering_tool.py:184 | the member of a singleton is the one Single picks |
| Analyzer.StepsCount | reverse_engineering_tool.py:177 | `range(0, n, 2)` stops after (n + 1) / 2 steps |
| Analyzer.ValuesAtSnoc | reverse_engineering_tool.py:179-181 | one more sample adds its slice at position i exactly when i + 1 < len(sample) |
| Analyzer.DroneProtocolAnalyzer.constructor | reverse_engineering_tool.py:137-150 | the eleven labels in order, each with no samples |
| Analyzer.DroneProtocolAnalyzer.AddCommandSample | reverse_engineering_tool.py:152-158 | a known label gets the sample appended at the end and every other label is unchanged; an unknown label changes nothing; the label set never changes |
| Analyzer.DroneProtocolAnalyzer.AnalyzeCommandStructure | reverse_engineering_tool.py:160-191 | the loop over the labels produces the report specification: labels with no samples skipped, one sample raw, several classified |
| Analyzer.CollectValues | reverse_engineering_tool.py:178-181 | the inner loop gathers exactly the two-character slices at position i of the samples long enough to hold one |
| Analyzer.CompareSamples | reverse_engineering_tool.py:171-186 | the fixed and variable lists are those of the first (min_length + 1) / 2 offsets |
| Analyzer.FixedIff | reverse_engineering_tool.py:178-184 | offset o is fixed with value v exactly when o is classified and the set of slices at 2·o is {v} |
| Analyzer.VariableIff | reverse_engineering_tool.py:178-186 | offset o is variable with set S exactly when o is classified, S is the set of slices at 2·o and S is not a singleton |
| Analyzer.OffsetPartition | reverse_engineering_tool.py:177-186 | the classified offsets are exactly those below the step count, each in exactly one of fixed or variable |
| Analyzer.FixedAscending | reverse_engineering_tool.py:177-184 | fixed offsets come in ascending order, all below the step count |
| Analyzer.VariableAscending | reverse_engineering_tool.py:177-186 | variable offsets come in ascending order, all below the step count |
| Analyzer.ThreeSamplesValues | reverse_engineering_tool.py:176-181 | for AABBCC, AABBDD, AABBEE: shortest length 6, and slices {AA}, {BB}, {CC, DD, EE} |
| Analyzer.ThreeSamplesFixed | reverse_engineering_tool.py:177-184 | that example's fixed bytes are 0→AA and 1→BB |
| Analyzer.ThreeSamplesVariable | reverse_engineering_tool.py:177-186 | that example's variable bytes are 2→{CC, DD, EE} |
| Analyzer.ThreeSamplesExample | reverse_engineering_tool.py:171-186 | the whole summary of that example |
| Analyzer.OddLengthExample | reverse_engineering_tool.py:176-186 | with shortest length 3, the last offset skips every sample and is variable with an empty set |
| Analyzer.MixedLengthExample | reverse_engineering_tool.py:176-186 | with samples of lengths 3 and 4, the last offset takes the longer sample's slice and is fixed |
| Analyzer.Commands | reverse_engineering_tool.py:164-168 | the commands of the report entries, one per entry, in order |
| Analyzer.Sampled | reverse_engineering_tool.py:164-166 | defines the labels that have samples, in label order |
| Analyzer.ReportOrder | reverse_engineering_tool.py:164-191 | the report's entries are for exactly the labels with samples, one each, in label order |
| Analyzer.ReportEntries | reverse_engineering_tool.py:164-191 | every reported entry belongs to a label with samples and summarises all of them; every label with samples is reported |
| Analyzer.SummarizeShape | reverse_engineering_tool.py:169-191 | an entry keeps its label and sample count, is raw exactly when there is one sample, and then shows that sample |
| Simulator.CommandName | mock_drone.py:52 | a command name exists exactly when "cmd" holds a string, and it is that string |
| Simulator.Apply | mock_drone.py:57-65 | defines the status after takeoff, land or emergency_stop, and no change for any other name |
| Simulator.CommandReply | mock_drone.py:55-69 | defines the reply: success with the status for get_status, otherwise only success |
| Simulator.Serve | mock_drone.py:29-35 | defines serving a run of reads in order: failed reads are skipped, and each datagram is handled and its reply, if any, is addressed to its sender |
| Simulator.Handle | mock_drone.py:43-73 | battery, speed and GPS never change; there is no reply exactly for undecodable data or JSON that is not an object, and then no change; HELLO gets OK and no change |
| Simulator.MockDrone.constructor | mock_drone.py:8-20 | the address is kept, the status is 100/0/0/5/not armed/not flying, there is no socket, and it is not running |
| Simulator.MockDrone.HandleCommand | mock_drone.py:43-73 | the status becomes the transition's result; the reply goes to the sender only when the socket is open |
| Simulator.MockDrone.Start | mock_drone.py:23-35 | running over an open socket; the status and the replies sent are those of serving the arrivals in order, skipping failed reads |
| Simulator.MockDrone.Stop | mock_drone.py:37-41 | not running, and the socket is closed if there was one |
| Simulator.InitialReachable | mock_drone.py:11-18 | the initial status satisfies the reachable-status invariant |
| Simulator.HandleKeepsReachable | mock_drone.py:43-73 | every datagram keeps the invariant: never armed, battery/speed/GPS fixed, altitude 0 or 10, flying only at 10 |
| Simulator.ServeKeepsReachable | mock_drone.py:29-32 | serving any arrivals keeps the invariant |
| Simulator.ServeResponses | mock_drone.py:29-32 | at most one reply per arrival, each addressed to a sender of a datagram |
| Simulator.ServeSkipsFailures | mock_drone.py:33-35 | a failed read changes neither the status nor the replies |
| Simulator.CommandEffects | mock_drone.py:57-65 | for any command object naming it, takeoff sets flying and altitude 10; land clears flying and sets altitude 0; emergency_stop clears flying and armed and keeps the altitude; nothing else changes |
| Simulator.OtherCommandsAcknowledged | mock_drone.py:55-69 | any other or missing command changes nothing and is answered with only success: true |
| Simulator.GetStatusReports | mock_drone.py:66-69 | any command object naming get_status is answered with success and the current status, and changes nothing |
| Simulator.StateCommandsAcknowledged | mock_drone.py:55-69 | takeoff, land and emergency_stop are answered with only success: true, whatever else the object holds |
| Simulator.TakeoffThenStatus | mock_drone.py:55-69 | after takeoff, get_status reports flying at altitude 10 |
| DroneControl.CommandMessage | drone_control.py:60-63 | the message has exactly the keys cmd and params; params is the given object, or {} when there is none |
| DroneControl.DroneController.constructor | drone_control.py:10-22 | not connected, no socket, no address, an all-zero/false status |
| DroneControl.DroneController.Connect | drone_control.py:24-45 | opens a socket to the address and sends HELLO; a non-empty reply connects (True), an exception disconnects (False), an empty reply returns None with the flag kept |
| DroneControl.DroneController.Disconnect | drone_control.py:47-51 | not connected from any state, and the socket is closed if present |
| DroneControl.DroneController.SendCommand | drone_control.py:53-73 | not connected: the error and no send; connected: the command message to the drone, then the reply text or the exception text, with nothing changed |
| DroneControl.StatusRoute | drone_control.py:97-103 | reports the flag and the construction-time all-zero status |
| RoutesDroneControl.DroneController.constructor | routes/routes/drone_control.py:10-22 | not connected, no socket, no address, an all-zero/false status |
| RoutesDroneControl.DroneController.Connect | routes/routes/drone_control.py:24-45 | non-empty reply connects, exception disconnects, empty reply keeps the flag and returns None |
| RoutesDroneControl.DroneController.Disconnect | routes/routes/drone_control.py:47-51 | not connected from any state, and the socket is closed if present |
| RoutesDroneControl.DroneController.SendCommand | routes/routes/drone_control.py:53-73 | the error without a send when not connected; otherwise the reply or the exception text, with nothing changed |
| RoutesDroneControl.DroneController.GetDroneStatus | routes/routes/drone_control.py:75-87 | the error without a send when not connected; otherwise the status request is sent and the decoded reply or the exception text comes back, with nothing changed |
| RoutesDroneControl.StatusRoute | routes/routes/drone_control.py:110-124 | on success, 200 with the device's document; otherwise 500 with the construction-time status and the error; a query is sent exactly when connected |
| RoutesDroneControl.StatusRequestShape | routes/routes/drone_control.py:81 | the status request has no params key, unlike a command message |
| Scenarios.CommandNameRoundTrip | drone_control.py:60-66 | the simulator reads a client message back under the command it was built with |
| Scenarios.ClientCommandHandled | mock_drone.py:51-69 | a client command message is acted on by name and always answered |
| Scenarios.MovementAcknowledged | drone_control.py:117-141 | move and rotate are acknowledged by the simulator and change nothing |
| Scenarios.StatusRequestAnswered | routes/routes/drone_control.py:81-85 | the status request is answered with the current status and changes nothing |
| Scenarios.HandshakeAckNonEmpty | drone_control.py:32-40 | the simulator answers HELLO with the non-empty OK, so a handshake with it connects |
| Scenarios.ConnectTakeoffAndQuery | routes/routes/drone_control.py:110-118 | connect, takeoff and /status against the simulator give True and 200, with the flying status nested under the simulator's reply |

## Left out

- Sockets, `sendto`/`recvfrom`, `settimeout` and the raw-socket capture are OS I/O. Every read or exchange is an input: `Exchange<T>` for the client, `Arrival` lists for the capturer and the simulator.
- JSON encoding and decoding are a foreign library. Datagrams arrive decoded (`Datagram`) and replies leave as `Json` values. JSON numbers other than integers are not modelled. Arrays are modelled, and an array command takes the same no-reply path as any other non-object.
- The receive buffer sizes (65535 for the capturer, 1024 for the client and the simulator) truncate long datagrams. Only the capturer's bound appears, as the `Buffer` type of what each read returned.
- `datetime.now()` is a clock. Its reading is an input field of each arrival.
- `save_packets`, the file reading and `main()` (argparse) are file and CLI I/O.
- The Flask plumbing (request parsing, `jsonify`), the routes other than `/status` and the `/move`/`/rotate` message shapes, and main.py are HTTP adapters. Only the `/status` selection logic is modelled.
- Threads, daemon threads and the `time.sleep` loops of the `__main__` blocks are concurrency and timing.
- All `print` output is left out, including the ascending-key print order of the size and source histograms. The analyses are returned as values; the counters keep first-occurrence order.
- Capture.PacketCapture.StartCapture: `PermissionError` on opening the raw socket is the `privileged` flag. A `stop_capture` from another thread during the loop is not interleaved: the loop ends at the first socket error or when the reads run out.
- Simulator.MockDrone.Start: serves a finite list of arrivals. A bind failure and a `stop` in the middle of serving are not modelled.
- DroneControl.DroneController.Connect: an exception while creating the socket, before the address is recorded, is not told apart from one during the exchange. Both are modelled after the socket is open and the address is set. The same holds for RoutesDroneControl.DroneController.Connect. As in the source, a previous socket is not closed on reconnect; it is simply replaced.
- Capture.TopPrefixes: the order among prefixes with equal counts is that of the stable sort (first occurrence first). The model's definition fixes that order, but no lemma states it.
