# Verified model of the IBM MQ exporter

The exporter turns IBM MQ status, statistics and publications into Prometheus metrics. This project models the parts
where its correctness is decided and proves what they promise.

**The PCF codec.** IBM's programmable command formats, written by `PCFInquiry` and read by four independent scanners:
the recursive statistics parser (`PcfParser`), the counted-group scan of the resource monitor (`PublicationScan`), the
visitor scan of the response parsers (`PcfInquiry`, `QueueStatus`) and the scan inside queue discovery
(`QueueDiscovery`). Each loop is proved equal to a recursive reference on every byte string. `PcfTree`,
`StreamRoundTrip`, `CommandRoundTrip`, `DiscoveryRoundTrip` and `StatusRoundTrip` prove round trips through them,
`WireLayout` says at which offset each field stands, `ParserAgreement` says exactly when two of them agree, and
`Truncation` says what a cut message still yields. `StatsFields` says which id feeds which statistic.

**The handle ledger.** `QueueManager` keeps the live handles; what its calls answer is an arbitrary script, so a
statement about every script is one about every behaviour. `MQClient.Client` and `ResourceMonitor.Monitor` are objects
whose records (`HandleLedger`) must balance with those handles after every call. `LedgerRuns` proves it over every
sequence of calls. The contracts also give each call's result and its MQ calls, with their handles, as functions of the
answers (`MQAnswers`), and a history of what was asked for; `AnswerRoundTrip` says what those functions are in terms of
the delivered bytes alone.

**The metric index.** Discovery builds a catalogue of classes, types and elements and a two-level index into it
(`MonitorCatalog`). The index is proved equal to a plain search, and `process_publications` is proved to output exactly
what such searches give. `MetadataRoundTrip` and `PublicationRoundTrip` fix both on publications laid out field by field
(`MessageLayout`): the catalogue that was published is discovered, and every published integer it knows becomes one
metric. `SubscriptionPlan`, with `PlanContents`, and `MetricName` cover the subscriptions and the metric names.

**The run.** `Collector.Exporter` drives all of this. Its runs are read by a small automaton over a log of connections,
set-ups and cycles (`CollectorRuns` spells out its language), with a stop possible wherever `running_` is loaded.

Objects of the source are classes, its in-out buffers and vectors are sequences passed through methods, and its loops
are loops with invariants. Pointers into `classes_` are positions.

## What the code does where its documentation says otherwise

- The README promises reconnection. `run_continuous` returns only with `running_` false, so the block at
  src/collector.cpp:134-144 is never reached and a lost connection is not re-made (`Collector.Exporter.KeepRunning`,
  `Collector.LostConnectionGoesOn`).
- `max_cycles` N gives N + 1 cycles, because the initial cycle is not counted (`Collector.Exporter.RunContinuous`).
- Opening the statistics or accounting queue while it is open overwrites the handle, which is then never closed
  (`LedgerRuns.Step`, `LedgerRuns.ReopeningLosesHandle`). The collector never does this.
- `stop()` after a run that ended by itself does nothing; the destructors do the clean-up (`Collector.Exporter.Stop`,
  `Collector.Exporter.Destroy`).
- An error response still yields an entry of defaults (`PcfInquiry.ErrorResponseYieldsDefault`).
- A structure too short for its type loses its id in the parser but not in the monitor
  (`ParserAgreement.ShortStructureLosesId`).
- The trim set `" \0"` holds only the blank, as the literal ends at its NUL (`Text.TrimsAgree`).
- A flat counter overwrites what earlier groups reported (`MqiStats.OverwrittenGroup`), and only six counters are taken
  over from groups at all (`MqiStats.GroupedBrowsesAreLost`).
- A class or type name with a slash can collide with another pair (`PublicationMetrics.KeysCollide`).
- A negative string-list width leaves the parser through `std::length_error` (`PcfParser.NegativeWidthThrows`).

## Model

| member | source | states |
|---|---|---|
| `Bytes.HoldsLe32` | src/pcf_parser.cpp:12-18 | a 32-bit integer written by `append_int32` reads back as itself wherever it lies in a buffer, and the layout goes on right behind it |
| `Bytes.HoldsLe64` | src/pcf_parser.cpp:20-24 | the same for 64-bit integers, negative ones included |
| `Text.TrimBlanksIsTrim` | src/resource_monitor.cpp:62-67 | trimming with the literal `" \0"` is the longest prefix not ending in a blank; NULs stay |
| `Text.TrimPaddingIsTrim` | src/pcf_inquiry.cpp:31-35 | the inquiry trim is the longest prefix ending in neither blank nor NUL |
| `Text.UpToNulIsPrefix` | src/pcf_parser.cpp:26-29 | `clean_string` first cuts at the first NUL, wherever that is |
| `Text.TrimsAgree` | src/pcf_parser.cpp:26-34 | parser and monitor cleaning agree on a value if and only if it has no NUL, and then the third trim agrees too |
| `PcfParser.ParseParameters` | src/pcf_parser.cpp:53-150 | total on every byte string: loop and recursion compute the recursive reference `Parse`, including the `std::length_error` a negative string-list width causes |
| `PcfParser.DecodeStructure` | src/pcf_parser.cpp:64-143 | the switch over one structure, every type with its own minimum length, equals the reference `Decode` |
| `PcfParser.ReadInts` | src/pcf_parser.cpp:95-114 | integer and 64-bit integer lists: the values that lie inside the structure, at most the announced count |
| `PcfParser.ReadStrings` | src/pcf_parser.cpp:115-130 | string lists: the cleaned fixed-width strings inside the structure; for a negative width the exception, unless the offset sum falls below zero |
| `PcfParser.ParseBounds` | src/pcf_parser.cpp:53-150 | on every byte string that parses: no more parameters than bytes, and groups nested at most len/16 deep |
| `PcfParser.ParseThrows` | src/pcf_parser.cpp:115-140 | on every byte string the parser leaves through `std::length_error` if and only if the scan, at any nesting depth, comes to a string list of negative width with something to read |
| `PcfParser.NegativeWidthThrows` | src/pcf_parser.cpp:115-130 | 24 bytes that do it |
| `PcfTree.TreeRoundTrip` | src/pcf_parser.cpp:53-150 | every well-formed parameter tree (all seven structure types, groups nested to any depth) laid out as documented parses to that tree, strings cleaned and 64-bit scalars narrowed |
| `PcfTree.DecodeEncoded` | src/pcf_parser.cpp:64-143 | one structure decodes to its meaning wherever it lies and whatever surrounds it |
| `Bytes.NarrowingIsExact` | src/pcf_parser.cpp:75-81 | a 64-bit value or sum survives the narrowing to 32 bits if and only if it is in the 32-bit range |
| `PcfTree.LengthsAligned` | src/pcf_inquiry.cpp:66-103 | every laid-out structure, nested ones included, is a multiple of 4 bytes long |
| `WireLayout.HeaderOffsets` | src/pcf_inquiry.cpp:66-103 | every structure has its literal type code at 0, its length at 4 and its id at 8 |
| `WireLayout.IntegerOffsets` | src/pcf_parser.cpp:75-81 | an integer stands at 12 of 16 bytes |
| `WireLayout.WideIntegerOffsets` | src/pcf_parser.cpp:75-81 | a 64-bit integer stands at 16 of 24 bytes |
| `WireLayout.StringOffsets` | src/pcf_inquiry.cpp:66-91 | a string has its length at 16, its bytes from 20 on and at most three bytes of padding |
| `WireLayout.IntListOffsets` | src/pcf_parser.cpp:95-114 | a list has its count at 12 and item k at 16 + 4k |
| `WireLayout.WideListOffsets` | src/pcf_parser.cpp:95-114 | a 64-bit list has its count at 12 and item k at 16 + 8k |
| `WireLayout.StringListOffsets` | src/pcf_parser.cpp:115-130 | a string list has its count at 16, the width at 20 and string k at 24 + width * k |
| `WireLayout.GroupOffsets` | src/pcf_parser.cpp:131-140 | a nested group has its count at 12 and its members from 16 to its end |
| `PublicationScan.ParsePcfParams` | src/resource_monitor.cpp:35-135 | on every buffer the nested loops return the grouping of a one-pass token scan with a members-due counter; flattened, the result is that scan again |
| `PublicationScan.ParseMembers` | src/resource_monitor.cpp:78-123 | the members of one group, stopping early where the next structure does not fit, continue the scan exactly where they end |
| `PublicationScan.FlattenGroupScan` | src/resource_monitor.cpp:35-135 | grouping the flat scan loses, repeats and reorders nothing, however the buffer ends |
| `PublicationScan.GroupFlatten` | src/resource_monitor.cpp:35-135 | the flat scan determines the grouped result: grouping undoes flattening |
| `PublicationScan.ScanBound` | src/resource_monitor.cpp:40-133 | at most len/16 parameters, members included |
| `StreamRoundTrip.StreamRoundTrip` | src/resource_monitor.cpp:35-135 | every stream of plain structures and counted groups comes back item by item, each group with exactly its members, whether or not StrucLength covers them |
| `MessageLayout.ParamsReadBack` | src/resource_monitor.cpp:431-437 | a message is read from behind its header, wherever that says it ends, else from byte 36 on, item by item |
| `ParserAgreement.ParsersAgree` | src/pcf_parser.cpp:53-150 | on a stream of structures of at least 16 bytes with 16-byte group headers: the parser returns if and only if no string list throws; then its integers are the monitor's, and the (type, id) sequences are equal if and only if no structure too short for its type carries an id |
| `ParserAgreement.ShortStructureLosesId` | src/pcf_parser.cpp:75-81 | 16 bytes on which the parser reports id 0 and the monitor id 5 |
| `Truncation.CutDecode` | src/pcf_parser.cpp:57-147 | a structure found before a cut is the one of the whole buffer; it decodes the same if and only if its StringLength does not straddle the cut, and else loses only its string |
| `Truncation.CutParse` | src/pcf_parser.cpp:57-147 | for every buffer and cut the parameters of the prefix are a prefix of those of the whole |
| `Truncation.CutLeaf` | src/resource_monitor.cpp:46-73 | one structure before a cut reads the same in the monitor, except for a string that leaves its structure |
| `Truncation.CutScan` | src/resource_monitor.cpp:40-133 | for every buffer, cut and group state the tokens of the prefix are a prefix of those of the whole, so a group cut short keeps the members before the cut |
| `Truncation.CutVisits` | src/pcf_inquiry.cpp:210-221 | the spans visited in a prefix are a prefix of those visited in the whole |
| `Truncation.CutValues` | src/pcf_inquiry.cpp:228-250 | a string or integer wholly before the cut reads the same |
| `PcfInquiry.BuildPcfCmd` | src/pcf_inquiry.cpp:51-64 | the 36-byte header of nine fields with the command and the parameter count |
| `PcfInquiry.AppendStringParam` | src/pcf_inquiry.cpp:73-91 | for every value: placeholder, padding loop and patched StrucLength together append the documented MQCFST layout |
| `PcfInquiry.CastsAreHarmless` | src/pcf_inquiry.cpp:81-90 | the casts to 32 bits change neither the bytes written nor the padding, whatever the length |
| `PcfInquiry.AppendIntegerParam` | src/pcf_inquiry.cpp:98-103 | appends the documented MQCFIN layout |
| `PcfInquiry.BuildInquireQCmd` | src/pcf_inquiry.cpp:107-113 | the command is its header and the layouts of its parameters, as many as the header says |
| `PcfInquiry.BuildInquireQStatusCmd` | src/pcf_inquiry.cpp:115-121 | the same, for queue status by handle |
| `PcfInquiry.BuildInquireChannelStatusCmd` | src/pcf_inquiry.cpp:123-128 | the same, for channel status |
| `PcfInquiry.BuildInquireTopicStatusCmd` | src/pcf_inquiry.cpp:130-135 | the same, for topic status |
| `PcfInquiry.BuildInquireSubStatusCmd` | src/pcf_inquiry.cpp:137-142 | the same, for subscription status |
| `PcfInquiry.BuildInquireQMgrStatusCmd` | src/pcf_inquiry.cpp:144-148 | the same, without parameters |
| `PcfInquiry.BuildInquireClusterQMgrCmd` | src/pcf_inquiry.cpp:150-155 | the same, for the fixed name `*` |
| `PcfInquiry.BuildInquireUsageCmd` | src/pcf_inquiry.cpp:157-162 | the same, for every usage type |
| `PcfInquiry.BuildInquireQStatusOnlineCmd` | src/pcf_inquiry.cpp:164-170 | the same, for queue status |
| `PcfInquiry.BuildResetQStatsCmd` | src/pcf_inquiry.cpp:172-177 | the same, for resetting queue statistics |
| `PcfInquiry.ParsePcfResponseParams` | src/pcf_inquiry.cpp:200-222 | the visitor loop makes exactly the visits of the reference scan, none for a short response or one with a completion code |
| `PcfInquiry.VisitsTile` | src/pcf_inquiry.cpp:210-221 | on any buffer the visited spans tile it from the start to where the scan stops, strictly forward and inside |
| `PcfInquiry.StringReadInside` | src/pcf_inquiry.cpp:228-234 | the copied string stays in its structure if and only if the 32-bit sum `20 + str_len` does not wrap |
| `PcfInquiry.ListReadInside` | src/pcf_inquiry.cpp:255-265 | the list read stays in its structure if and only if the count fits or the wrapped sum still exceeds the structure |
| `PcfInquiry.ParseQMgrStatusResponse` | src/pcf_inquiry.cpp:404-434 | one entry per response of at least a header, each field the last value of its type under its id |
| `PcfInquiry.ErrorResponseYieldsDefault` | src/pcf_inquiry.cpp:404-434 | an error response still produces an entry, with every field at its default |
| `CommandRoundTrip.CommandReadsBack` | src/pcf_inquiry.cpp:51-177 | every command: all nine header fields read back, the inquiry scan finds exactly ParameterCount parameters of aligned lengths and ends at the last byte, and the parser returns their meaning |
| `CommandRoundTrip.BuildersFit` | src/pcf_inquiry.cpp:107-177 | the parameters of every builder are well formed for every name that fits an MQLONG length, so the round trip covers them all |
| `CommandRoundTrip.ThreeReaders` | src/pcf_inquiry.cpp:73-91 | a non-empty string parameter in all three readers: what each returns, and that they agree if and only if the value has no NUL; then it is the value without trailing blanks |
| `MqiStats.ParseMqiStats` | src/pcf_parser.cpp:336-436 | every numeric and text field of every tree: the loop with its recursion computes the left fold |
| `MqiStats.SumList` | src/pcf_parser.cpp:349-351 | the two accumulators of a value list are its exact sum modulo 2^32 and modulo 2^64 |
| `MqiStats.CounterMeaning` | src/pcf_parser.cpp:336-436 | for every tree: each of opens, closes, puts, gets, commits and backouts is its last flat value in the list plus the counters of the groups after that value, modulo 2^32 |
| `MqiStats.FlatFieldMeaning` | src/pcf_parser.cpp:336-436 | for every tree: any other numeric field is its last flat value in the top-level list; what groups report for it is lost |
| `MqiStats.GroupedBrowsesAreLost` | src/pcf_parser.cpp:340-347 | a concrete tree whose browses, reported in a group, do not reach the top |
| `MqiStats.CounterIsSumLessLost` | src/pcf_parser.cpp:336-436 | for every tree: a counter is the whole-tree sum less what flat values overwrite, modulo 2^32 |
| `MqiStats.CounterIsTreeSumIff` | src/pcf_parser.cpp:336-436 | so it is the whole-tree sum if and only if what is overwritten amounts to 0 modulo 2^32 |
| `MqiStats.CounterIsTreeSum` | src/pcf_parser.cpp:336-436 | in particular wherever every list has at most one flat value and all groups follow it |
| `MqiStats.OverwrittenGroup` | src/pcf_parser.cpp:336-436 | a concrete tree where a flat value overwrites what a group before it reported |
| `StatsFields.OneMoreNumber` | src/pcf_parser.cpp:336-436 | for every list and one more parameter, by literal ids: a group adds its own folding to the six counters, an integer replaces the statistic of its id, a list replaces it by its sum in 32 or 64 bits, nothing else changes anything |
| `StatsFields.OneMoreText` | src/pcf_parser.cpp:336-436 | the same for the five texts: a string replaces the text of its literal id, a group only the application name and only by one that is not empty |
| `StatsFields.TotalConcat` | src/pcf_parser.cpp:349-351 | sums are additive |
| `QueueStatus.ParseQueueStatusResponse` | src/pcf_inquiry.cpp:599-650 | one handle per group segment that names a queue, in order, each field fixed by the last write in that segment alone; a leading flat segment counts only when no group follows |
| `QueueStatus.ParseStringParam` | src/pcf_inquiry.cpp:565-582 | a string sets the field of its id if it fits its structure, and nothing else |
| `QueueStatus.ParseIntegerParam` | src/pcf_inquiry.cpp:584-597 | an integer sets the process id, or a mode when it is positive, and nothing else |
| `QueueStatus.OrdinaryIsReadable` | src/pcf_inquiry.cpp:618-637 | structures that hold their header and do not make the 32-bit sum wrap are always read inside the buffer, and a string fits exactly when it ends inside its structure |
| `QueueStatus.LeadDropped` | src/pcf_inquiry.cpp:616-648 | a leading flat segment is dropped by the first group header, even when it names a queue |
| `StatusRoundTrip.StatusRoundTrip` | src/pcf_inquiry.cpp:599-650 | open handles laid out segment by segment, each field under its literal id, come back field by field, in order; all of the response is readable |
| `StatusRoundTrip.ResponseReadsBack` | src/pcf_inquiry.cpp:599-650 | any successful response, of any well-formed structures in any order: its handles are what its structures say under the literal ids, group by group |
| `StatusRoundTrip.QMgrResponseReadsBack` | src/pcf_inquiry.cpp:404-434 | any successful queue manager response, of any well-formed structures in any order: each of the eight fields is what the last structure with its literal id says |
| `QueueDiscovery.DiscoverQueues` | src/mqclient.cpp:593-691 | for all response sequences: the list `Discovered`, whose members, order and places `DiscoveredExactly`, `EarlyStaysInPlace` and `DiscoveredGrows` fix |
| `QueueDiscovery.DiscoveredMeaning` | src/mqclient.cpp:593-691 | no name is returned twice; a name is returned if and only if it passes the filter and some successful response carries it, padded or not |
| `QueueDiscovery.DiscoveredExactly` | src/mqclient.cpp:593-691 | for all responses, byte for byte: a name is returned if and only if some response carries it, padded or not, it is not empty, does not start with `AMQ.` or `EXPORTER.`, and holds neither `MANAGED.NDURABLE` nor `MODEL` anywhere |
| `QueueDiscovery.ErrorCarriesNothing` | src/mqclient.cpp:599-605 | a response with a non-zero word at offset 24 carries no name |
| `QueueDiscovery.DiscoveredGrows` | src/mqclient.cpp:630-642 | names found keep their places when more responses follow |
| `QueueDiscovery.EarlyStaysInPlace` | src/mqclient.cpp:630-642 | what is found early keeps its place whatever follows |
| `QueueDiscovery.TrimTrailing` | src/mqclient.cpp:625-628 | the `pop_back` loop is the inquiry trim |
| `QueueDiscovery.AddList` | src/mqclient.cpp:647-683 | a name list adds its fixed-width names one by one, as far as they lie in the response |
| `DiscoveryRoundTrip.ResponseRoundTrip` | src/mqclient.cpp:593-691 | the names read from a successful response are exactly those its parameters carry, single names and lists alike, in order |
| `MetricName.DescriptionToMetricName` | src/resource_monitor.cpp:492-514 | for every description the flag-driven loop is split, clean, join |
| `MetricName.NamesAreWellSeparated` | src/resource_monitor.cpp:492-514 | for every description: lower-case letters, digits and single inner underscores only |
| `MetricName.NameAroundSeparator` | src/resource_monitor.cpp:497-502 | blank, hyphen, slash and each parenthesis join the names of their two sides by one underscore, or vanish where a side has no name |
| `MetricName.NameWithout` | src/resource_monitor.cpp:503-507 | any other byte that is neither a digit nor a letter changes nothing |
| `MetricName.NameOfWord` | src/resource_monitor.cpp:503-507 | digits and letters stay, in lower case |
| `QueueManager.Manager.Open` | src/mqclient.cpp:193-236 | an MQOPEN fails, or hands out a fresh non-zero handle; the name is recorded |
| `QueueManager.Manager.Sub` | src/mqclient.cpp:890-891 | an MQSUB on a live queue fails, or hands out a fresh non-zero handle; topic and queue are recorded |
| `QueueManager.Manager.Close` | src/mqclient.cpp:238-243 | a closed handle is gone, or stays live and is counted as stranded |
| `QueueManager.Manager.Get` | src/mqclient.cpp:281-294 | an MQGET is made on a live handle, which is recorded; it fails with a reason, or delivers at most the buffer size |
| `QueueManager.Manager.Put` | src/mqclient.cpp:453-456 | an MQPUT is made on a live handle; handle and bytes are recorded |
| `QueueManager.Manager.Inq` | src/mqclient.cpp:335-339 | an MQINQ is made on a live handle; attributes it does not deliver stay 0 |
| `MQAnswers.StripsExactly` | src/mqclient.cpp:16-41 | a message is shortened if and only if it starts with an MQRFH2 header of plausible StrucLength, and then by exactly that header |
| `MQAnswers.StripRemovesHeader` | src/mqclient.cpp:16-41 | a header put in front of a payload is what gets stripped |
| `MQAnswers.ResponsesStopAtLast` | src/mqclient.cpp:466-492 | at most `n` responses of at most 64 KiB, and only the last one may end the reading; `ResponsesExactly` says the rest |
| `AnswerRoundTrip.LastIsControl` | src/mqclient.cpp:486-490 | of the nine header fields it is the sixth, Control, whose value 1 marks the last response |
| `AnswerRoundTrip.LastInBytes` | src/mqclient.cpp:486-490 | a response is the last one if and only if its bytes 20 to 23 are the little-endian 1 |
| `AnswerRoundTrip.ResponsesExactly` | src/mqclient.cpp:466-492 | for every script: the responses are the first answers, whole up to 65536 bytes, none but the last of them marked; they end only at the limit, at a marked one or at a failed MQGET |
| `AnswerRoundTrip.CommandDelivers` | src/mqclient.cpp:410-504 | whenever both queues open, the reply queue under a name of its own, and the put succeeds, all responses up to the one with Control 1 come back, in order |
| `AnswerRoundTrip.CommandTalk` | src/mqclient.cpp:410-504 | the calls of such a command, one by one: the command goes to the command queue and one MQGET per response to the reply queue |
| `AnswerRoundTrip.ReplyQueueNamed` | src/mqclient.cpp:425-440 | the reply queue counts as made if and only if MQOPEN succeeds with a name that, without blanks at its end, is not the model queue's |
| `AnswerRoundTrip.MessagesExactly` | src/mqclient.cpp:310-322 | for every script: the messages are the first answers, whole up to 102400 bytes, up to the first that fails |
| `AnswerRoundTrip.FetchedExactly` | src/mqclient.cpp:281-307 | one read gives a message exactly when one is delivered, and nothing exactly when none is waiting |
| `AnswerRoundTrip.DrainedExactly` | src/mqclient.cpp:746-770 | for every script: the publications are the first answers without their MQRFH2 headers; they end only at the limit, at a failed or at an empty answer |
| `AnswerRoundTrip.AllDrained` | src/mqclient.cpp:739-778 | all waiting messages of all subscriptions are returned, queue by queue, each read from its own queue |
| `AnswerRoundTrip.RetainedExactly` | src/mqclient.cpp:780-866 | the retained message is what the third answer delivers, after the two that made the pair |
| `AnswerRoundTrip.PlatformIs` | src/mqclient.cpp:161-187 | the platform is the first inquired attribute if that is positive, else 3 |
| `AnswerRoundTrip.ClosesInOrder` | src/mqclient.cpp:954-985 | recorded pairs are closed in order, each subscription before its queue |
| `MQClient.Client.constructor` | src/mqclient.cpp:70 | a new client has an empty ledger |
| `MQClient.Client.Connect` | src/mqclient.cpp:76-129 | connected afterwards exactly when MQCONNX succeeded or it was connected; the ledger is kept; the platform is detected |
| `MQClient.Client.DetectPlatform` | src/mqclient.cpp:161-187 | the platform is the inquired one when it is positive, else the local one; the object opened for it is closed again |
| `MQClient.Client.Disconnect` | src/mqclient.cpp:131-159 | from any state, whatever fails: every recorded handle is closed once, in order, then MQDISC; nothing recorded as open or subscribed; only lent, orphaned or stranded handles live; a clean client makes no MQ call |
| `MQClient.Client.CloseStats` | src/mqclient.cpp:145 | exactly one MQCLOSE, of the recorded handle, if and only if the queue is open |
| `MQClient.Client.CloseAcct` | src/mqclient.cpp:146 | exactly one MQCLOSE, of the recorded handle, if and only if the queue is open |
| `MQClient.Client.OpenStatsQueue` | src/mqclient.cpp:245-251 | succeeds exactly when connected and MQOPEN succeeds; orphans a handle exactly when the queue was open already |
| `MQClient.Client.OpenAccountingQueue` | src/mqclient.cpp:253-259 | the same for the accounting queue |
| `MQClient.Client.GetMessage` | src/mqclient.cpp:261-308 | one read, of the queue asked for; which answer leads to a message, to none, to the exception, and when `connected_` is cleared |
| `MQClient.Client.GetAllMessages` | src/mqclient.cpp:310-322 | all reads of the queue asked for; exactly the messages before the first answer that is not one, and the exception exactly when that answer is a failure |
| `MQClient.Client.InquireQueue` | src/mqclient.cpp:324-406 | open, inquire, close; the attributes are those of the answer, and no handle is left whatever fails |
| `MQClient.Client.ReadResponses` | src/mqclient.cpp:466-492 | the responses `ResponsesExactly` and `CommandDelivers` describe: up to the first whose word at offset 20 is 1, or the first failed MQGET; one MQGET each |
| `MQClient.Client.SendPcfCommand` | src/mqclient.cpp:410-504 | every MQ call of a command, in order, on every path: the command is put exactly when the reply queue was made under a name of its own and the command queue opened, and whatever was opened is closed; the responses are those `CommandDelivers` describes |
| `MQClient.Client.DiscoverQueues` | src/mqclient.cpp:593-691 | sends the inquiry for the pattern and returns the discovered names of its responses |
| `MQClient.Client.AcquirePair` | src/mqclient.cpp:868-904 | a destination queue and a subscription, or neither |
| `MQClient.Client.SubscribeToTopic` | src/mqclient.cpp:695-737 | the pair of handles is made and recorded exactly when both calls succeed |
| `MQClient.Client.Drain` | src/mqclient.cpp:746-770 | the waiting messages of the given queue, up to the first failed or empty MQGET |
| `MQClient.Client.ReceivePublications` | src/mqclient.cpp:739-778 | the messages of all recorded subscriptions in order, each read through its own queue |
| `MQClient.Client.SubscribeAndGet` | src/mqclient.cpp:780-866 | the retained message exactly when both calls and the MQGET succeed; queue and subscription are gone on every path |
| `MQClient.Client.CreateSubscription` | src/mqclient.cpp:868-904 | both handles go to the caller, or both are 0 and nothing stays behind |
| `MQClient.Client.GetMessagesFromHandle` | src/mqclient.cpp:906-936 | the waiting messages of the given queue; nothing when disconnected or without handle |
| `MQClient.Client.CloseSubscription` | src/mqclient.cpp:938-952 | the pair is given back, connected or not |
| `MQClient.Client.ClosePair` | src/mqclient.cpp:938-952 | subscription first, then queue, each where it is not 0 |
| `MQClient.Client.UnsubscribeAll` | src/mqclient.cpp:954-985 | every recorded pair is closed and the list is empty |
| `MonitorCatalog.DiscoveredIsGood` | src/resource_monitor.cpp:233-258 | whatever the answers: every discovered class has a type, every type an element, every element an id and its metric name |
| `MonitorCatalog.TypesAreGood` | src/resource_monitor.cpp:280-307 | only named types with elements are kept |
| `MonitorCatalog.AgreesAppend` | src/resource_monitor.cpp:159-162 | one assignment into the inner map keeps the index equal to the search over one more entry |
| `MonitorCatalog.ReindexAgrees` | src/resource_monitor.cpp:155-164 | indexing the whole catalogue again over its earlier part changes nothing |
| `MonitorCatalog.EntriesDescribe` | src/resource_monitor.cpp:155-164 | every index entry points to an element of the catalogue with its id, under its key |
| `MonitorCatalog.LastMatchIsEntry` | src/resource_monitor.cpp:155-164 | the search finds something exactly when an entry with key and id exists |
| `MonitorCatalog.SearchFinds` | src/resource_monitor.cpp:155-164 | what the search finds lies in the catalogue, with that id, under that key |
| `MonitorCatalog.SearchExactly` | src/resource_monitor.cpp:155-164 | the search finds an element if and only if it is the last in the catalogue with that id under class, slash, type, and nothing if and only if there is none |
| `MetadataRoundTrip.MetadataRoundTrip` | src/resource_monitor.cpp:137-358 | every catalogue of named classes, types and elements, laid out as metadata publications with the literal ids, in any dress: discovery returns exactly it, in order, and asks exactly its topics, in order |
| `MetadataRoundTrip.ElementReads` | src/resource_monitor.cpp:335-354 | an element group gives id by 841, datatype by 842 and description by 2715, whatever stands in front |
| `MetadataRoundTrip.TypeReads` | src/resource_monitor.cpp:280-300 | a type group gives id by 840, name by 2714 and topic by 2094 |
| `MetadataRoundTrip.ClassReads` | src/resource_monitor.cpp:233-250 | a class group gives id by 839, name by 2713 and topic by 2094 |
| `SubscriptionPlan.FindsFirst` | src/resource_monitor.cpp:388-396 | the replaced `%s` is the first one |
| `SubscriptionPlan.RecordedSome` | src/resource_monitor.cpp:412-413 | something is recorded if and only if some attempt succeeded |
| `SubscriptionPlan.RequestsAreExact` | src/resource_monitor.cpp:373-401 | the history of the attempts fixes the handles each of them handed back |
| `PlanContents.MarkedTopic` | src/resource_monitor.cpp:386-401 | a type whose topic is `a`, the first `%s`, and `b` asks for `a`, the queue name, and `b`: once per queue, in order, and for nothing else |
| `PlanContents.UnmarkedTopic` | src/resource_monitor.cpp:374-384 | a type without a topic asks for nothing, one whose topic has no `%s` for that topic, once |
| `PlanContents.StatAppAsksNothing` | src/resource_monitor.cpp:368-371 | the class whose name is the seven bytes of STATAPP asks for nothing |
| `PlanContents.PlanConcat` | src/resource_monitor.cpp:367-411 | classes are planned one after the other |
| `PlanContents.PlanByType` | src/resource_monitor.cpp:373-410 | and so are the types of a class |
| `PlanContents.PlannedExactly` | src/resource_monitor.cpp:360-414 | for every catalogue and queue list: an attempt is planned if and only if some class other than STATAPP has a type whose object topic it is, or is with a queue for its first `%s` |
| `PlanContents.RecordedExactly` | src/resource_monitor.cpp:378-400 | a subscription is recorded if and only if an attempt with its class, type and handles succeeded |
| `PlanContents.RequestAt` | src/resource_monitor.cpp:378-400 | call i asks for the topic of attempt i |
| `PublicationMetrics.MetricIsAttributed` | src/resource_monitor.cpp:451-469 | each value gives at most one metric, named and scaled by a catalogue element with its id under the key of its subscription |
| `PublicationMetrics.MetricExists` | src/resource_monitor.cpp:451-456 | there is a metric if and only if the value is a 32-bit or 64-bit integer and some element of the catalogue has its id under the key of the subscription |
| `PublicationMetrics.MetricIs` | src/resource_monitor.cpp:457-469 | and it is that of the last such element: its name, its value by the literal datatype codes, a delta exactly under code 2 |
| `PublicationRoundTrip.PublicationRoundTrip` | src/resource_monitor.cpp:416-478 | for every catalogue, all subscriptions and all streams laid out for them: the output is one metric per known 32-bit or 64-bit integer, in order, under the queue its message names last, and nothing else |
| `PublicationRoundTrip.MessageMetric` | src/resource_monitor.cpp:431-470 | the same for one message |
| `PublicationRoundTrip.ReadAt` | src/resource_monitor.cpp:420-423 | the queue of subscription i is read i-th |
| `PublicationMetrics.AttributedToOwnType` | src/resource_monitor.cpp:425-469 | where class names hold no slash, that element belongs to the subscription's own class and type |
| `PublicationMetrics.KeyIsExact` | src/resource_monitor.cpp:158 | the key tells classes and types apart as long as class names hold no slash |
| `PublicationMetrics.KeysCollide` | src/resource_monitor.cpp:158 | two pairs share a key exactly when the longer class name continues the shorter after a slash and the other type name holds the rest |
| `PublicationMetrics.KeyCollision` | src/resource_monitor.cpp:158 | a concrete pair of different classes and types with one key |
| `ResourceMonitor.Monitor.constructor` | src/resource_monitor.cpp:28-29 | a new monitor has borrowed nothing and its empty index agrees with its empty catalogue |
| `ResourceMonitor.Monitor.DiscoverElements` | src/resource_monitor.cpp:310-358 | asks the given topic once and fills the type from the answer |
| `ResourceMonitor.Monitor.ReadElement` | src/resource_monitor.cpp:335-354 | id, datatype and description by their last members, the name from the description |
| `ResourceMonitor.Monitor.DiscoverTypes` | src/resource_monitor.cpp:261-308 | asks the class topic, then each announced type, in order; returns exactly the types with elements |
| `ResourceMonitor.Monitor.DiscoverClasses` | src/resource_monitor.cpp:170-259 | the catalogue grows by exactly the classes of the answers and the topics asked are exactly theirs, field by field as `MetadataRoundTrip` fixes them |
| `ResourceMonitor.Monitor.IndexAll` | src/resource_monitor.cpp:155-164 | the index after the loops is the search over everything in it |
| `ResourceMonitor.Monitor.Discover` | src/resource_monitor.cpp:137-168 | on a fresh or used monitor, failing anywhere: catalogue and conversation are those of the answers (`MetadataRoundTrip`), the index agrees with a plain search of the whole catalogue, and success means a usable answer and a non-empty catalogue |
| `ResourceMonitor.Monitor.LookupIsSearch` | src/resource_monitor.cpp:155-164 | in every valid state a lookup is a plain search, and what it points to has that id and key |
| `ResourceMonitor.Monitor.TrySubscribe` | src/resource_monitor.cpp:395-400 | one attempt, recorded exactly when it succeeds |
| `ResourceMonitor.Monitor.CreateSubscriptions` | src/resource_monitor.cpp:360-414 | the attempts are exactly the plan (`MarkedTopic`, `PlannedExactly`), in order; exactly the successful ones are recorded, each with the handles its own call returned under its own class and type; true exactly when there was one |
| `ResourceMonitor.Monitor.ProcessMessage` | src/resource_monitor.cpp:431-470 | one message: the queue name of the whole message on every metric, in order |
| `ResourceMonitor.Monitor.ProcessParam` | src/resource_monitor.cpp:451-469 | the two-level lookup gives what a plain search gives: a metric exactly when `MetricExists` says so, and the one `MetricIs` says |
| `ResourceMonitor.Monitor.ProcessPublications` | src/resource_monitor.cpp:416-478 | the output is `AllMetrics` of the messages delivered, which `PublicationRoundTrip` fixes on every laid-out stream; each subscription's own queue is read once |
| `ResourceMonitor.Monitor.NoKeyNoMetrics` | src/resource_monitor.cpp:425-427 | skipping a subscription without an inner map loses nothing |
| `ResourceMonitor.Monitor.Close` | src/resource_monitor.cpp:480-490 | every borrowed pair is closed, in order, whatever the queue manager answers; nothing else is called |
| `Collector.AcceptedLog` | src/collector.cpp:91-161 | an accepted log connects and sets up at most once, collects only after the set-up, and does nothing but collect from then on |
| `CollectorRuns.AcceptedShape` | src/collector.cpp:91-161 | the automaton accepts exactly failed attempts, then one connection, one set-up, then cycles |
| `CollectorRuns.CountIs` | src/collector.cpp:242-248 | the counters count |
| `CollectorRuns.PatternsAre` | src/collector.cpp:58-68 | exactly the patterns that do not start with byte 33 are asked for |
| `CollectorRuns.InquiryAt` | src/collector.cpp:58-68 | inquiry i is for pattern i |
| `CollectorRuns.SubscriptionAt` | src/collector.cpp:51-56 | attempt i is for topic i |
| `CollectorRuns.QueuesFound` | src/collector.cpp:58-68 | a queue is on the list if and only if some inquiry discovered it |
| `CollectorRuns.MadeExactly` | src/mqclient.cpp:695-737 | of the outcomes exactly those with a queue handle are recorded |
| `Collector.Exporter.constructor` | src/collector.cpp:10-18 | a fresh collector |
| `Collector.Exporter.TryConnect` | src/collector.cpp:24-35 | `connected_qmgr_` says whether the connection was made |
| `Collector.Exporter.SetupAfterConnect` | src/collector.cpp:37-89 | the whole history of a set-up, in order: both opens, one attempt per topic (recorded exactly when made), one inquiry per pattern not starting with `!`, then the monitor's discovery and its plan over the queues just discovered |
| `Collector.Exporter.OpenQueues` | src/collector.cpp:38-49 | either open may fail, each flag tells which; on clear flags no handle is orphaned |
| `Collector.Exporter.DiscoverQueues` | src/collector.cpp:58-68 | one inquiry per pattern not starting with `!`, and all the queues they find, in order |
| `Collector.Exporter.SetupMonitor` | src/collector.cpp:70-86 | a monitor is kept exactly when discovery finds classes; its attempts are the plan for those classes and the discovered queues; without it nothing stays borrowed |
| `Collector.Exporter.Start` | src/collector.cpp:91-161 | every run: the counters add up to the completed cycles and the limit holds; a continuous run that collected and was neither stopped nor cut off made exactly N + 1 cycles, any other that collected one; without `keep_running` a run collects exactly when its one connection attempt succeeds, with it unless stopped or cut off |
| `Collector.Exporter.KeepRunning` | src/collector.cpp:101-146 | the reconnection loop never reaches its reconnection block |
| `Collector.Exporter.Stop` | src/collector.cpp:163-190 | releases everything when running; without effect otherwise |
| `Collector.Exporter.Destroy` | src/collector.cpp:20-22 | after the destructors every handle has been closed or its close has failed |
| `Collector.Exporter.RunContinuous` | src/collector.cpp:197-239 | returns only with `running_` false or where observation ends; at most N + 1 cycles for a limit N > 0; a lost connection is never made again |
| `Collector.LostConnectionGoesOn` | src/collector.cpp:241-259 | a concrete script and tick list: the first cycle finds the connection broken, the run collects again and connects no more |
| `Collector.Exporter.Rediscover` | src/collector.cpp:212-228 | the queue list is kept, or replaced by what one inquiry per pattern finds |
| `Collector.Exporter.CollectCycle` | src/collector.cpp:241-259 | one more completed cycle with its outcome; `connected_qmgr_` is cleared exactly by a failed cycle on a lost connection |
| `Collector.Exporter.RecordCycle` | src/collector.cpp:242-248 | exactly one of the two counters goes up by one |
| `Collector.Exporter.RunOnce` | src/collector.cpp:192-195 | exactly one cycle |
| `Collector.RunCollector` | src/main.cpp:93-114 | one life of the exporter, whatever the configuration, answers, stops and failures: nothing stays live but handles whose close failed |
| `HandleLedger.OrphansMeanReopened` | src/mqclient.cpp:245-259 | for every history: a handle was overwritten if and only if a queue was opened, and opened again with no disconnection in between |
| `LedgerRuns.Conservation` | include/ibmmq_exporter/mqclient.h:130-145 | the live handles are the open queues, the recorded subscriptions of client, monitor and other callers, the orphans and the stranded handles, each once |
| `LedgerRuns.OrphansFromHistory` | src/mqclient.cpp:245-259 | in every valid state of a client the orphans are those of its history |
| `LedgerRuns.Step` | src/mqclient.cpp:76-985 | each public call, of the monitor, of the collector or of another caller on its own subscriptions, keeps the ledger; a handle is lost exactly when the call opens a queue whose flag is set, while connected, and MQOPEN succeeds |
| `LedgerRuns.CarefulNeverReopens` | src/mqclient.cpp:245-259 | in a run with a disconnection between any two opens of the same queue no call does that |
| `LedgerRuns.Run` | src/mqclient.cpp:76-985 | every sequence of calls keeps the ledger; a run with a disconnection between any two opens of the same queue loses no handle, whatever the answers |
| `LedgerRuns.RunAndClose` | src/mqclient.cpp:131-159 | after any run from a clean client, once subscriptions are given back, `close()` and `disconnect()` leave only orphans and stranded handles; if no close failed, nothing is live if and only if the history reopens no queue, and a run with a disconnection between any two opens never does |
| `LedgerRuns.ReopeningLosesHandle` | src/mqclient.cpp:245-251 | a concrete script: connect, open, open again, disconnect; the first handle stays live and is recorded nowhere |

## Left out

- PcfInquiry.ParseQMgrStatusResponse: requires that every byte `read_pcf_string` copies lies in the buffer; beyond that the behaviour of the source is undefined (`PcfInquiry.StringReadInside` says when it cannot happen).
- PcfInquiry.ListReadInside: the list reader is modelled by its bound only, as its values feed no modelled parser.
- MetadataRoundTrip.MetadataRoundTrip: all groups of one catalogue share header, further members and padding, and the meaningful members stand last in their group, in one order; names do not end in a blank.
- StatusRoundTrip.StatusRoundTrip: the fields of a segment stand in one order; `StatusRoundTrip.ResponseReadsBack` covers the others.
- Truncation.CutValues: requires the same of the prefix.
- QueueStatus.ParseQueueStatusResponse: requires that every byte the two readers touch lies in the buffer; so do `QueueStatus.ParseStringParam` and `QueueStatus.ParseIntegerParam` (`QueueStatus.OrdinaryIsReadable` says when it always holds).
- MqiStats.ParseMqiStats: signed overflow is taken modulo 2^32 and 2^64; the fields without a parameter id, which stay 0, are not represented.
- ResourceMonitor.Monitor.ProcessParam: scales over the reals; rounding of `double` is not modelled.
- ResourceMonitor.Monitor.Discover: element pointers are positions, so the reallocation of `classes_` that a second discovery can cause is not visible.
- Collector.Exporter.CollectMetrics: `collect_metrics` is any sequence of requests to client and monitor; which metrics it sets is not modelled.
- Collector.Exporter.Stop: data races are not modelled: a stop takes effect where `running_` is loaded.
- Collector.RunCollector: the second thread appears only through the stops of the tick list, at the points where `running_` is loaded; the final `stop()` comes after `start()` has returned.
- MQClient.Client.InquireQueue: `get_queue_handles` discards what it inquires; one method stands for the three.
- MQDISC is not credited with closing anything, so the ledger results do not depend on it.
- The MQ API itself: connection options, credentials, open options and wait intervals of the calls, and the truncation of names to the fields of MQOD. Handles are fresh, messages fit their buffer, everything else is arbitrary.
- Message metadata (format, put date and time, message id). The local platform is that of a UNIX build.
- Time: sleeps and the rediscovery clock are arbitrary steps.
- MetricsCollector, the HTTP server and the Prometheus registry.
- Configuration, command line, logging, scripts, dashboards.
- The id tables of the other response parsers and of the queue, channel and accounting statistics: one representative of each scan is modelled.
- The helpers `matches_hlq_pattern`, `queue_matches_exclusion`, `extract_object_name`, `read_string_param`, `read_int_param` and `parse_header`, which no modelled property needs.
