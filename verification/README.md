# libucmq and supex: a verified model

libucmq is a persistent message queue: an append log in fixed-size segment
files, with two small text logs that record where reader and writer stand.
supex is the server around it; it brings a ring queue between threads, a
broadcast of jobs to worker threads, and the parsers the server lives on
(the Redis protocol, JSON, HTTP bodies, quoted command lines, a hash index).
This project models the parts where correctness is not obvious and proves what
they promise. `dafny verify dfyconfig.toml` checks all of it.

## What is proved

**The queue is a queue.** `QueueRun.FirstInFirstOut` speaks about every run of
sends, receives and restarts on a fresh queue. The bytes in the segment files,
the cursors, the mappings and the tag logs together behave like a plain queue
(`Fifo` holds the refinement of one put and one get, `QueueSteps` that of one
push, pop and reopen, `QueueRun` the runs).
`QueueRun.RunOwnership` says which files, mappings and descriptors are alive,
`QueueRun.CountersFold` what the two counters mean through their wrap.

Two promises are false and are given with the exact condition and a run that
breaks them. A queue that is restarted before its first message comes back with
both positions at zero. It goes on accepting and delivering, but its messages
lie in the file head, and the first roll writes over them
(`QueueLimits.EarlyRestartLoses`, `QueueLimits.RestartKeepsOrderExactly`). A
fold of the counters lowers the put counter without writing the write tag, so a
restart right after it loses the counter and the queue refuses every message
from then on (`QueueLimits.CountersLost`,
`QueueLimits.CountersSurviveExactly`, `QueueLimits.RefusedExactly`).

**Damage is detected, recovery works.** The table-driven checksum equals the
bitwise division and catches every burst inside two adjacent bytes
(`Crc16.BurstDetected`, `Frame.DamagedBodyRejected`). The resynchronising read
loop ends on arbitrary file contents (`Store.GetIsSafe`). A torn tag line costs
one line (`Tags.TornTailRecovered`). The table in src/crc16.c is that of the
reflected polynomial 0xA001; the polynomial named in the comment on line 13 is
another one, and the model follows the table.

**Threads.** `Ring` and `Broadcast` are state machines whose steps are the
shared reads and writes of the code, interleaved in any way. The ring hands
over items whole and in order. A synchronous broadcast returns only when each
porter has run the job once, no wake-up is lost, and no state is a deadlock.

**Parsers.** The Redis reader gives the same replies however its input is cut,
and inverts the encoder up to its depth limit exactly. JSON trees survive both
print modes, every printer stays inside its precomputed buffer, minifying
commutes with printing and keeps the meaning of every text whose literals are
well closed. The buffer that parse_string sizes in its first pass is large
enough exactly when no escape swallows the closing quote
(`JsonBuffer.BufferExactly`). The HTTP body states deliver the payload of every
chunked message under every cutting. Here too one promise has a limit: in the
strict build a chunk without its closing CR loses its marked bytes in one call
and delivers them in two, and `HttpBody.CutExactly` states exactly when. Quoting and splitting
of command lines are inverse. The hash index agrees with a map.

## How it is modelled

- A queue is a record of its cursors, counters, tag logs, open mappings and
  descriptors, and its files as byte sequences. `Store`, `QueueManage` and
  `Names` define every operation on that value; `MessageQueue.QueueRef` performs
  the same operations in place, statement by statement, and is proved equal.
- `QueueRef`, `HttpParser` and `HashRef` keep their C struct as one record in one
  field that every method updates.
- Loops of the program are methods with loops, proved equal to the recursive
  definitions that the laws are about.
- The segment size is a parameter up to 64 MiB; opening and mapping files
  succeed; the free-space test before a roll is a boolean argument.
- Integers are little-endian in files. Counters wrap at 64 bits and sums of
  positions at 32 bits where the code's types do.
- In the parsers a character stands for one byte, and a text ends where its NUL
  would be. Reading past that NUL is a result of its own (`Overrun`, `None`).
- HTTP_PARSER_STRICT is a field of the parser value, so every HTTP law covers the
  strict build (the default of http_parser.h) and the fast one that
  supex/lib/http-parser/Makefile:30 defines.
- `Ring` and `Broadcast` assume sequential consistency. Setting up a claimed
  slot, and clearing it again, are one step each: no other thread uses the slot
  then. In `Broadcast` a porter's ring is a bounded queue, which is what
  `Ring.StepsAreQueueSteps` provides.
- uthash: items are numbers in place of addresses, the hash function is a
  parameter, and buckets are found with the mask and the averages with the shift
  of the code. That the number of buckets is a power of two is part of what every
  operation keeps, and makes the mask a remainder (`HashBits`). Keys that are added must be absent, as uthash asks.

## Model

| member | source | states |
|---|---|---|
| Crc16.TableStep | src/crc16.c:14-47 | one table look-up equals eight steps of the bitwise division by the reflected polynomial 0xA001, for every register and byte |
| Crc16.Crc16Append | src/crc16.c:49-65 | the table loop computes the remainder of the bit-by-bit division, for every byte string |
| Crc16.TwoBytesRecoverable | src/crc16.c:49-65 | two bytes fed into the same register can be recovered from the result |
| Crc16.DifferenceSurvives | src/crc16.c:49-65 | registers that differ stay different under equal bytes |
| Crc16.BurstDetected | src/crc16.c:49-65 | byte strings that differ only inside a window of two adjacent bytes have different checksums |
| Frame.ParseExact | src/mq_store_msg.c:25-82 | the check at a position succeeds with a message if and only if that message lies there complete (header, checksum, body) and is not an empty one flush with the end of the file |
| Frame.CheckMsg | src/mq_store_msg.c:25-99 | the code path with its error order (length, magic, wrapped 32-bit sum, negative length, checksum loop) answers exactly what the check function says |
| Frame.DamagedBodyRejected | src/mq_store_msg.c:71-99 | a stored message damaged inside two adjacent body bytes is answered with the checksum error, never delivered |
| Tags.ReadNumber | src/mq_store_rtag.c:213-236 | the digit loop yields the decimal value modulo 2^64, and refuses exactly the empty string and any non-digit |
| Tags.ParseItem | src/mq_store_rtag.c:239-274 | the token loop over one buffer: short tokens are skipped, fields assigned one by one, a position beyond the limit sends it on to the next token |
| Tags.ReadItem | src/mq_store_wtag.c:103-159 | the backward seek-and-read loop over the whole log equals the recursive scan |
| Tags.LineParses | src/mq_store_wtag.c:242-276 | a complete line at the front of the buffer is read back field for field, for all 64-bit counters and 32-bit fields |
| Tags.CleanTailRecovered | src/mq_store_rtag.c:103-190 | after any prefix, a complete last line is recovered by the first probe, for both layouts |
| Tags.TornTailRecovered | src/mq_store_wtag.c:103-188 | two complete lines and a torn one of any content and any length below a line: the second probe recovers the last complete line |
| Tags.LoneTornLineLost | src/mq_store_wtag.c:103-159 | with only one complete line before the torn one the scan finds nothing: two complete lines are needed |
| Names.GetIdByFname | src/mq_store_file.c:447-466 | the strtok loop over the 64-byte copy of the name yields the last token between underscores as atoll reads it: blanks, a sign, digits held inside a long long, and the cast to 64 unsigned bits |
| Names.IdOfName | src/mq_store_file.c:447-466 | the index is read back from every zero-padded file name below 10^12, and the copy cuts no name that fits it |
| Names.NameOrder | src/mq_store_file.c:298-442 | strcmp on names of one kind compares the indices |
| Names.FindHandleFile | src/mq_store_file.c:298-442 | the directory loop with its three counters, its running minimum and maximum, the tag files and the id cross-check equals the fold over the listing |
| Names.ReopenFindsSegments | src/mq_store_file.c:298-442 | for every listing order, and among other files, the read and write indices are found |
| Store.NextReadKeepsShape | src/mq_store_file.c:140-220 | moving the reader on keeps the ownership of maps, descriptors and files: the old segment is unmapped, closed and unlinked, the next one mapped or shared with the writer |
| Store.NextWriteKeepsShape | src/mq_store_file.c:223-295 | a roll keeps the ownership: the writer lets go of a segment it does not share with the reader and owns a new one with its own write tag |
| Store.PutKeepsShape | src/mq_store_manage.c:36-52 | a put keeps all of it, with or without a roll and when the device has no room |
| Store.GetIsSafe | src/mq_store_manage.c:54-141 | for arbitrary file contents and any position the resynchronising scan ends, changes nothing but the reader, and returns only a complete stored message of a live segment at or behind the cursor |
| Fifo.PutRefines | src/mq_store_manage.c:36-52 | a put appends the message to the unread messages of the abstract queue, across a roll of the segment |
| Fifo.NextReadRefines | src/mq_store_file.c:140-220 | leaving an exhausted segment leaves the unread messages as they are |
| Fifo.GetRefines | src/mq_store_manage.c:54-141 | a get removes and returns the first unread message, through tail bytes, stale positions and any number of exhausted segments; it returns nothing exactly when nothing is unread |
| QueueManage.CloseReleasesAll | src/mq_store_manage.c:223-237 | closing unmaps and closes each mapping and descriptor once and leaves none |
| QueueManage.TornWtagForcesRoll | src/mq_store_wtag.c:103-159 | a torn write tag recovers the last complete counters and sets the position so that the next put opens a new segment |
| QueueSteps.CreateInv | src/mq_store_manage.c:242-328 | a created queue represents the empty queue |
| QueueSteps.PushInv | src/mq_queue_manage.c:357-402 | a push appends, or is refused exactly when the limit is reached, or fails for lack of room and changes nothing that is unread; counters and both tag logs stay in step |
| QueueSteps.PopInv | src/mq_queue_manage.c:404-431 | a pop delivers exactly the first unread message, through the counter fold, and logs the position |
| QueueSteps.ReopenInv | src/mq_queue_manage.c:153-239 | after a push, close and reopen with any directory listing gives a queue with the same unread messages in order |
| EarlyQueue.EarlyReopen | src/mq_store_manage.c:316-318 | reopened before its first push a queue comes back with both positions zero, in front of the file head, and is otherwise in order |
| EarlyQueue.RollForgets | src/mq_store_manage.c:36-52 | when a segment that was filled from position zero is rolled, the stamped head wipes out what was unread inside it and only the new message remains |
| EarlyQueue.LowPop | src/mq_queue_manage.c:404-431 | until then such a queue still delivers its oldest message |
| QueueLimits.EarlyRestartLoses | src/mq_store_manage.c:161-221 | a run of a created queue, restarted before its first message, whose deliveries are no prefix of what it accepted, for every limit but one |
| QueueLimits.RestartKeepsOrderExactly | src/mq_store_manage.c:161-221 | after any run, a restart keeps the order of everything that follows if and only if a message had been accepted before it or the limit is one |
| QueueLimits.CountersSurviveExactly | src/mq_store_manage.c:87-98 | after every run that accepted a message, the put counter survives a restart if and only if no fold of the counters came after the last accepted message and the last restart; the get counter always does |
| QueueLimits.CountersLost | src/mq_store_manage.c:87-98 | a run of a created queue of limit one, a message in, the message out, a restart: nothing is unread and the counters say one message is |
| QueueLimits.LostExactly | src/mq_store_manage.c:87-98 | the counters are wrong from then on if and only if some restart met a fold that was not yet written |
| QueueLimits.RefusedExactly | src/mq_queue_manage.c:357-402 | in every run of a limited queue a message of legal length is refused if and only if the limit is reached or an earlier restart lost the counter |
| QueueRun.RunRefines | src/mq_queue_manage.c:357-431 | every event of every run of sends, receives and restarts is the one the reference queue allows, error answers included, and the files keep representing it |
| QueueRun.NothingLost | src/mq_queue_manage.c:357-431 | in every allowed run, what was delivered followed by what is unread is what was accepted |
| QueueRun.FirstInFirstOut | src/mq_store_manage.c:36-141 | in every run the messages delivered are, in order and byte for byte, the first of the messages accepted, across rolls and restarts, and the rest is still stored; restarts before the first message are included when the limit is one |
| QueueRun.RunOwnership | src/mq_store_file.c:140-295 | in every run the live data files are exactly those from the read to the write index with one tag file each, reader and writer share a mapping exactly when their indices are equal, and closing leaves nothing open |
| QueueRun.CountersFold | src/mq_store_manage.c:87-98 | in every run of a limited queue the get counter stays below the limit, the put counter below twice the limit, and their difference is the number of unread messages, at most the limit |
| MessageQueue.QueueRef.constructor | src/mq_queue_manage.c:294-328 | for every segment size that holds a message, a new queue object has its files, mappings and descriptors in order and represents the empty queue |
| MessageQueue.QueueRef.NextReadFile | src/mq_store_file.c:140-220 | the statement order of the switch to the next read segment has the effect of the value-level step |
| MessageQueue.QueueRef.NextWriteFile | src/mq_store_file.c:223-295 | the same for the roll; without room nothing changes |
| MessageQueue.QueueRef.WriteMsg | src/mq_store_msg.c:120-165 | the fields copied one after the other at a moving position make up the frame of the message; position, count and put counter advance |
| MessageQueue.QueueRef.PutData | src/mq_store_manage.c:36-52 | head stamp, roll and write together |
| MessageQueue.QueueRef.GetData | src/mq_store_manage.c:54-141 | the loop, with its termination |
| MessageQueue.QueueRef.Send | src/mq_queue_manage.c:357-402 | push behind the length check of src/mq_api.c:127-188 |
| MessageQueue.QueueRef.Receive | src/mq_queue_manage.c:404-431 | pop |
| MessageQueue.QueueRef.Close | src/mq_store_manage.c:223-237 | close; nothing stays mapped or open |
| MessageQueue.QueueRef.Open | src/mq_queue_manage.c:175-232 | the reopen order: names, read tag, write tag, mappings |
| RespLaws.StepStays | supex/lib/hiredis/hiredis.c:252-557 | a parsing step that is possible on a prefix of the input is the same step on any longer input |
| RespLaws.RunSplits | supex/lib/hiredis/hiredis.c:588-668 | reading a stream in two parts gives the replies, stack, rest and error of reading it at once |
| RespLaws.CutsDoNotMatter | supex/lib/hiredis/hiredis.c:588-668 | the same for every way of cutting |
| RespLaws.ReadsBack | supex/lib/hiredis/hiredis.c:333-557 | at any depth of the stack a reply that fits is reconstructed from its encoding and handed to its parent |
| RespLaws.RefusesDeep | supex/lib/hiredis/hiredis.c:445-508 | a reply with more nested arrays than the stack has room for is a protocol error |
| RespLaws.StreamReadsBack | supex/lib/hiredis/hiredis.c:620-668 | a stream of encoded replies is read back reply by reply with nothing left over |
| RespLaws.DecodeInvertsEncode | supex/lib/hiredis/hiredis.c:333-557 | decoding inverts encoding exactly for replies with at most eight nested arrays; every deeper one is refused |
| RespReader.SeekNewline | supex/lib/hiredis/hiredis.c:263-287 | the memchr loop finds the first CR LF, and nothing when there is none |
| RespReader.ReadLongLong | supex/lib/hiredis/hiredis.c:291-316 | the digit loop with its sign yields the value of the line |
| RespReader.LeaveFinished | supex/lib/hiredis/hiredis.c:333-356 | the loop of moveToNextTask pops every array whose last element this was |
| RespReader.RedisReader.ProcessLineItem | supex/lib/hiredis/hiredis.c:358-390 | an integer, status or error line, when complete, is one step of the parsing machine; otherwise nothing moves |
| RespReader.RedisReader.ProcessBulkItem | supex/lib/hiredis/hiredis.c:392-443 | the same for bulk strings and nil |
| RespReader.RedisReader.ProcessMultiBulkItem | supex/lib/hiredis/hiredis.c:445-508 | the same for array headers, with the depth error |
| RespReader.RedisReader.ProcessItem | supex/lib/hiredis/hiredis.c:510-557 | the type byte and the item it announces; an unknown type is a protocol error |
| RespReader.RedisReader.Feed | supex/lib/hiredis/hiredis.c:588-618 | appends to the unread input, unless an error was raised before |
| RespReader.RedisReader.GetReply | supex/lib/hiredis/hiredis.c:620-668 | hands out the first reply of what the machine would read, or none; dropping the consumed part of a long buffer is not visible |
| RespReader.Drain | supex/lib/hiredis/hiredis.c:620-668 | repeated calls give all replies of the buffered input |
| RespReader.ReadStream | supex/lib/hiredis/hiredis.c:588-668 | a reader fed any pieces, drained after each, gives the replies and the error of the joined bytes |
| RespFormat.IntLen | supex/lib/hiredis/hiredis.c:671-682 | the counting loop gives the number of decimal digits |
| RespFormat.FormattedLength | supex/lib/hiredis/hiredis.c:942-955 | the length computed in advance is the length of the encoded command |
| RespFormat.FormatCommandArgv | supex/lib/hiredis/hiredis.c:942-974 | the bytes written are the encoded command, fill the buffer exactly and end in NUL |
| RespFormat.CommandReadsBack | supex/lib/hiredis/hiredis.c:942-974 | the reader turns a formatted command back into its arguments, whatever bytes they contain |
| Ring.ApplyKeepsInv | supex/engine/supex.c:252-287 | every step of every pusher and puller keeps the slot layout, the locks and what each thread has copied so far |
| Ring.RingSafety | supex/engine/supex.c:235-287 | for any number of threads and any interleaving, down to single copied words: what was pulled is a prefix of what was pushed, in order; at most max - 1 items are inside; a slot is never filled while it is copied out; one thread per lock |
| Ring.StepsAreQueueSteps | supex/engine/supex.c:252-287 | seen from outside every step leaves the queue alone, appends the whole item, or takes off the first |
| Ring.TestsAreExact | supex/engine/supex.c:259-283 | a push is refused exactly when max - 1 items are inside, a pull exactly when none is |
| Broadcast.ApplyKeepsInv | supex/engine/major/swift_task.c:16-103 | every step of every caller and porter keeps slot ownership, completion counts, queue contents and the uniqueness of the last porter |
| Broadcast.LastExactly | supex/engine/major/swift_task.c:88-103 | the count says "last" exactly when every porter of the call has now been counted |
| Broadcast.FreeInv | supex/engine/major/swift_task.c:93-101 | the slot is in use when the last porter frees it, and every completion has been counted |
| Broadcast.BroadcastSafety | supex/engine/major/swift_evcb.c:114-234 | for every interleaving: a returned synchronous call was run exactly once by each of its porters and by no other; exactly one of its completions was told it was the last; a slot is freed at most once and only after all of them; live calls never share a slot; the in-use assertions hold; the flag in the caller's frame is written only while the caller still waits |
| Broadcast.ApplyKeepsTrack | supex/engine/major/swift_evcb.c:114-174 | no job and no wake-up is ever lost: each is in a queue, in the hands of its porter, or counted, and a complete call has a porter that will free it and set its flag |
| Broadcast.ApplyKeepsDeals | supex/engine/major/swift_evcb.c:125-129 | at most one porter is about to set a flag, and the flag is not yet set |
| Broadcast.PorterStepWorks | supex/engine/major/swift_evcb.c:340-354 | a porter with work can always take a step, and every such step leaves less work |
| Broadcast.SettledIsDone | supex/engine/major/swift_evcb.c:184-234 | when nothing is left to do, every call that pushed its jobs is complete |
| Broadcast.NoDeadlock | supex/engine/major/swift_evcb.c:184-234 | from every reachable state, every call can still be brought to return with its job run once per porter |
| JsonString.QuoteReadsBack | supex/lib/cJSON/cJSON.c:155-248 | every NUL-free string survives quoting and parsing, whatever follows it |
| JsonString.UnicodeTranscoded | supex/lib/cJSON/cJSON.c:177-199 | every code point but NUL, written as one \u escape or as a surrogate pair, is transcoded to its own UTF-8 bytes |
| JsonString.Utf8RoundTrip | supex/lib/cJSON/cJSON.c:191-198 | different code points never share their bytes |
| JsonLaws.ReadsBack | supex/lib/cJSON/cJSON.c:287-507 | at any depth, in both print modes and in front of any text that does not continue a number, a printed tree is parsed back as itself |
| JsonLaws.RoundTrip | supex/lib/cJSON/cJSON.c:264-318 | both print modes of every tree of null, booleans, int numbers, NUL-free strings, arrays and objects are parsed back as the tree, also when nothing may follow |
| JsonLaws.ValuePrintable | supex/lib/cJSON/cJSON.c:287-439 | every tree the parser builds is one the round trip covers |
| JsonLaws.Normalises | supex/lib/cJSON/cJSON.c:264-318 | whatever text is parsed, printing the tree and parsing again gives the same tree |
| JsonParse.SkipBlanks | supex/lib/cJSON/cJSON.c:261 | the cursor stops at the first character above the space |
| JsonParse.ParseString | supex/lib/cJSON/cJSON.c:155-212 | the copying loop with its escapes reads exactly what the recursive definition reads, over-runs of the terminator included |
| JsonParse.ReadNumber | supex/lib/cJSON/cJSON.c:96-115 | sign, leading zero and digit loop yield the decimal value |
| JsonParse.ReadValue | supex/lib/cJSON/cJSON.c:287-299 | the dispatch on the first characters |
| JsonParse.ReadItems | supex/lib/cJSON/cJSON.c:320-345 | the comma loop builds the chain of children in order |
| JsonParse.ReadMembers | supex/lib/cJSON/cJSON.c:406-439 | the same with keys and colons |
| JsonPrint.PrintString | supex/lib/cJSON/cJSON.c:215-248 | the second pass fills the buffer of len + 3 exactly with the quoted string |
| JsonPrint.EscapedLength | supex/lib/cJSON/cJSON.c:219-220 | the first pass computes the length of the escaped string |
| JsonPrint.PrintNumber | supex/lib/cJSON/cJSON.c:118-127 | every int fits the 21 bytes |
| JsonPrint.ComposeArray | supex/lib/cJSON/cJSON.c:348-403 | the entries and separators never leave the buffer of the precomputed size and are the printed array |
| JsonPrint.ComposeObject | supex/lib/cJSON/cJSON.c:442-507 | the same for the lines of an object with their indentation |
| JsonPrint.PrintEmptyObject | supex/lib/cJSON/cJSON.c:450-459 | depth + 4 bytes are enough for the empty object |
| JsonPrint.PrintValue | supex/lib/cJSON/cJSON.c:302-318 | the recursive printers, each on its own buffer, produce the printed text of every tree |
| JsonMinify.MinifiedPrint | supex/lib/cJSON/cJSON.c:581-595 | minifying the formatted or the unformatted print of any tree gives its unformatted print |
| JsonMinify.CopyLiteral | supex/lib/cJSON/cJSON.c:591 | the inner loops move a string literal down unchanged, escaped quotes included |
| JsonMinify.Minify | supex/lib/cJSON/cJSON.c:581-595 | in place, with the write cursor never ahead of the read cursor: the buffer holds the minified text and its NUL, bytes behind the terminator are untouched, and running past the terminator is reported exactly when the original would |
| JsonMeaning.BodyLocal | supex/lib/cJSON/cJSON.c:155-212 | a closed literal is read up to the very quote where the minifier ends it, whatever comes behind |
| JsonMeaning.MinifyKeepsMeaning | supex/lib/cJSON/cJSON.c:581-595 | every text that the parser accepts as a whole, in any layout, is accepted with the same tree after minifying, if each of its literals ends with a quote and hides no quote or backslash behind a \u |
| JsonMeaning.HiddenQuote | supex/lib/cJSON/cJSON.c:177-183 | a text with a quote behind a short \u, which the parser accepts and the minifier runs past |
| JsonMeaning.UnsoundKept | supex/lib/cJSON/cJSON.c:177-183 | the condition is not necessary: a text that breaks it and still keeps its tree |
| JsonBuffer.CountLiteral | supex/lib/cJSON/cJSON.c:160 | the first pass of parse_string counts as the definition does |
| JsonBuffer.NoMoreThanCounted | supex/lib/cJSON/cJSON.c:160-207 | side by side, the second pass never writes more than the first has counted as long as it jumps over no closing quote |
| JsonBuffer.BufferExactly | supex/lib/cJSON/cJSON.c:160-207 | the counted length is enough for a literal, whatever follows it, if and only if no escape of the second pass swallows the quote at which the first pass stopped |
| JsonBuffer.SoundFits | supex/lib/cJSON/cJSON.c:160-207 | so every literal whose \u are followed by four plain characters fits its buffer |
| JsonBuffer.CountTooSmall | supex/lib/cJSON/cJSON.c:160-207 | a literal with a short \u in front of its quote: three characters counted, four written |
| HttpBody.StepValid | supex/lib/http-parser/http_parser.c:1707-1871 | every byte keeps what the code asserts: the counter is one at a size, the length is neither zero nor the ULLONG_MAX mark in a body, zero at its end, and a message completes at most once |
| HttpBody.CutExactly | supex/lib/http-parser/http_parser.c:1835-1902 | a cut into two calls changes the result if and only if the parser is strict, holds bytes of a chunk at the cut, and the byte behind the rest of the chunk is there and is no CR |
| HttpBody.CutMatters | supex/lib/http-parser/http_parser.c:1858-1864 | such a message from its first chunk on: the byte of a chunk without its CR is lost in one call and delivered in two |
| HttpBody.CutsDoNotMatter | supex/lib/http-parser/http_parser.c:1880-1902 | for every accepted stream and every cutting into non-empty calls, body, completion and state are those of a single call |
| HttpChunks.SizeExactly | supex/lib/http-parser/http_parser.c:1755-1805 | a size in hexadecimal digits of either case is read as the number it denotes if and only if that is at most ULLONG_MAX - 16, and otherwise refused |
| HttpChunks.ChunkRead | supex/lib/http-parser/http_parser.c:1755-1871 | a chunk, with any extension, adds exactly its payload to the body and leaves the parser at the next size |
| HttpChunks.ChunkedDecodes | supex/lib/http-parser/http_parser.c:1755-1902 | every list of non-empty chunks with a last chunk, cut in any way, delivers the joined payloads and completes once, in both builds |
| HttpChunks.IdentityDecodes | supex/lib/http-parser/http_parser.c:1707-1741 | a body of the announced length, cut in any way, is delivered whole and completes once |
| HttpChunks.ContentLengthExactly | supex/lib/http-parser/http_parser.c:1436-1513 | a Content-Length value is taken for exactly what it denotes, spaces dropped, or refused; it never becomes the ULLONG_MAX mark |
| HttpExecute.ReadBlock | supex/lib/http-parser/http_parser.c:1707-1741 | taking as many bytes as are there has the effect of taking them one by one |
| HttpExecute.HttpParser.Execute | supex/lib/http-parser/http_parser.c:641-1902 | the loop over a buffer with its body mark and the flush at the end equals the byte-by-byte definition, errors and empty buffers included |
| SdsQuote.CatRepr | supex/lib/hiredis/sds.c:552-575 | the loop appends the quoted string |
| SdsQuote.SplitArgs | supex/lib/hiredis/sds.c:627-735 | the nested loops with their quote flags yield the arguments of the recursive definition for the line up to its NUL, or nothing for unbalanced quotes |
| SdsQuote.ReprReadsBack | supex/lib/hiredis/sds.c:552-735 | a quoted byte string followed by white space or nothing is one token with the original bytes |
| SdsQuote.SplitInvertsRepr | supex/lib/hiredis/sds.c:552-735 | every list of byte strings, empty ones, NULs, quotes and backslashes included, quoted and set apart by any white space, is split back into the list |
| SdsQuote.SplitArgsInvertsRepr | supex/lib/hiredis/sds.c:552-735 | the same for the line as sdssplitargs sees it: quoting leaves no NUL that would end it early |
| HashLinks.AppendLinks | src/uthash.h:152-164 | an item put behind the tail extends the doubly linked application order |
| HashLinks.UnlinkLinks | src/uthash.h:205-219 | tying the neighbours together removes an item from the application order, at either end or inside |
| HashLinks.PushChains | src/uthash.h:582-588 | an item pushed in front of a bucket extends its doubly linked chain |
| HashLinks.UnchainChains | src/uthash.h:596-606 | tying the neighbours together removes an item from its chain |
| HashTable.Find | src/uthash.h:84-95 | the search along the chain of the key's masked bucket finds the item the map holds for the key, and NULL exactly when there is none |
| HashBits.MaskIsRemainder | src/uthash.h:177-180 | masking with a power of two less one gives the remainder, for every hash value |
| HashBits.IdealIsCeiling | src/uthash.h:648-650 | ideal_chain_maxlen, computed with a shift and a mask, is the ceiling of items by buckets and not zero once there is an item |
| HashTable.MoveOne | src/uthash.h:655-671 | one turn of the inner loop keeps every moved item in its new chain, the rest of the old chain walkable and later buckets untouched |
| HashTable.ExpandBuckets | src/uthash.h:637-683 | doubling with masked hash values puts every item into the bucket of its residue, keeps the counts and changes neither keys nor the application order |
| HashIndex.Add | src/uthash.h:152-175 | adding an absent key keeps all that HASH_FSCK checks and extends the map by it, with or without doubling |
| HashIndex.Delete | src/uthash.h:194-227 | deleting an item keeps all of it and removes exactly its key; the last item takes the table with it |
| HashIndex.Replay | src/uthash.h:84-227 | in every sequence of additions, deletions and lookups every lookup answers what a plain map would, through any number of doublings |
| HashIndex.HashRef.Lookup | src/uthash.h:84-95 | lookup on a table held by reference |
| HashIndex.HashRef.Insert | src/uthash.h:152-175 | addition in place |
| HashIndex.HashRef.Remove | src/uthash.h:194-227 | deletion in place |

## Left out

- JSON numbers with a fraction, an exponent or outside int: the parser model stops there with `OtherNumber`; floating-point printing is not modelled.
- cJSON tree editing, references and allocation failure.
- JsonMeaning.MinifyKeepsMeaning: one direction only, because the readings of parser and minifier can part at a malformed escape and meet again (`JsonMeaning.UnsoundKept`); texts with comments are not JSON and the parser refuses them.
- Names.GetIdByFname: the bytes behind the buffer are not modelled, although strncpy leaves no NUL when a name has 64 bytes or more; no file name of a queue is that long.
- JsonBuffer.BufferExactly: speaks about literals that have a closing quote for the first pass; an unclosed one is read up to the end of the text.
- RESP integers are unbounded: long long overflow is not modelled; an array count below -1 becomes a reply of its own kind, as the code then has an array without elements.
- redisvFormatCommand and its format strings, connections, reading and writing sockets.
- The HTTP request line, header fields, trailer fields, upgrades, bodies that end with the connection, callbacks that return an error, and what follows a complete message.
- In the broadcast: HTTP and Redis origins, which may abandon a push; jobs without a function; the tasker counters of swift_task_come and swift_task_last; releasing the job's data.
- The statistics counters of the ring, and weak memory orders.
- Crashes in the middle of a segment roll, put and get at the same time on one queue, changing the limit of a queue while it runs, sync intervals.
- mq_sm_db_cal_msg_count and the removal of a queue are not modelled.
- uthash: sorting, Bloom filters, the concrete hash functions, and the wrap of the bucket count at 2^32.
- supex/engine/redis_parser.c, smart_task.c and crzpt_task.c (the last two repeat swift_task.c), sockets, event loop, Lua, key-value stores.
