# The media tools of libs/ffmpeg-0.9: server, player, prober, transcoder

A model, in Dafny, of the parts of the bundled `ffserver`, `ffplay`, `ffprobe` and `avconv` where
several steps, threads or connections have to fit together. `dafny verify dfyconfig.toml` checks all
of it. Code that changes state step by step is a class or a method with its loops; it is proved
against a specification on values, and the properties are proved of that specification over every
run.

| module | what it models |
|---|---|
| `HexNumber`, `ChunkedFeed` | how a chunk size is read, and the incremental decoder of a chunked feed POST in ffserver |
| `FeedStore` | the feed file that is written round, its index, and the limit on its size |
| `ConnectionTable` | connection list, bandwidth and admission, the one writer of a feed |
| `RtspInterleave` | RTP frames and RTSP replies that share one TCP connection |
| `PictureRing` | the picture and subpicture rings of ffplay with the allocation handshake |
| `PacketQueue` | the packet queue of ffplay and its flush markers |
| `SampleRing`, `AudioRefill`, `BlendRect` | the wave display ring, audio refills and the SDL callback, subtitle blending |
| `ProbeTree`, `ProbeEscape`, `ProbeWriter`, `ProbeShow` | what ffprobe prints, its two escapers, its counter-driven writer, its own documents |
| `JsonReader`, `JsonWriter`, `CsvWriter` | the printed texts, and readers by RFC 8259 and RFC 4180 |
| `VideoSync` | frame duplication and dropping in avconv |
| `AvFifo`, `AudioFrames` | the byte FIFO of libavutil, and audio re-framing through it |
| `TranscodeLoop` | the scheduling loop of avconv |
| `Common`, `Multiples`, `ProbeParse` | what several models share |

What the environment decides is an input or an arbitrary choice: how many bytes `send` and `recv`
take, errors and EAGAIN, poll events, clocks, whether memory and disk give what is asked for, what
decoders and encoders return, and the interleaving of threads. Times are real numbers.

Where the code does less than its documentation or a comment promises, the model follows the code,
shows an input, and states for which inputs the promise holds:

- the limit on a chunk header counts the bytes of one call, not of the header: a body that the decoder
  reads well byte by byte can be lost to it, depending on how the socket cuts it, if and only if some
  header with the line break before it has more than eleven bytes (`HeaderLimitIsPerCall`);
- the byte meant to recognise RTCP packets is a byte of the length, so odd channels are never used,
  and the two fail-safe exits are never taken (`FirstPacket`);
- a feed file longer than a lowered size limit keeps one page that is never written again, when its
  index was at its end (`StartLimitKeepsForever`);
- tags without a displayed field before them make the JSON text unreadable, as do zero or several
  sections in a chapter that is no list (`JsonRoundTrip`); in CSV they are glued together
  (`CsvRoundTrip`). No document that ffprobe itself prints is of that kind (`ProbeDocumentsAreSound`);
- subtitle blending leaves the luma plane right, whatever the bitmap, if and only if the clipped
  rectangle is not empty, or is empty in a direction in which it starts at an even place; otherwise
  it blends stray pixels (`WalkRightIff`, and one picture in `EmptyAtOddColumn`);
- audio synchronisation never adds samples (`NeverAdds`). It cuts below nine tenths of a frame, or
  within a sample, exactly for the frame sizes and drifts of `FloorKept` and `WholeSamples`; `FloorCut`
  and `SampleSplit` are one of each;
- with selection by input time, an output that waits at the largest 64-bit time is never chosen
  (`LargestTimeIsMissed`).

## Model

| member | source | states |
|---|---|---|
| ChunkedFeed.StoresThePackets | libs/ffmpeg-0.9/ffserver.c:2616-2757 | main result: after any part of a decodable chunked body, however long its header lines, the stored packets are the complete blocks of the de-chunked payload seen so far, the first block not stored, and after all of it those of the whole payload |
| ChunkedFeed.BulkReadIsByteReads | libs/ffmpeg-0.9/ffserver.c:2650-2675 | reading a stretch of chunk data at once leaves the decoder as reading it byte by byte, desynchronisation included |
| ChunkedFeed.RunConcat | libs/ffmpeg-0.9/ffserver.c:2616-2757 | decoding does not depend on where the bytes are cut |
| ChunkedFeed.CutIsTheCutting | libs/ffmpeg-0.9/ffserver.c:2677-2690 | reference: blocks of the packet size that, with the rest, give back the payload |
| ChunkedFeed.CutRemainder | libs/ffmpeg-0.9/ffserver.c:2677-2690 | the rest of a cutting has the length of the payload modulo the packet size |
| ChunkedFeed.WholeLine | libs/ffmpeg-0.9/ffserver.c:2635-2641 | a whole header line whose digits spell the size of the chunk, in letters of either case and with any zeros in front, sets just that size, and data starts at the front of the buffer |
| HexNumber.HexRunReads | libs/ffmpeg-0.9/ffserver.c:2637 | a string of hexadecimal digits is read as a number if and only if it spells it, the last digit by the remainder by sixteen and the others by the quotient |
| HexNumber.NumberReads | libs/ffmpeg-0.9/ffserver.c:2637 | strtol with base 16 behind any space, sign and 0x, narrowed to int: what the digits spell, exactly when it fits, and else the int that differs by a multiple of 2 to the 32 |
| HexNumber.HexTextSpells | libs/ffmpeg-0.9/ffserver.c:2637 | every number has a text that spells it |
| ChunkedFeed.SynchronisedOrClosed | libs/ffmpeg-0.9/ffserver.c:2669-2756 | a body stays open if and only if its first packet is accepted as header and every later one starts with the sync word; at the first byte that breaks this it closes with what was complete |
| ChunkedFeed.EndOfStream | libs/ffmpeg-0.9/ffserver.c:2637-2639 | a header line that spells zero ends the feed with all packets of the body stored |
| ChunkedFeed.EndlessHeader | libs/ffmpeg-0.9/ffserver.c:2619-2756 | a header line that fills the packet without an end is taken for a packet: as header block, as data with a sync word, or it closes the feed |
| ChunkedFeed.DataBytes | libs/ffmpeg-0.9/ffserver.c:2650-2715 | chunk data that is in step fills the buffer, stores packets as they complete, and counts down the chunk |
| ChunkedFeed.ChunkBody | libs/ffmpeg-0.9/ffserver.c:2621-2666 | any part of a chunk keeps the decoder faithful to the payload, and after the chunk it stands at the next header |
| ChunkedFeed.HeaderLimitIsPerCall | libs/ffmpeg-0.9/ffserver.c:2619-2648 | from a fresh feed, the decoder stores the packets of every decodable body; some call can give up on that body at the header limit if and only if some header, its own line break and the one that ends the chunk before it counted, has more than eleven bytes |
| ChunkedFeed.NoOverrun | libs/ffmpeg-0.9/ffserver.c:2642-2644 | when every header of a body has at most eleven bytes in that sense, no call, wherever it starts and whatever it reads, runs into the header limit |
| ChunkedFeed.Socket.Recv | libs/ffmpeg-0.9/ffserver.c:2624-2652 | recv gives some of the next bytes, would block, fails, or is at the end; none is lost |
| ChunkedFeed.Receiver.FinishPacket | libs/ffmpeg-0.9/ffserver.c:2669-2756 | the desynchronisation test and the full buffer end as the decoder step says, with the outcome of the disk |
| ChunkedFeed.Receiver.ReadHeader | libs/ffmpeg-0.9/ffserver.c:2621-2648 | the header loop reads as the decoder does, byte by byte, until a size, nothing to read, or the limit of the call, each only when it is so |
| ChunkedFeed.Receiver.ReadData | libs/ffmpeg-0.9/ffserver.c:2650-2667 | the bulk read asks for just what the chunk and the buffer allow and moves the decoder by the bytes that come |
| ChunkedFeed.Receiver.ReceiveData | libs/ffmpeg-0.9/ffserver.c:2616-2769 | one event is the decoder run on the bytes it took; it goes on until a read would block or data has come; the feed is closed for the reason given, and only for it, with what was stored |
| ChunkedFeed.ServeFeed | libs/ffmpeg-0.9/ffserver.c:2616-2769 | any number of events with any reads: every event takes bytes unless a read would block, a feed with a decodable body whose headers fit is lost only when the socket has ended or the disk has failed, and it always holds exactly the complete packets of the payload received |
| FeedStore.TruncatedFeedKeepsTheLastPages | libs/ffmpeg-0.9/ffserver.c:2592-2704 | main result: from a truncated feed, for any pages, the index stays on a page below the limit, the file below the limit and one page, and read round it is the last pages of the log in order; all of them before the limit is reached |
| FeedStore.StoreKeeps | libs/ffmpeg-0.9/ffserver.c:2685-2704 | storing a page keeps alignment, limits, and the store at the end of the longer log |
| FeedStore.RoundStep | libs/ffmpeg-0.9/ffserver.c:2685-2698 | a full round loses its oldest page and gains the new one, also where the index goes back to the first page |
| FeedStore.StartLimitKeepsForever | libs/ffmpeg-0.9/ffserver.c:3777-3782 | with the limit that startup leaves, the store stays the end of the log whatever is stored if and only if the index is below that limit |
| FeedStore.MovedLimitBreaks | libs/ffmpeg-0.9/ffserver.c:3781-3782 | otherwise there are pages after which the round ends in a page that is not the last one stored |
| FeedStore.IndexRoundTrip | libs/ffmpeg-0.9/libavformat/ffmdec.c:30-51 | any index of 64 bits with sign that is written into the header, most significant byte first, is read back |
| FeedStore.ReopenResumes | libs/ffmpeg-0.9/ffserver.c:2597-2605 | opening a feed again goes on exactly where it was closed |
| FeedStore.TruncatedIsEmpty | libs/ffmpeg-0.9/ffserver.c:2592-2605 | a truncated feed is an empty store within its limit |
| FeedStore.Feed.constructor | libs/ffmpeg-0.9/ffserver.c:3777-3784 | startup takes index, size and limit from the file, the index no lower than the first page and the limit no lower than the size |
| FeedStore.Feed.StartReceive | libs/ffmpeg-0.9/ffserver.c:2592-2605 | opening for writing truncates or resumes, and fails exactly when the header is short or its index negative |
| FeedStore.Feed.StorePacket | libs/ffmpeg-0.9/ffserver.c:2685-2704 | a packet goes into the store as specified, or the failing write leaves the file as stated |
| ConnectionTable.CountersAgree | libs/ffmpeg-0.9/ffserver.c:770-1072 | main result: in every reachable state the connection count is the list's and within its maximum, the bandwidth is the sum over listed non-POST connections on LIVE streams, so it never underflows, admitted HTTP clients never exceed the limit, and a feed is open exactly when one connection writes it |
| ConnectionTable.DeclaredBandwidth | libs/ffmpeg-0.9/ffserver.c:4265-4285 | whatever a configuration says, a stream that is not LIVE ends up with no codecs (4558-4569, 3609-3610) and so with bandwidth zero (3789-3810): what is charged for an RTP session on any stream is given back |
| ConnectionTable.LastFormatDecides | libs/ffmpeg-0.9/ffserver.c:4265-4285 | kind and format of a stream are those of its last Format line, and without one of its name |
| ConnectionTable.BandwidthRounds | libs/ffmpeg-0.9/ffserver.c:3789-3810 | the bandwidth of a stream is its bit rate in kilobits, rounded up |
| ConnectionTable.InvStep | libs/ffmpeg-0.9/ffserver.c:770-1072 | every event keeps the accounting |
| ConnectionTable.WriterStep | libs/ffmpeg-0.9/ffserver.c:2577-2769 | every event keeps a feed open exactly when one and only one connection receives into it |
| ConnectionTable.PacketWakesEverybody | libs/ffmpeg-0.9/ffserver.c:2706-2711 | right after a packet is stored no connection waits for that feed, those that did send, and nothing else moved |
| ConnectionTable.FeedLostEndsEverybody | libs/ffmpeg-0.9/ffserver.c:2758-2769 | when a feed is lost its connection is gone, nobody has it open, those that waited for it end, and nothing else moved |
| ConnectionTable.ParsingIsSound | libs/ffmpeg-0.9/ffserver.c:1582-1609 | a parsed request is charged what its connection will hold, is admitted only within the limit, and opens only a closed feed |
| ConnectionTable.WhoIsServed | libs/ffmpeg-0.9/ffserver.c:1544-1860 | a GET is admitted if and only if it asks, well formed, for a live stream that nobody writes, within the limit, for no redirector file, and its input opens; a POST becomes the writer if and only if it asks for a feed that may be written and whose file opens |
| ConnectionTable.WhatOthersAreTold | libs/ffmpeg-0.9/ffserver.c:1544-1860 | what is charged, and exactly who gets 503, 301 and 200; the other replies are 404 |
| ConnectionTable.AdmittedIsCharged | libs/ffmpeg-0.9/ffserver.c:1582-1592 | what admitted clients use is part of what is charged |
| ConnectionTable.TallyRemove | libs/ffmpeg-0.9/ffserver.c:889-902 | unlinking a connection takes its own share out of a sum and no more |
| ConnectionTable.TallyUpdate | libs/ffmpeg-0.9/ffserver.c:905-1072 | changing one connection moves a sum by the difference of its shares |
| ConnectionTable.Server.NewConnection | libs/ffmpeg-0.9/ffserver.c:769-816 | accepts and links a connection below the maximum, and refuses it otherwise |
| ConnectionTable.Server.RtpNewConnection | libs/ffmpeg-0.9/ffserver.c:3305-3370 | an RTP session counts as a connection and is charged without admission |
| ConnectionTable.Server.CloseConnection | libs/ffmpeg-0.9/ffserver.c:818-903 | unlinks one connection, gives back its bandwidth and its feed, and leaves the others alone |
| ConnectionTable.Server.StartReceiveData | libs/ffmpeg-0.9/ffserver.c:2573-2614 | a feed is opened only when it is closed, writable and its file opens |
| ConnectionTable.Server.ParseRequest | libs/ffmpeg-0.9/ffserver.c:1453-1860 | the outcome, the charge and the opened feed of a request, every error reply included |
| ConnectionTable.Server.HandleRequest | libs/ffmpeg-0.9/ffserver.c:910-950 | the connection becomes what parsing says, and a request that fails for good closes it |
| ConnectionTable.Server.WakeWaiting | libs/ffmpeg-0.9/ffserver.c:2706-2711 | all connections that wait for a feed move on, and only those |
| ConnectionTable.Server.HandleFeed | libs/ffmpeg-0.9/ffserver.c:2677-2769 | a stored packet wakes the waiting; a lost feed is closed and ends them |
| ConnectionTable.Server.HandleHeaderSent | libs/ffmpeg-0.9/ffserver.c:952-982 | after the header an error reply closes and a stream goes on |
| ConnectionTable.Server.HandleData | libs/ffmpeg-0.9/ffserver.c:984-1003 | sending goes on, waits for the feed, or ends |
| ConnectionTable.Server.HandlePlayPause | libs/ffmpeg-0.9/ffserver.c:3230-3278 | PLAY and PAUSE move an RTP session between sending and ready |
| RtspInterleave.EveryRunIsWellFramed | libs/ffmpeg-0.9/ffserver.c:2492-2540 | main result: in every run the bytes on an RTSP connection are a prefix of whole replies and whole frames, every frame carries a packet its session prepared, and over all streams of a session (2365-2372, 2506-2511) each packet is sent at most once, on one connection, in order |
| RtspInterleave.ChannelsTellStreams | libs/ffmpeg-0.9/ffserver.c:2506-2514 | in every run the channel of a frame is twice the number of its packet's stream, and two frames have one channel if and only if their streams agree modulo 128 |
| RtspInterleave.NoPacketIsLost | libs/ffmpeg-0.9/ffserver.c:2454-2540 | in every run without a dropped buffer, every packet before the next one of a session is on a connection |
| RtspInterleave.FramesGoWhereSetupSays | libs/ffmpeg-0.9/ffserver.c:3429-3437 | from a SETUP until the next or the end of the binding, frames of the session go to its connection only |
| RtspInterleave.FramingStep | libs/ffmpeg-0.9/ffserver.c:1021-1072 | every event keeps wire and pending bytes a concatenation of whole units |
| RtspInterleave.StartFrameKeepsFraming | libs/ffmpeg-0.9/ffserver.c:2504-2540 | a frame started on an idle connection keeps it framed whatever the first send takes |
| RtspInterleave.PushKeepsFraming | libs/ffmpeg-0.9/ffserver.c:1029-1070 | a partial send keeps it framed and unlocks it only when all is sent |
| RtspInterleave.GenuineStep | libs/ffmpeg-0.9/ffserver.c:2508-2525 | every frame on a connection is a packet its session prepared, on the channel of the packet's own stream |
| RtspInterleave.OrderStep | libs/ffmpeg-0.9/ffserver.c:2458-2540 | packets of a session stay in order, and none is on the wire twice |
| RtspInterleave.ReceiverCutsEveryRun | libs/ffmpeg-0.9/ffserver.c:2492-2540 | in every run a receiver that cuts frames by section 10.12 of RFC 2326 and knows the length of a reply gets from a connection exactly the replies, channels and payloads that were started on it, in order |
| RtspInterleave.ReceiverGetsUnits | libs/ffmpeg-0.9/ffserver.c:2512-2520 | any concatenation of replies and frames is cut back into them |
| RtspInterleave.FrameIsSelfDelimiting | libs/ffmpeg-0.9/ffserver.c:2512-2520 | a receiver by section 10.12 of RFC 2326 reads back channel and payload of a frame, and what follows |
| RtspInterleave.FirstPacket | libs/ffmpeg-0.9/ffserver.c:2469-2511 | a packet is read back from the front of the muxer's buffer, and the byte tested for RTCP is zero for every packet that fits |
| RtspInterleave.RtspConnection.StartReply | libs/ffmpeg-0.9/ffserver.c:2913-2923 | a reply becomes what is pending and locks the connection |
| RtspInterleave.RtspConnection.StartPacket | libs/ffmpeg-0.9/ffserver.c:2522-2540 | a frame is sent as far as the kernel takes it, the rest is pending and locks the connection |
| RtspInterleave.RtspConnection.HandleWritable | libs/ffmpeg-0.9/ffserver.c:1021-1072 | a writable event sends as much of what is pending as send() takes, and fails only on an error that does not pass |
| RtspInterleave.RtpSession.SendFrame | libs/ffmpeg-0.9/ffserver.c:2504-2540 | the packet at the front of the buffer goes out as one frame, on the channel of the stream it was prepared for |
| RtspInterleave.RtpSession.LoadBatch | libs/ffmpeg-0.9/ffserver.c:2365-2413 | what the muxer makes of one media packet is buffered for the stream of that packet |
| RtspInterleave.RtpSession.SendNext | libs/ffmpeg-0.9/ffserver.c:2474-2540 | the next packet goes out, or does not for want of time, connection, a free connection or memory, each exactly when it is so |
| RtspInterleave.RtpSession.SendData | libs/ffmpeg-0.9/ffserver.c:2454-2540 | one call is a legal run of the protocol's events for sessions of any streams; it takes the supply in order, sends only what is due, and stops exactly for the reason given |
| PictureRing.RingIsSafe | libs/ffmpeg-0.9/ffplay.c:1101-1452 | main result: in every interleaving the occupied slots are the counted ones from the read index up to the moves in flight, pictures leave in the order queued with none lost or repeated, the two threads never hold one slot, handshake and abort included, only a flush marks pictures to be skipped and it marks them all, and the decoder thread stops only for an abort |
| PictureRing.EveryInterleaving | libs/ffmpeg-0.9/ffplay.c:1101-1485 | indices, contents, handshake and flush marks agree in every reachable state |
| PictureRing.StepKeepsInv | libs/ffmpeg-0.9/ffplay.c:1101-1485 | each step of either thread keeps them |
| PictureRing.StepKeepsHandshake | libs/ffmpeg-0.9/ffplay.c:1373-1399 | the allocation event is never lost and never outlives the wait |
| PictureRing.FlushEmptiesTheRing | libs/ffmpeg-0.9/ffplay.c:1462-1480 | a flush that ends without abort leaves the ring empty, everything queued before it shown or dropped |
| PictureRing.AbortNeverStrands | libs/ffmpeg-0.9/ffplay.c:1349-1399 | after an abort the decoder thread can go on in every state where it waits, but for an allocation under way |
| PictureRing.NoOrphanAllocation | libs/ffmpeg-0.9/ffplay.c:1389-1398 | once the decoder thread has stopped no allocation event is pending and none is under way |
| PictureRing.PictureQueue.FillSlot | libs/ffmpeg-0.9/ffplay.c:1402-1443 | the picture goes into the slot of the write index, which is not to be skipped |
| PictureRing.PictureQueue.AdvanceWindex | libs/ffmpeg-0.9/ffplay.c:1446-1447 | the write index goes round, and nothing else moves |
| PictureRing.PictureQueue.SkipAll | libs/ffmpeg-0.9/ffplay.c:1465-1469 | every slot is marked to be skipped |
| PictureRing.PictureQueue.AdvanceRindex | libs/ffmpeg-0.9/ffplay.c:1101-1104 | the read index goes round before the size is counted |
| PictureRing.PictureQueue.DrainAll | libs/ffmpeg-0.9/ffplay.c:1185-1200 | the loop under the lock removes all subpictures in order in what other threads see as one step |
| PictureRing.PictureQueue.PopEvent | libs/ffmpeg-0.9/ffplay.c:1389-1394 | an aborted wait takes back its event or waits for the allocation to end |
| PictureRing.PictureQueue.AllocPicture | libs/ffmpeg-0.9/ffplay.c:1281-1321 | a fresh picture is put into the slot of the write index and announced |
| PacketQueue.Reached | libs/ffmpeg-0.9/ffplay.c:298-408 | in every run what the decoder got is, epoch by epoch, a prefix of what was put; the last epoch is what it got and the queue; only the first packet of an epoch can be a marker |
| PacketQueue.SeekSeparates | libs/ffmpeg-0.9/ffplay.c:2576-2601 | main result: for any interleaving, all that is got after the flush of a seek was put after it, and opens with a marker in exactly those epochs whose marker was queued |
| PacketQueue.SeekClosesEpochs | libs/ffmpeg-0.9/ffplay.c:2586-2597 | what was put and got before a seek never changes after it |
| PacketQueue.StepKeepsInv | libs/ffmpeg-0.9/ffplay.c:298-408 | every operation keeps the epochs |
| PacketQueue.AbortIsFinal | libs/ffmpeg-0.9/ffplay.c:363-384 | after an abort nothing more is got |
| PacketQueue.BytesFirst | libs/ffmpeg-0.9/ffplay.c:393-394 | taking the first packet takes its own bytes off the sum |
| PacketQueue.Interleave | libs/ffmpeg-0.9/ffplay.c:298-408 | for any legal order of the calls of both threads the queue ends in the state of that run and the decoder has got the packets of that run from the linked list |
| PacketQueue.PacketQueue.Put | libs/ffmpeg-0.9/ffplay.c:298-328 | a packet is linked at the end, or memory lacks and nothing changes; count, size, first and last agree with the list; a put of a packet or of the marker is that step of the run |
| PacketQueue.PacketQueue.Get | libs/ffmpeg-0.9/ffplay.c:375-408 | the first packet, an abort, nothing or a wait, by the state; count, size, first and last agree with the list; answer and step are those of the run |
| PacketQueue.PacketQueue.Flush | libs/ffmpeg-0.9/ffplay.c:339-354 | the list is empty, and the counters with it; it is the flush that opens an epoch of the run |
| PacketQueue.SeekQueue | libs/ffmpeg-0.9/ffplay.c:2587-2590 | a seek leaves a lone marker, memory permitting, and is the two steps of the run |
| BlendRect.WalkRightIff | libs/ffmpeg-0.9/ffplay.c:450-648 | main result: the code leaves the luma plane as the row by row reference does for every plane and bitmap if and only if the clipped rectangle is not empty, or is empty in a direction in which it starts at an even place |
| BlendRect.WalkIsRows | libs/ffmpeg-0.9/ffplay.c:470-648 | for such a rectangle all accesses of the walk by row pairs and column pairs lie inside, and it does what the reference does |
| BlendRect.StrayPixels | libs/ffmpeg-0.9/ffplay.c:493-509 | for any other rectangle there are a plane and a bitmap that the code changes where nothing is to be blended |
| BlendRect.EmptyAtOddColumn | libs/ffmpeg-0.9/ffplay.c:541-612 | one such picture: a rectangle without width at column 1 turns columns 1 and 2 white |
| BlendRect.NoHeightAtOddRow | libs/ffmpeg-0.9/ffplay.c:478-640 | without height at an odd row the code blends what it would for a height of two |
| BlendRect.BlendSubrect | libs/ffmpeg-0.9/ffplay.c:450-648 | for every rectangle whose accesses lie inside, the method does the walk, and what the reference does wherever the walk is right |
| BlendRect.BlendIsMean | libs/ffmpeg-0.9/ffplay.c:421-422 | blending is the mean of the two values by the alpha, cut to a whole number: nothing of a transparent colour, all of an opaque one |
| BlendRect.PixelBlended | libs/ffmpeg-0.9/ffplay.c:421-422 | every pixel of the clipped rectangle is blended once, with its own pixel of the bitmap |
| BlendRect.PixelKept | libs/ffmpeg-0.9/ffplay.c:450-648 | no other byte of the plane changes |
| BlendRect.RunIsSegment | libs/ffmpeg-0.9/ffplay.c:483-515 | pixels one after the other are the row of the reference |
| BlendRect.RowPairIsPair | libs/ffmpeg-0.9/ffplay.c:530-612 | two rows blended in squares of two by two are one row after the other, for a width above zero or an even first column |
| BlendRect.BlendRow | libs/ffmpeg-0.9/ffplay.c:478-515 | a row by itself is blended from left to right, as wide as it is, but two pixels for no width at an odd column; the pointers end behind it |
| BlendRect.BlendRowPair | libs/ffmpeg-0.9/ffplay.c:525-612 | two rows at once are blended column pair by column pair, also where there is no width |
| BlendRect.ClippedInside | libs/ffmpeg-0.9/ffplay.c:460-463 | the clipped rectangle lies in the picture: the nearest size that fits, and then the nearest place |
| SampleRing.WriteStep | libs/ffmpeg-0.9/ffplay.c:1952-1959 | a stretch written at the index keeps sample k at index k modulo the size for all of the window |
| SampleRing.LastSamplesInOrder | libs/ffmpeg-0.9/ffplay.c:1946-1962 | read round from the index a full ring is the last samples of the history in order |
| SampleRing.SampleDisplay.Update | libs/ffmpeg-0.9/ffplay.c:1946-1962 | one call of any length goes on with the history |
| SampleRing.UpdateAll | libs/ffmpeg-0.9/ffplay.c:1946-1962 | main result: any sequence of calls leaves exactly the last samples of all of them, each at its index |
| AudioRefill.PlayAll | libs/ffmpeg-0.9/ffplay.c:2169-2196 | main result: however callbacks are sliced, what they hand out together is the first bytes of the one stream of corrected frames, then silence, each exactly as long as asked |
| AudioRefill.NeverAdds | libs/ffmpeg-0.9/ffplay.c:1994-2023 | a corrected frame is a prefix of its frame: the branch that adds samples is dead |
| AudioRefill.CorrectedExactly | libs/ffmpeg-0.9/ffplay.c:1994-2023 | a frame loses as many samples as the drift is negative, no more than a tenth, and what does not fit the second buffer; else it stays as it is |
| AudioRefill.CorrectsExactly | libs/ffmpeg-0.9/ffplay.c:1978-1993 | a size is corrected if and only if audio is not the master, the difference is below ten seconds, twenty were measured before it, and their weighted mean with it reaches the threshold; a greater difference empties the filter |
| AudioRefill.FilterIsWeightedSum | libs/ffmpeg-0.9/ffplay.c:1978-1983 | the filter holds the differences weighted by powers of the coefficient |
| AudioRefill.DriftIsWhole | libs/ffmpeg-0.9/ffplay.c:1994 | the drift is the difference in samples without its fraction |
| AudioRefill.FloorKept | libs/ffmpeg-0.9/ffplay.c:1997-2003 | nine tenths of the frame are kept unless the second buffer is smaller than that and the drift asks for that much, exactly |
| AudioRefill.WholeSamples | libs/ffmpeg-0.9/ffplay.c:1994-2003 | a corrected frame is whole samples unless the second buffer holds no whole number of them, the frame is larger than it, and the drift asks for more than it and for nine tenths at least, exactly |
| AudioRefill.RefillIsWholePrefix | libs/ffmpeg-0.9/ffplay.c:1966-2037 | both for the refills that `PlayAll` hands out: a refill is a prefix of its frame, whole samples and nine tenths of it at least, unless the filter corrects at such a size and drift, exactly |
| AudioRefill.FloorCut | libs/ffmpeg-0.9/ffplay.c:1997-2003 | a stereo frame of a million bytes that should lose 80000 loses 232000 |
| AudioRefill.SampleSplit | libs/ffmpeg-0.9/ffplay.c:1997-2003 | a frame of seven channels is cut within a sample |
| AudioRefill.PlayTwice | libs/ffmpeg-0.9/ffplay.c:2176-2195 | two callbacks one after the other are one of the summed length |
| AudioRefill.AudioOutput.Synchronize | libs/ffmpeg-0.9/ffplay.c:1966-2037 | the filter moves and the size is corrected as specified |
| AudioRefill.AudioOutput.Callback | libs/ffmpeg-0.9/ffplay.c:2169-2196 | hands out exactly the bytes asked for and leaves the rest of the stream; it ends for every finite supply |
| ProbeEscape.Scratch.JsonEscapeStr | libs/ffmpeg-0.9/ffprobe.c:732-765 | the escaped text with its terminator fills exactly the size computed before, or the placeholder says why not |
| ProbeEscape.JsonSize | libs/ffmpeg-0.9/ffprobe.c:740-747 | the first pass gives the length of the escaped text and one, or finds it too big, exactly |
| ProbeEscape.Scratch.CsvEscapeStr | libs/ffmpeg-0.9/ffprobe.c:503-539 | the same for the CSV escaper |
| ProbeEscape.CsvSize | libs/ffmpeg-0.9/ffprobe.c:511-521 | the same for its first pass, which also finds whether to quote |
| ProbeEscape.JsonEscapeCons | libs/ffmpeg-0.9/ffprobe.c:750-764 | the escape of a text starts with the escape of its first character |
| JsonWriter.JsonRoundTrip | libs/ffmpeg-0.9/ffprobe.c:767-848 | main result: the printed document is read by RFC 8259 as the tree printed if every section with tags displays a field and every chapter that is no list has one section, and is not read at all otherwise |
| JsonWriter.StringRoundTrip | libs/ffmpeg-0.9/ffprobe.c:732-765 | an escaped string reads back as the string, whatever it holds |
| JsonWriter.IntegerRoundTrip | libs/ffmpeg-0.9/ffprobe.c:825-832 | a printed integer reads back as its value |
| JsonWriter.ShownParts | libs/ffmpeg-0.9/ffprobe.c:263-270 | the displayed fields of two lists are those of one after the other, and a field is displayed unless it is optional |
| JsonWriter.SectionReads | libs/ffmpeg-0.9/ffprobe.c:796-848 | a section reads as an object of its displayed fields and its tags, or not at all |
| JsonWriter.ElementsRead | libs/ffmpeg-0.9/ffprobe.c:777-800 | a list of sections reads as the list of objects if all are sound, and not at all otherwise |
| JsonWriter.ChapterStep | libs/ffmpeg-0.9/ffprobe.c:777-794 | reading goes on after a sound chapter and fails at any other |
| CsvWriter.CsvRoundTrip | libs/ffmpeg-0.9/ffprobe.c:626-672 | main result: the printed lines read by RFC 4180 as section names and values, whatever the values hold, if and only if every section prints a field, or none and one tag |
| CsvWriter.FieldRoundTrip | libs/ffmpeg-0.9/ffprobe.c:503-539 | an escaped field reads back as the value |
| CsvWriter.RecordRoundTrip | libs/ffmpeg-0.9/ffprobe.c:626-657 | so does any nonempty list of fields on a line |
| CsvWriter.RowReads | libs/ffmpeg-0.9/ffprobe.c:626-672 | a section's line reads as its row exactly when it is sound, and else never as more than it printed |
| CsvWriter.RowTells | libs/ffmpeg-0.9/ffprobe.c:626-672 | a row is the section name, the value of every field in order, and of every tag |
| CsvWriter.GluedField | libs/ffmpeg-0.9/ffprobe.c:659-672 | values printed without separators read as one field or break the record |
| ProbeWriter.ProbeFileJson | libs/ffmpeg-0.9/ffprobe.c:1118-1161 | driving the wrappers over a document prints text that reads back as above |
| ProbeWriter.ProbeFileCsv | libs/ffmpeg-0.9/ffprobe.c:1118-1161 | the same for CSV |
| ProbeShow.ProbeDocumentsAreSound | libs/ffmpeg-0.9/ffprobe.c:900-1088 | for any packets, streams and container, and whichever of them are asked for, the sections of show_packet, show_stream and show_format make a document that is sound for both writers |
| ProbeShow.PrintFile | libs/ffmpeg-0.9/ffprobe.c:1129-1161 | main result: what ffprobe prints of a file with either writer reads back as the document, with no condition, and a reader of the JSON text gets back every value of every packet, of the container, and what is displayed of every stream |
| ProbeShow.PacketReadsBack | libs/ffmpeg-0.9/ffprobe.c:900-926 | looked up by their keys, the members printed for a packet are the packet, missing values included |
| ProbeShow.FormatReadsBack | libs/ffmpeg-0.9/ffprobe.c:1056-1078 | so are those printed for the container, with its tags |
| ProbeShow.StreamReadsBack | libs/ffmpeg-0.9/ffprobe.c:939-1047 | those of a stream are its index, what is displayed after it in order, and its tags |
| ProbeShow.FileReadsBack | libs/ffmpeg-0.9/ffprobe.c:1118-1161 | and the chapters are those that were asked for |
| ProbeWriter.WriterContext.PrintDocument | libs/ffmpeg-0.9/ffprobe.c:1157-1161 | headers, chapters and footers come out as the document's text, counters starting from anything |
| ProbeWriter.WriterContext.PrintChapter | libs/ffmpeg-0.9/ffprobe.c:224-254 | a chapter comes out as its text, after a comma if one went before |
| ProbeWriter.WriterContext.PrintSection | libs/ffmpeg-0.9/ffprobe.c:240-254 | a section comes out as its text, after a comma if one went before |
| ProbeWriter.WriterContext.PrintFields | libs/ffmpeg-0.9/ffprobe.c:256-270 | the displayed fields come out with separators between them, and are counted |
| ProbeWriter.WriterContext.PrintString | libs/ffmpeg-0.9/ffprobe.c:263-270 | an optional string is printed and counted only by writers that display it |
| ProbeWriter.WriterContext.ShowTagsJson | libs/ffmpeg-0.9/ffprobe.c:834-848 | tags come out as an object after a comma, a null dictionary as nothing |
| ProbeWriter.WriterContext.ShowTagsCsv | libs/ffmpeg-0.9/ffprobe.c:659-672 | tag values come out after separators that the item counter alone decides on |
| VideoSync.ConstantRateDrift | libs/ffmpeg-0.9/avconv.c:1237-1262 | main result: for times that never go back and no frame kept back, the drift lies in [-2.1, 0.5] after every frame if and only if the first time is at least -2.1 |
| VideoSync.FramesAccount | libs/ffmpeg-0.9/avconv.c:1229-1266 | in every mode frames written are frames received plus duplicated minus dropped minus kept back, and within the limit; none is kept back before the limit is reached |
| VideoSync.ConstantRateTimestamps | libs/ffmpeg-0.9/avconv.c:1305-1344 | at constant rate the timestamps are all numbers from zero on |
| VideoSync.ConstantRateWritten | libs/ffmpeg-0.9/avconv.c:1237-1262 | at constant rate a frame is dropped if and only if it is more than 1.1 before the number of frames written, written once within 1.1 of it, and else as often as brings that number nearest, ties to an even count |
| VideoSync.VariableRateTimestamps | libs/ffmpeg-0.9/avconv.c:1242-1247 | at variable rate, for any input times, timestamps increase strictly and lie within 0.6 of their frame's time |
| VideoSync.VariableRateWritten | libs/ffmpeg-0.9/avconv.c:1242-1247 | at variable rate a frame is written, once, if and only if its time is above the last timestamp and 0.4, or above -0.6 before the first; it gets the next number, or its rounded time when that number is more than 0.6 behind; else it counts as dropped |
| VideoSync.NoSyncTimestamps | libs/ffmpeg-0.9/avconv.c:1257-1258 | without sync each frame has the rounded time of its frame |
| VideoSync.SyncIptsOrder | libs/ffmpeg-0.9/avconv.c:744-750 | later input timestamps are later times |
| VideoSync.SyncIptsScale | libs/ffmpeg-0.9/avconv.c:744-750 | time counts from the start, in microseconds over the time base |
| VideoSync.OutputStream.DoVideoOut | libs/ffmpeg-0.9/avconv.c:1212-1346 | the counters move and the timestamps go out as specified, for the sync method asked for or the format's |
| AvFifo.WriteHolds | libs/ffmpeg-0.9/libavutil/fifo.c:83-103 | a chunk written where the contents end goes on with them |
| AvFifo.DrainHolds | libs/ffmpeg-0.9/libavutil/fifo.c:106-130 | taking bytes off the front leaves the others |
| AvFifo.Fifo.Write | libs/ffmpeg-0.9/libavutil/fifo.c:83-103 | the bytes are appended, round the end of the ring |
| AvFifo.Fifo.Read | libs/ffmpeg-0.9/libavutil/fifo.c:106-130 | the first bytes come out in order |
| AvFifo.Fifo.Realloc | libs/ffmpeg-0.9/libavutil/fifo.c:62-80 | a larger ring holds the same bytes |
| AvFifo.Fifo.Size | libs/ffmpeg-0.9/libavutil/fifo.c:52-55 | the difference of the wrapping counters is the number of bytes held |
| AudioFrames.EncodeAll | libs/ffmpeg-0.9/avconv.c:964-999 | main result: however the decoder cuts its output, the encoder gets the same frames |
| AudioFrames.EncodedConserves | libs/ffmpeg-0.9/avconv.c:1543-1566 | those frames are all bytes in order and less than one frame of silence, or none and a short last frame; each tells the encoder its own number of samples |
| AudioFrames.CutMore | libs/ffmpeg-0.9/avconv.c:964-979 | bytes after a cut are cut together with what was left |
| AudioFrames.ClockKept | libs/ffmpeg-0.9/avconv.c:932-999 | samples sent and samples held are samples put in |
| AudioFrames.AudioOutput.AudioOut | libs/ffmpeg-0.9/avconv.c:932-999 | a buffer goes through the FIFO as specified, and counter and FIFO together keep the input time |
| AudioFrames.AudioOutput.Flush | libs/ffmpeg-0.9/avconv.c:1543-1566 | what is left goes out padded or short, and the FIFO is empty |
| TranscodeLoop.Transcode | libs/ffmpeg-0.9/avconv.c:2479-2656 | main result: the loop ends after at most two turns for everything its inputs give and one more, reads each input in order, and stops at once at a signal and with -shortest at the first end of file; once a packet has given every output all its frames it reads at most one event more; and where neither a signal nor -shortest ends it every output is past its time, over its size, or at the end of its input; with selection by input time, every output whose input time is below the largest 64-bit time |
| TranscodeLoop.SelectInput | libs/ffmpeg-0.9/avconv.c:2539-2571 | the input of an output that waits and is earliest of all that still wait, or none when none is; all streams of a file are marked as soon as one that is looked at has all its frames, and only then |
| TranscodeLoop.Transcoder.TakeTurn | libs/ffmpeg-0.9/avconv.c:2479-2656 | one turn, whole new state, and the same three ways out: which input is read and for which waiting output, which files are marked, what each kind of result changes, when the flags are cleared and when the loop ends; a turn that goes on leaves less to do, and the count of flagged inputs is the number flagged |
| TranscodeLoop.SelectionMarksAll | libs/ffmpeg-0.9/avconv.c:2564-2569 | when every output has all its frames and no input is flagged, one selection marks them all |
| TranscodeLoop.Transcoder.ReadInput | libs/ffmpeg-0.9/avconv.c:2583-2600 | EAGAIN flags and counts the input, an error ends it, a packet clears all flags and moves the outputs; each leaves less to do |
| TranscodeLoop.WorkShrinks | libs/ffmpeg-0.9/avconv.c:2585-2600 | a read or an end of file leaves less to do |
| TranscodeLoop.CountSet | libs/ffmpeg-0.9/avconv.c:2586-2590 | flagging an input that is not flagged counts it |
| TranscodeLoop.StampBelowHuge | libs/ffmpeg-0.9/avconv.c:2553-2563 | the time of an output, a 64-bit stamp in a 32-bit time base, is always below the bound selection starts from |
| TranscodeLoop.StampIsScaled | libs/ffmpeg-0.9/avconv.c:2553 | the time of an output is its stamp times the numerator over the denominator of its time base |
| TranscodeLoop.LargestTimeIsMissed | libs/ffmpeg-0.9/avconv.c:2539-2571 | with selection by input time a lone waiting output is passed over if and only if its time is the largest there is |

## Left out

- ChunkedFeed.StoresThePackets: chunks hold whole packets that start with `fm`, and a header line with its line breaks is shorter than a packet; a chunk size that is negative or does not fit is undefined in the code and modelled as the failing path.
- Feed bodies that are not chunked: the code never reads any of their bytes, which `Receiver.ReceiveData` states.
- The first packet of a feed is only recognised as header; what its streams are set up from is libavformat's.
- RtspInterleave.EveryRunIsWellFramed: the pending frame is a value; the code keeps a pointer into the buffer of the session that sent it, so a session that goes away while its frame is pending is not modelled.
- RtspInterleave.ReceiverCutsEveryRun: what tells a receiver the length of a reply is any function that does so whatever follows.
- RTP over UDP and the counters of bytes sent.
- ConnectionTable.CountersAgree: the linked list of connections is a sequence of objects, and what the text of a request says is an input.
- Sockets, poll, clocks, request text, status page, access lists, redirects and SDP of ffserver.
- FeedStore.Feed.StorePacket: after the disk refused the index, memory and file disagree until the feed is opened again; runs go on from states where they agree.
- PictureRing.RingIsSafe: the pictures are any type; overlays, timing and framedrop decide when a step happens and are arbitrary. `PictureQueue` has the steps that change shared memory, and the waits are steps of the interleaving only.
- PacketQueue.SeekSeparates: one queue and its decoder; the demuxer's other two queues are the same again.
- BlendRect.BlendSubrect: chroma, which in an odd first row does not advance past the last column, so it is no per-pixel blend.
- AudioRefill.PlayAll: the decoder and the clocks are the supply; the time stamp computed for the next callback and the feeding of the wave display, which `SampleRing` models by itself, are not modelled.
- JsonWriter.JsonRoundTrip: characters are Unicode scalar values, the bytes of UTF-8 are not modelled; a value that memory does not suffice to escape is printed as a placeholder, which `ProbeEscape` states and `ProbeWriter` leaves out.
- CsvWriter.CsvRoundTrip: lines end in a line feed as the code prints them, where RFC 4180 has CRLF, and section names are those that need no quotes.
- ProbeShow.PrintFile: the texts of sizes, times and rates, and what a stream prints after its index, are inputs; the options for units and prefixes only change those texts.
- `c_escape_str` and the default and compact writers: the first tests the wrong pointer, the others have no standard to read them by.
- VideoSync.ConstantRateDrift: times are exact; the single precision argument of `lrintf` is not modelled, and duplicates and drops are counted per output where the code sums them over all.
- AudioFrames.EncodeAll: resampling, format conversion and the insertion or removal of samples with audio sync on come before the bytes that the model starts from; encoders with frames of one sample get each buffer as it is.
- TranscodeLoop.Transcode: that reading stops once all outputs have their frames is stated for files that are not over their size then, since an output of a full file is not marked; what a packet does to the times, sizes and frames of the outputs is arbitrary; keys other than quit, reports and the flush after the loop are left out.
- `ffmpeg.c`, `cmdutils.c`, `python/` and `src/`: a near copy of `avconv.c`, option tables, user interface and start-up glue with only easy members.
