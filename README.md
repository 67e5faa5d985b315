# SiteMonGSM core, modelled in Dafny

SiteMonGSM is a site monitor for an embedded Linux board. It watches a V4L2
camera for motion and alerts a phone by SMS through a serial-attached GSM
modem. This project models the three pieces that decide what the monitor
does, and proves properties of them:

- **The camera engine** (`camera.dfy`, module `Camera`, with the detector
  arithmetic in `motion.dfy`, module `Motion`). It holds the device handle,
  the negotiated format, the buffer request count and a pool of three
  memory-mapped frame buffers:
  - format negotiation;
  - allocation and release of the buffer pool;
  - initialisation gated on capabilities;
  - the lazy format switch;
  - the STREAMON / QBUF / DQBUF / STREAMOFF capture cycle;
  - saving a frame as `<dir>/<time>.jpeg`;
  - the motion detector, a sum of absolute byte differences over two
    frames, divided by the frame area and compared with a threshold.

  `class Camera` keeps the module globals as fields. `buffers` is an
  `array<Slot>` updated in place. Every request the engine sends to the
  driver is appended to `trace`.
- **The modem command layer** (`gsm.dfy`, module `Gsm`). `class Modem` keeps
  the singleton's state: the last transmitted bytes, a 256-byte receive
  buffer (`array<char>`) and the identification record. Around it are:
  - the AT command strings;
  - the response predicates ("OK", '>', "+CMGS");
  - the CTRL-Z-terminated message body;
  - the four-step init sequence;
  - the strtok-driven parser of the ATI reply.

  Every call made on the serial link is appended to `log`.
- **has_alphanumeric** (`util.dfy`, module `Util`).

`ctext.dfy` (module `CText`) states the C library pieces the code relies on
as functions over sequences: NUL-terminated strings, `strstr`, `strtok` and
the `%u` conversion.

The kernel and the serial port are oracles. Each operation takes a record of
what the driver or the link answers to the calls it makes:
- success or failure of each ioctl, mmap, read or write;
- the granted buffer count;
- the per-buffer lengths;
- the bytes of dequeued frames;
- the modem's replies.

The model then states, for all such answers:
- which slots are mapped;
- which format is active;
- the exact order of requests;
- the motion verdict;
- the strings sent to the modem;
- every return value.

Behaviour the C code leaves undefined is an explicit outcome, never a
precondition:
- reading or writing out a buffer that is not mapped, over a non-zero length;
- `buffers[count - 1]` with a count of 0;
- division by a zero area;
- overflow of the `int` accumulator.

Where the code and its own documentation disagree, the model follows the code:
- The comments of `camera.h` describe a greyscale `.pgm` capture. The code
  switches to MJPEG and writes the raw mapping to a `.jpeg` file.
- The comments also describe comparing the 5th and 10th of ten frames. The
  code uses three buffers and compares slots 1 and 2 over slot 0's length.
- The header says `camera_detect_motion` returns 1 or 0. The code returns -1
  when the capture cycle fails; the model's verdict is then `CaptureFailed`.
- The header says `camera_init` returns -1 on error. It returns 0 even when
  allocation fails.
- `gsm_init` tests liveness with `!`, so a liveness exchange lost to a
  serial error counts as a pass.
- The identification parser uses `strcmp` as a truth value after its first
  test. A key token that is exactly "Model" therefore fills `revision`,
  every other key overwrites `model`, and `svn`, `imei` and `gcap` are never
  written. `Gsm.RouteAsWritten` and `Gsm.KeyLineFills` prove this.
- The parser's value token stops at CR and its key token does not stop at
  LF. In a reply whose lines end in CR LF, only the first pair's key can be
  exactly "Manufacturer" or "Model". Every later key starts with the LF and
  lands in `model`. `Gsm.LaterLineFillsModel` and `Gsm.CrLfReplyFillsModel`
  prove this.
- `has_alphanumeric` never advances its pointer (see Findings).

Behaviour worth noting, on which the comments say nothing:
- `camera_allocate_buffers` does not unwind a partial allocation.
- The format switch ignores the results of its three steps.
- `camera_capture_frame` writes `buffers[count - 1]` with its own length. A
  slot whose QUERYBUF has never succeeded is still NULL with length 0, and
  gives an empty file and a return of 0. A slot that was mapped, released,
  and then failed its QUERYBUF in a format switch keeps its old length, so
  the write reads through a dangling pointer and is undefined.

## Model

| member | source | states |
|---|---|---|
| CText.CStr | src/gsm.c:86 | the C string a buffer denotes has no NUL, is a prefix of the buffer, and stops at the first NUL |
| CText.CStrOfTerminated | src/gsm.c:86 | writing NUL right after the received bytes makes the buffer denote exactly the C string of those bytes |
| CText.Strstr | src/gsm.c:87 | strstr finds the first occurrence at or after the start, and None means no occurrence |
| CText.StrstrFindsIff | src/gsm.c:87 | strstr is non-NULL exactly when the needle is a substring |
| CText.SpanOf | src/gsm.c:124 | strspn counts the longest prefix of delimiters |
| CText.CSpanOf | src/gsm.c:124 | strcspn counts the longest prefix free of delimiters |
| CText.Strtok | src/gsm.c:124-136 | a token is non-empty and free of delimiters, the saved rest is shorter, and there is no token exactly when the string holds only delimiters |
| CText.StrtokSplits | src/gsm.c:124-136 | the string is delimiters, then the token, then the end or one overwritten delimiter followed by the saved rest |
| CText.Decimal | src/gsm.c:167 | `%u` prints decimal digits with no leading zero and no NUL |
| CText.DecimalRoundTrip | src/gsm.c:167 | the digits `%u` prints denote the number printed |
| Motion.AbsDiff | src/camera.c:346-347 | the absolute difference of two bytes is at most 255, zero exactly for equal bytes, and symmetric |
| Motion.SumAbsDiff | src/camera.c:341-348 | the accumulator loop computes the difference sum of the first n pixels |
| Motion.DiffSumSymmetric | src/camera.c:344-348 | the sum does not depend on the order of the two frames |
| Motion.DiffSumBounds | src/camera.c:344-348 | the sum lies between 0 and 255 times the pixel count |
| Motion.DiffSumZeroIff | src/camera.c:344-348 | the sum is 0 exactly when the frames agree on the compared bytes |
| Motion.Judge | src/camera.c:350 | the verdict is never a capture failure |
| Motion.ExceedsIff | src/camera.c:350 | integer division and a strict `>` report motion exactly when the sum reaches (threshold+1) times the area |
| Motion.JudgeSymmetric | src/camera.c:339-350 | exchanging the two frames never changes the verdict |
| Motion.JudgeIdentical | src/camera.c:339-350 | equal frames are never motion |
| Motion.JudgeDefined | src/camera.c:341-350 | for frames of at most INT_MAX/255 bytes the verdict is defined and is the threshold test on the exact sum |
| Camera.Zeroed | src/camera.c:117 | a freshly mapped and memset slot is mapped, has the given length, and every byte is 0 |
| Camera.RequestedCode | src/camera.c:50-62 | GREY selects V4L2_PIX_FMT_GREY, MJPEG selects V4L2_PIX_FMT_MJPEG, and every other value selects nothing |
| Camera.Camera.constructor | src/camera.c:37-41 | the globals start zeroed with three NULL slots |
| Camera.Camera.SetPixelFmt | src/camera.c:44-70 | asks for 640x480 in the selected code; an unknown selector returns -1 without S_FMT; otherwise returns 0 exactly when S_FMT is accepted, and the format is what the driver wrote back |
| Camera.FirstFailure | src/camera.c:85-116 | the first slot whose QUERYBUF or mmap fails, with every earlier slot granted |
| Camera.AllocSucceedsIff | src/camera.c:79-119 | allocation succeeds exactly when REQBUFS and every granted slot's QUERYBUF and mmap succeed |
| Camera.MappedSlot | src/camera.c:94-117 | one loop turn keeps a slot well formed |
| Camera.Camera.MapSlot | src/camera.c:94-117 | QUERYBUF, then mmap and memset of one slot; reports whether both succeeded |
| Camera.Camera.AllocateBuffers | src/camera.c:72-120 | requests three buffers, returns 0 exactly when every step succeeds, sets the count to the granted count (or keeps 3 when REQBUFS fails), and leaves the pool and trace given by the allocation functions |
| Camera.AllocateOnSuccess | src/camera.c:85-119 | on success every granted slot is mapped, zero-filled and records the device length; higher slots are untouched |
| Camera.AllocateOnFailure | src/camera.c:79-115 | on failure lower slots stay mapped, higher slots are untouched, and the failing slot records MAP_FAILED and its length when only mmap failed |
| Camera.AllocateKeepsNoStale | src/camera.c:77-117 | allocation into an unmapped pool puts no mapping at or above the new count |
| Camera.Unmap | src/camera.c:127-130 | munmap leaves no live mapping and keeps the length |
| Camera.UnmapTraceExact | src/camera.c:125-131 | munmap is called for exactly the slots below the count whose pointer is not NULL, with their lengths, once each and in index order |
| Camera.ReleaseLeavesNothingMapped | src/camera.c:125-131 | releasing a pool with no mapping above its count leaves no live mapping |
| Camera.Camera.ReleaseBuffers | src/camera.c:122-144 | unmaps the non-NULL slots below the count, sends REQBUFS(0), sets the count to 0, and returns -1 exactly when REQBUFS fails |
| Camera.Camera.ReleaseTwice | src/camera.c:125-135 | a second release unmaps nothing |
| Camera.Camera.Init | src/camera.c:155-201 | open, QUERYCAP, the capture bit, the streaming bit and setting GREY are gates in that order; the first failing gate returns -1 and stops the trace; capabilities change only after QUERYCAP, and the format is 640x480 with what S_FMT left once the capability gates pass, else unchanged; a failed allocation still returns 0 |
| Camera.SwitchLeavesOnlyFreshMappings | src/camera.c:215-220 | after a switch, every live mapping comes from the new allocation and none lies above the new count |
| Camera.Camera.SwitchFormat | src/camera.c:288-293 | release, set format and allocate run exactly when the pixel format differs, with their results ignored; otherwise nothing changes |
| Camera.CycleStop | src/camera.c:235-251 | the first slot whose QBUF or DQBUF fails, with every earlier slot served |
| Camera.CycleTraceOnSuccess | src/camera.c:228-258 | a successful cycle sends STREAMON, QBUF(i) then DQBUF(i) for each slot in order, then STREAMOFF |
| Camera.CycleTraceShape | src/camera.c:228-258 | STREAMOFF is sent exactly when STREAMON and every queue operation succeed, and every QBUF is followed at once by the DQBUF of the same slot |
| Camera.Overlay | src/camera.c:246 | a dequeued frame keeps the mapping's length; each byte is the device's where the frame reaches and the mapping's old byte beyond it |
| Camera.Fill | src/camera.c:246 | dequeuing keeps the slot's pointer and length |
| Camera.Camera.QueueSlot | src/camera.c:237-250 | one QBUF/DQBUF turn; the slot holds its frame exactly when both succeed |
| Camera.Camera.StreamCycle | src/camera.c:228-258 | succeeds exactly when every ioctl of the cycle does, stops at the first failure, and fills the dequeued slots |
| Camera.FramePathDecodes | src/camera.c:263 | the file is in the save directory, ends in ".jpeg", and its stem is the decimal timestamp |
| Camera.Camera.CaptureFrame | src/camera.c:212-274 | switches to MJPEG only when needed, runs one cycle, and on success with the file opened writes slot count-1's whole mapping to `<dir>/<time>.jpeg`, which is empty when that slot's length is 0; every failure returns -1 and writes nothing; fd and capabilities are unchanged |
| Camera.LastFrameEmptySlot | src/camera.c:270 | a last slot of length 0 gives an empty file whether or not it is mapped |
| Camera.FailedRequeryLeavesDanglingSlot | src/camera.c:94-98 | a mapped slot whose QUERYBUF fails in a later switch stays released with its old length, and writing it is undefined |
| Camera.LastFrameOfMappedSlot | src/camera.c:270 | a live last slot gives exactly its mapping, of the slot's length |
| Camera.MotionVerdictEmptyFrame | src/camera.c:344-350 | with slot 0 of length 0 nothing is read, and a non-zero area gives no motion whatever slots 1 and 2 hold |
| Camera.MotionVerdictSymmetric | src/camera.c:339-350 | exchanging slots 1 and 2 never changes the verdict |
| Camera.MotionVerdictEqualFrames | src/camera.c:339-350 | equal contents in slots 1 and 2 are never motion |
| Camera.MotionVerdictAtNegotiatedSize | src/camera.c:339-350 | at 640x480 over 307200 bytes the verdict is defined and is the threshold test on the exact sum |
| Camera.Camera.DetectMotion | src/camera.c:285-351 | switches to GREY only when needed, runs one cycle, returns -1 when it fails, and otherwise the verdict on slots 1 and 2 over slot 0's length; fd and capabilities are unchanged |
| Camera.Camera.Compare | src/camera.c:339-350 | the difference sum of slots 1 and 2 over slot 0's length, divided by the area and compared with the threshold, is the verdict on the pool |
| Gsm.MessageFormatCommand | src/gsm.c:167 | the CMGF command starts "AT+CMGF=" and ends with CR |
| Gsm.MessageFormatCommandDecodes | src/gsm.c:167 | the digits between '=' and CR denote the format sent |
| Gsm.QuotedCommand | src/gsm.c:203 | the command starts with its AT prefix, ends with CR, and is four characters longer than prefix and argument |
| Gsm.QuotedCommandDecodes | src/gsm.c:316 | the argument is recovered from between the quotes |
| Gsm.MessageBody | src/gsm.c:343-345 | the body is the message followed by exactly one CTRL-Z, strlen(message)+1 bytes long |
| Gsm.LivenessResultIff | src/gsm.c:64-88 | liveness is 1 exactly when the reply holds "OK", 0 when it does not, and -1 exactly on a serial error |
| Gsm.ConfigResultIff | src/gsm.c:162-187 | message format and character set return 0 exactly when the reply holds "OK", and -1 otherwise |
| Gsm.Route | src/gsm.c:138-148 | every key selects some field |
| Gsm.RouteAsWritten | src/gsm.c:138-148 | "Manufacturer" selects manufacturer, "Model" selects revision, every other key selects model, and the chain agrees with strcmp == 0 on "Manufacturer" only |
| Gsm.ParsePairsKeepsUnreachableFields | src/gsm.c:126-149 | the key/value loop never changes svn, imei or gcap |
| Gsm.ParseKeepsUnreachableFields | src/gsm.c:124-149 | parsing a reply never changes svn, imei or gcap |
| Gsm.ParsePairsLine | src/gsm.c:128-140 | one "key:value CR" line stores the value from its second character in the field the key selects |
| Gsm.KeyLineFills | src/gsm.c:126-148 | a "key: name" pair fills manufacturer for a key that is exactly Manufacturer, revision for exactly Model, and model for every other key |
| Gsm.LaterLineFillsModel | src/gsm.c:129-148 | a key that follows a CR LF line ending starts with LF, so its value overwrites model |
| Gsm.CrLfReplyFillsModel | src/gsm.c:124-149 | in "Manufacturer: a CR LF Model: b CR" the manufacturer is a, the model is b, and revision is untouched |
| Gsm.ParseSkipsFirstLine | src/gsm.c:124 | the reply's first token, up to LF, is discarded |
| Gsm.Modem.constructor | src/gsm.c:50 | the static modem starts zeroed with a 256-byte receive buffer |
| Gsm.Modem.Receive | src/gsm.c:81-86 | at most 255 bytes arrive, the terminator falls inside the buffer, and the buffer then holds the reply's C string |
| Gsm.Modem.Transact | src/gsm.c:71-86 | write, then read; flush and fail when either returns -1, leaving the receive buffer untouched |
| Gsm.Modem.CheckLiveness | src/gsm.c:64-88 | sends "AT\r" and returns -1, 1 or 0 as the liveness rule says |
| Gsm.Modem.StorePairs | src/gsm.c:126-149 | the strtok loop leaves the identification the parse function gives |
| Gsm.Modem.ReadIdentification | src/gsm.c:100-151 | sends "ATI\r", returns 0 whenever the write and read succeed whatever the parse finds, and stores the parsed fields |
| Gsm.Modem.SetMessageFormat | src/gsm.c:162-187 | sends the CMGF command and returns 0 exactly when the reply holds "OK" |
| Gsm.Modem.SetCharacterSet | src/gsm.c:198-223 | sends the CSCS command and returns 0 exactly when the reply holds "OK" |
| Gsm.Modem.Init | src/gsm.c:234-279 | opens the port, then liveness, identification, text mode and the GSM character set; the first failure closes the port and returns -1; the transmit buffer holds the last command sent |
| Gsm.InitResultIff | src/gsm.c:234-279 | init succeeds exactly when the port opens, liveness does not answer 0, and the other three steps succeed; only a failed init after a successful open closes the port |
| Gsm.Modem.SendMessage | src/gsm.c:311-365 | sends CMGS, sends the body only after a '>' prompt, and succeeds when the final reply holds "+CMGS"; the transmit buffer holds the body once it was sent, else the command |
| Gsm.SendMessageIff | src/gsm.c:311-365 | success exactly when the prompt holds '>' and the report holds "+CMGS"; the body is written exactly when the prompt came, right after the command's reply |
| Util.HasAlphanumeric | src/util.c:12-24 | the loop as written, bounded by a number of iterations, ends as `AsWritten` says |
| Util.AsWrittenAnswersCorrectlyWhenItReturns | src/util.c:14-23 | whenever the loop returns, its answer is 0 or 1 and is the right answer; it returns exactly for the empty string or an alphanumeric first character |
| Util.LeadingSymbolNeverReturns | src/util.c:15-22 | "-a" holds an alphanumeric character, yet the loop never returns on it |
| Util.HasAlphanumericIntended | include/util.h:28-35 | the scanning loop returns 1 exactly when some character is alphanumeric, and 0 otherwise |

## Left out

- Memory addresses and kernel semantics of ioctl, mmap and munmap: their outcomes are oracle inputs; a slot's pointer is NULL, MAP_FAILED, mapped or released.
- A driver that grants more than three buffers: the granted count is typed at most 3, because the C code would then write past `buffers[3]`.
- The sleeps (`SLEEP_MSECONDS`, `SLEEP_SECONDS`, the 250 ms inter-frame delay): they have no logical effect.
- `time(NULL)`: the timestamp is a parameter.
- The image file's open, write and close: whether the open succeeded is a parameter, and the model reports the path and the bytes handed to write.
- The 256-byte `filepath` and `tx_buf`, and the 64-byte identification fields: overflows by long directories, destinations, messages or values are not modelled.
- The NUL bytes strtok writes into `rx_buf` while parsing: the receive buffer is not read again before the next command overwrites it.
- `DEBUG_LOG`: logging has no behavioural effect.
- `gsm_print_identification`: it only prints.
- serial.c (termios set-up and the read, write and close system calls): reads and writes are an oracle; a read returns -1 or at most 255 bytes.
- main.c: process and thread orchestration, not modelled; it calls `gsm_set_functionality_mode`, which gsm.c does not define.
- Concurrency between the main loop and the GSM thread.
- Util.HasAlphanumeric: the unbounded loop is cut off after `fuel` iterations, reported as `StillLooping`; non-termination is shown as "still looping for every bound".

## Findings

| source | as written | input that shows it | evidently intended | confidence | as-written member | corrected member |
|---|---|---|---|---|---|---|
| src/util.c:15-22 | the loop tests `*str` but never advances `str`, so only the first character is ever examined and a non-alphanumeric first character loops for ever | "-a" | return 1 when any character is alphanumeric, 0 otherwise, as include/util.h:28-35 describes | high; not executed | Util.LeadingSymbolNeverReturns | Util.HasAlphanumericIntended |
