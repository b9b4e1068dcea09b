# UserIO output engine, modelled in Dafny

`Infopark::UserIO` is a small Ruby library that command-line tools use to talk
to their user. This project models its output side:

- **The colour codec.** `text_color`, `sgr_sequence`, `control_sequence` and
  `compute_color` turn the options `color:`, `bright:`, `faint:`, `italic:`
  and `underline:` into an ECMA-48 Select Graphic Rendition sequence
  `ESC [ p1;p2;... m` (section 8.3.117 of ECMA-48, a control sequence as in
  section 5.4). Every coloured output is followed by the fixed reset
  `ESC [22;39m`. The encoder is paired with two things:
  - a decoder of such sequences, proved its inverse;
  - a statement of what the parameters do to a terminal's rendition, so the
    model can say what a sequence *does*, not only how it is built.
- **The line emitter.** `tell`, `tell_line` and `<<` do the following:
  - flatten their texts and split them at line feeds, as Ruby's
    `split("\n", -1)` does;
  - write each line framed by the output prefix `"[label] "` and the colour
    pair;
  - leave the prefix out while the writer's context is *line-pending*, that
    is, when the last write of that context ended without a line feed.
- **The PTY relay.** `tell_pty_stream` copies a stream chunk by chunk:
  - empty chunks are skipped;
  - a trailing line feed is held back until more data arrives;
  - the *boundary* is the colour reset, the prefix and the colour again. The
    relay injects it after every carriage return and line feed.
- **The foreground/background buffer.**
  - `background_other_threads` makes the calling thread the owner of the
    terminal.
  - `write_raw` by any other thread is appended to a buffer.
  - `foreground` flushes the buffer in order and hands the background
    context's line-pending flag over to the foreground context.
  - `background?`, `line_pending?`, `line_pending!` and `output_prefix` are
    the predicates and state behind these operations.
- **`UserIO::Progress`.** It has a label, dots for increments and a
  four-frame spinner; `increment` and `spin` fail unless the progress was
  started.

## How the model is built

| file | contents |
|---|---|
| `text.dfy` (module `TextOps`) | Ruby string operations: concatenation of writes, `split("\n", -1)`, `join`, `chomp`, `chop`. It also has `Inject`, which inserts the boundary after every carriage return and line feed, and its inverse `Strip`. `Inject` is what `gsub(/([\r\n])/, "\\1#{b}")` does when the boundary contains no backslash escape (see "## Left out"). |
| `sgr.dfy` (module `Sgr`) | The colour codec, its decoder and its terminal semantics. |
| `framing.dfy` (module `Framing`) | Pure specifications of what `tell`, `<<` and `tell_pty_stream` write, one entry per `write` call, with the lemmas about what reaches the screen. |
| `user_io.dfy` (module `UserIo`) | The classes `UserIO` and `Progress`. Their methods change the object's fields as the Ruby methods do. |

How the source's features appear in the model:
- STDOUT is a ghost field `stdout` of `UserIO`. It logs the strings written, one entry per `write`.
- The calling thread is a parameter (`caller: ThreadId`) of every operation that depends on `Thread.current`.
- `@line_pending` is a pair of flags, one for each value of `background?`. A key the hash does not hold reads as nil, so the flag is false.
- Ruby's `nil` prefix and colour become `""` when written, exactly as `"#{nil}"` and `STDOUT.write(nil)` write nothing.
- `TellLine`, `TellEach`, `Tell`, `Append`, `Warn`, `TellPtyStream` and the `Progress` methods `Start`, `Increment`, `Spin` and `Finish` are proved against a specification function of `Framing` (`RenderLine`, `TellWrites`, `AppendWrites`, `PtyWrites`, `SpinFrame`), through the postcondition `Told`:
  - the writes went, in order, to STDOUT or to the buffer, whichever the caller writes to;
  - the foreground owner did not change;
  - the caller's line-pending flag is what the operation leaves it as, and the other context's flag is untouched.
- `WriteRaw`, `RelayChunk` and `RelayStream` state their writes through the predicate `Appended` (STDOUT or the buffer, in order) against `ChunkWrites` and `Relay`. `SetLinePending`, `BackgroundOtherThreads` and `Foreground` state their new fields directly.
- `Sgr.CollectParameters` builds `text_color`'s parameter array one append at a time, as the source does, and is proved equal to the function `SgrParameters`. Functions cannot call methods, so `TextColor` and everything above it use `SgrParameters`.

Behaviours of the source that the model shows as they are:
- `<<` drops a trailing carriage return. `"a\r"` is chomped to `"a"` and, since it does not end in a line feed, goes out without one; `"a\r\n"` is chomped to `"a"` and goes out as `"a\n"` (`AppendDropsCarriageReturn`).
- `chop!` removes a trailing `"\r\n"` as a whole. So the relay loses the carriage return of a chunk that ends in `"\r\n"`, and keeps it when the same bytes arrive split before the line feed (`RelayDropsCarriageReturn`).
- An unrecognised colour with no other option makes `text_color` return `ESC [m`, the empty SGR sequence. A terminal reads that as parameter 0, which resets every attribute (`TextColorDisplay`).
- `faint:`, `italic:` and `underline:` without `color:` or `bright:` produce no sequence at all (`TextColor`).
- `foreground` writes the buffer but does not empty it. The next `background_other_threads` resets it.

## Model

| member | source | states |
|---|---|---|
| TextOps.SplitLines | lib/infopark/user_io.rb:77 | `split("\n", -1)` gives no lines exactly for the empty string |
| TextOps.PiecesJoin | lib/infopark/user_io.rb:77 | joining the split pieces with the separator gives the text back, and no piece contains the separator |
| TextOps.JoinPieces | lib/infopark/user_io.rb:77 | the converse: separator-free pieces, joined and split again, come back unchanged |
| TextOps.Chomp | lib/infopark/user_io.rb:174 | `chomp` removes exactly one of "\r\n", "\n", "\r" at the end, and nothing when the text ends in neither break |
| TextOps.Chop | lib/infopark/user_io.rb:93 | `chop!` removes a trailing "\r\n" as a whole, otherwise the last character, and leaves "" alone |
| TextOps.Inject | lib/infopark/user_io.rb:94 | the boundary is added once per carriage return or line feed, so the result is that many boundaries longer, and it starts like the chunk |
| TextOps.InjectAppend | lib/infopark/user_io.rb:94 | injecting the boundary into a concatenation is injecting it into each part, so chunking does not change the injected bytes |
| TextOps.InjectEmpty | lib/infopark/user_io.rb:94 | with an empty boundary the substitution changes nothing |
| TextOps.InjectNoBreak | lib/infopark/user_io.rb:94 | text without carriage return or line feed passes the substitution unchanged |
| TextOps.StripInject | lib/infopark/user_io.rb:94 | removing the boundary after every break gives back the payload byte for byte |
| TextOps.JoinLinesInject | lib/infopark/user_io.rb:76-81 | joining the lines of a text with "\n" plus a boundary equals injecting the boundary after each line feed, for text without carriage return |
| Sgr.DecimalRoundTrip | lib/infopark/user_io.rb:302 | the decimal rendering of a parameter reads back as the same number |
| Sgr.CollectParameters | lib/infopark/user_io.rb:312-340 | the parameter array text_color builds is weight, italic, underline, hue, each present only when its option is given, with the source's codes 1/2/22, 3/23, 4/24, 31-37/39; at most four parameters |
| Sgr.TextColor | lib/infopark/user_io.rb:310-341 | no sequence exactly when neither `color` nor `bright` is given, otherwise a string starting with CSI and ending in the final byte `m` |
| Sgr.ComputeColor | lib/infopark/user_io.rb:291-299 | no colour off a terminal or when text_color gives none; otherwise prefix and postfix both present, the prefix is text_color's sequence and the postfix is `ESC [22;39m` |
| Sgr.ResetSequence | lib/infopark/user_io.rb:295 | `text_color(color: :none, bright: false)` is `ESC [22;39m` |
| Sgr.ParametersRoundTrip | lib/infopark/user_io.rb:301-303 | the `;`-joined parameter list parses back to the same list |
| Sgr.ControlSequence | lib/infopark/user_io.rb:301-303 | the sequence starts with CSI (`ESC [`) and ends with the final characters (what the bytes between decode to: ParametersRoundTrip) |
| Sgr.SgrSequence | lib/infopark/user_io.rb:306-308 | an SGR sequence is at least three characters long, starts with CSI and ends in the final byte `m` |
| Sgr.SgrRoundTrip | lib/infopark/user_io.rb:301-308 | decoding an SGR sequence built by sgr_sequence gives back its parameters |
| Sgr.SgrParameters | lib/infopark/user_io.rb:312-340 | at most four parameters, all among 1, 2, 22, 3, 23, 4, 24, 31-37, 39; none exactly when no weight, italic or underline option and no recognised colour is given |
| Sgr.WeightDisplay | lib/infopark/user_io.rb:313-315 | the weight parameter sets bold when `bright`, else faint when `faint`, else normal intensity when either is given, and nothing otherwise |
| Sgr.ItalicDisplay | lib/infopark/user_io.rb:316-318 | the italic parameter switches italics on or off as requested, and only when requested |
| Sgr.UnderlineDisplay | lib/infopark/user_io.rb:319-321 | the underline parameter switches underlining on or off as requested, and only when requested |
| Sgr.HueDisplay | lib/infopark/user_io.rb:322-339 | each named hue selects its ECMA-48 palette entry, `:none` the default colour, and any other colour changes nothing |
| Sgr.ParametersDisplay | lib/infopark/user_io.rb:310-341 | applying the collected parameters yields exactly the requested rendition: each given option takes effect and every attribute not mentioned is kept |
| Sgr.TextColorDisplay | lib/infopark/user_io.rb:310-341 | a terminal reading text_color's sequence ends in the requested rendition, except for an unknown colour alone, whose empty sequence resets everything |
| Sgr.PostfixDisplay | lib/infopark/user_io.rb:295 | the postfix restores normal intensity and the default colour and keeps italics and underline |
| Sgr.ColorPairDisplay | lib/infopark/user_io.rb:291-299 | prefix then postfix leaves the terminal at normal intensity and default colour, whatever the prefix set |
| Framing.LinesOfLeaf | lib/infopark/user_io.rb:77 | the lines of a single string are its `split("\n", -1)` |
| Framing.PlainColors | lib/infopark/user_io.rb:291-299 | without colour options compute_color yields neither prefix nor postfix |
| Framing.TellWrites | lib/infopark/user_io.rb:76-81 | tell makes one write per line, or one for no lines, and the last write ends in a line feed when `newline` is given; write i is line i (nil, i.e. "", when there are none) with a line feed unless it is the last, which takes the caller's `newline`, and with the prefix unless the context was line-pending and i is 0 (unfolded for the loop by the helpers TellWritesAt and TellWritesLast) |
| Framing.AppendWrites | lib/infopark/user_io.rb:173-175 | `<<` makes one write per line of the chomped message, or one when it is empty, and the last write ends in a line feed when the message did |
| Framing.TellWritesCons | lib/infopark/user_io.rb:79 | after the first line the context is no longer line-pending, so every later line carries the prefix |
| Framing.TellOutput | lib/infopark/user_io.rb:76-81 | what tell shows: prefix unless pending, colour, the lines joined by postfix, line feed, prefix and colour, then postfix and the optional line feed |
| Framing.TellTransparent | lib/infopark/user_io.rb:76-81 | without prefix and colour, tell shows the text unchanged, plus a line feed when `newline` |
| Framing.TellPrefixesEveryLine | lib/infopark/user_io.rb:265-273 | without colour, tell shows the prefix before the first line (unless line-pending) and after every line feed |
| Framing.AppendTransparent | lib/infopark/user_io.rb:173-175 | `<<` without prefix shows the message unchanged, when it ends neither in a carriage return nor in "\r\n" |
| Framing.AppendDropsCarriageReturn | lib/infopark/user_io.rb:173-175 | `<<` of "a\r" shows "a" and `<<` of "a\r\n" shows "a\n": the carriage return is lost |
| Framing.RelayNext | lib/infopark/user_io.rb:89-96 | the loop's state after chunk i is one more pass over the state before it |
| Framing.RelayStepEmpty | lib/infopark/user_io.rb:91 | an empty chunk writes nothing and keeps the held-back line feed |
| Framing.RelayIgnoresEmptyChunk | lib/infopark/user_io.rb:89-96 | removing an empty chunk anywhere from the stream changes neither the writes nor the final state |
| Framing.ChunkShows | lib/infopark/user_io.rb:91-95 | one non-empty chunk shows the held-back line feed with the boundary, then the chunk with a final line ending removed as `chop!` removes it ("\r\n" as a whole, else the line feed), with the boundary after every break |
| Framing.RelayStepShows | lib/infopark/user_io.rb:89-96 | for a chunk not ending in "\r\n", one pass preserves the loop invariant: shown so far is the injected stream read so far minus its last line feed, and a line feed is held back exactly when that stream ends in one |
| Framing.RelayShows | lib/infopark/user_io.rb:87-97 | the whole loop shows the stream with the boundary after every break except a final line feed, which it reports as still held back |
| Framing.PtyWrites | lib/infopark/user_io.rb:83-100 | tell_pty_stream's writes open with the output prefix (left out while line-pending) and the colour prefix, and close with the colour postfix |
| Framing.PtyOutput | lib/infopark/user_io.rb:83-100 | tell_pty_stream shows prefix unless line-pending, colour, the injected stream, the held-back line feed bare, and the reset |
| Framing.PtyOutputPlain | lib/infopark/user_io.rb:83-100 | without colour, the same with the output prefix as the boundary |
| Framing.PtyTransparent | lib/infopark/user_io.rb:83-100 | without prefix and colour the relay shows the stream unchanged |
| Framing.RelayKeepsPayload | lib/infopark/user_io.rb:93-95 | stripping the boundaries from what the loop wrote gives back the stream without its held-back line feed |
| Framing.RelayDropsCarriageReturn | lib/infopark/user_io.rb:93 | a chunk "a\r\n" shows "a", while "a\r" followed by "\n" keeps the carriage return |
| Framing.NoColorBoundary | lib/infopark/user_io.rb:88 | without colour the boundary is the output prefix |
| Framing.PtyOneChunk | lib/infopark/user_io.rb:83-100 | one chunk without carriage return or final line feed is shown with the prefix after each line feed |
| Framing.TellMatchesRelay | lib/infopark/user_io.rb:76-100 | telling a text and relaying it as one chunk show the same, without colour, for text without carriage return and final line feed |
| Framing.YellowColors | lib/infopark/user_io.rb:291-341 | on a terminal, `color: :yellow` gives prefix `ESC [33m` and postfix `ESC [22;39m` |
| Framing.StepOfLine | lib/infopark/user_io.rb:91-95 | a chunk that is one line is written without its line feed, which is held back |
| Framing.StepAcrossBreak | lib/infopark/user_io.rb:91-95 | after a held-back line feed, a chunk with an inner line feed writes that line feed with the boundary, then the chunk with the boundary injected |
| Framing.RelayExampleState | lib/infopark/user_io.rb:87-97 | for chunks "x\n", "y\nz", "", "w\n", "", the loop writes x, "\n"+boundary, "y\n"+boundary+"z", w, and ends holding a line feed back |
| Framing.RelayExample | spec/user_io_spec.rb:455-470 | the relay of "data\n", "in\nchunks", "", "yo\n", "" in colour with prefix "[foo] " is, write by write, the sequence the specification expects |
| Framing.YellowRelayExample | spec/user_io_spec.rb:455-470 | the same relay in `color: :yellow` on a terminal, with the literal escape sequences `ESC [33m` and `ESC [22;39m` |
| UserIo.PendingFlags.With | lib/infopark/user_io.rb:287-289 | setting the flag of one context leaves the other context's flag unchanged |
| UserIo.UserIO.constructor | lib/infopark/user_io.rb:64-74 | a string label gives the prefix "[label] ", none gives ""; nothing pending, no owner, nothing written |
| UserIo.UserIO.Background | lib/infopark/user_io.rb:247-249 | the caller writes directly exactly when no thread owns the foreground or the caller owns it |
| UserIo.UserIO.LinePending | lib/infopark/user_io.rb:283-285 | threads that write directly read the foreground context's flag, threads held back the background context's flag |
| UserIo.UserIO.WriteRaw | lib/infopark/user_io.rb:275-281 | one write, to STDOUT unless another thread owns the foreground, in which case it is appended to the buffer |
| UserIo.UserIO.SetLinePending | lib/infopark/user_io.rb:287-289 | sets the flag of the caller's context only |
| UserIo.UserIO.TellLine | lib/infopark/user_io.rb:265-273 | one write of prefix (suppressed while line-pending), colour, line, reset and optional line feed; the context is line-pending afterwards exactly when no line feed was written |
| UserIo.UserIO.TellEach | lib/infopark/user_io.rb:79 | every line but the last, each told with a line feed: its writes are TellWrites of those lines with `newline`, after which the context is not line-pending; nothing changes when there are none |
| UserIo.UserIO.Tell | lib/infopark/user_io.rb:76-81 | its writes are exactly TellWrites of the flattened, split texts, routed to STDOUT or the buffer; line-pending afterwards exactly when `newline` is false |
| UserIo.UserIO.Append | lib/infopark/user_io.rb:173-175 | `<<` tells the chomped message with a line feed exactly when the message ended in one |
| UserIo.UserIO.Warn | lib/infopark/user_io.rb:102-104 | warn is tell in bright yellow |
| UserIo.UserIO.RelayChunk | lib/infopark/user_io.rb:91-95 | one pass of the loop writes ChunkWrites and returns whether a line feed is now held back, keeping the old flag for an empty chunk |
| UserIo.UserIO.RelayStream | lib/infopark/user_io.rb:87-96 | the loop writes exactly the writes of Relay and returns its held-back flag |
| UserIo.UserIO.TellPtyStream | lib/infopark/user_io.rb:83-100 | its writes are exactly PtyWrites, routed to STDOUT or the buffer; afterwards the caller's context is not line-pending |
| UserIo.UserIO.BackgroundOtherThreads | lib/infopark/user_io.rb:156-161 | without an owner, the caller becomes the owner with an empty buffer; with one, nothing changes |
| UserIo.UserIO.Foreground | lib/infopark/user_io.rb:163-171 | with an owner, the buffer is written to STDOUT in order, the owner is cleared, and the foreground context takes over the background context's flag, which becomes false; without one, nothing changes |
| UserIo.SpinFrame | lib/infopark/user_io.rb:47 | a frame is one spinner character followed by a backspace |
| UserIo.SpinFrameCycle | lib/infopark/user_io.rb:45-49 | the frames run "-", "\\", "\|", "/" and repeat with period four |
| UserIo.PendingTell | lib/infopark/user_io.rb:33 | after start, a dot or frame told without line feed and colour is written alone, with no prefix |
| UserIo.SpinWrites | lib/infopark/user_io.rb:45-49 | a spin after start writes exactly its frame |
| UserIo.Progress.constructor | lib/infopark/user_io.rb:17-21 | a new progress keeps label and UserIO and is not started |
| UserIo.Progress.Start | lib/infopark/user_io.rb:23-29 | tells the label and a space without line feed, marks started and resets the spinner; nothing when already started |
| UserIo.Progress.Increment | lib/infopark/user_io.rb:31-35 | fails with "progress not started yet" and writes nothing unless started; otherwise tells "." and resets the spinner |
| UserIo.Progress.Spin | lib/infopark/user_io.rb:45-49 | fails unless started; otherwise tells the current frame and advances the spinner by one |
| UserIo.Progress.Finish | lib/infopark/user_io.rb:37-43 | when started, tells "… " without line feed, then "OK" in bright green with one, and is no longer started; otherwise nothing |

The methods `HoldBackExample`, `NotStartedExample`, `SpinExample` and
`IncrementExample` in `user_io.dfy` restate four scenarios as assertions over
the classes:
- the background relay of spec/user_io_spec.rb:455-470, for any style and chunks (`YellowRelayExample` gives the writes of that test's chunks);
- the not-started failures of spec/progress_spec.rb:43-46 and 105-108;
- the spinner running through its frames after start;
- the spinner restarting after an increment.

## Left out

- Reading from STDIN: `read_line`, `ask`, `listen`, `acknowledge`, `confirm`, `select` and `wait_for_foreground` need a keyboard and a clock. They are not part of this model.
- `edit_file`: it runs an external editor on a file.
- `tell_error`: it formats a Ruby exception and its backtrace.
- `new_progress` and `start_progress`: they are one-line constructors. The model builds a Progress with `new Progress(label, io)` and calls `Start`.
- Output prefixes given as a Proc, a Method or `:timestamp`: they are computed by calling code or the clock at every write. Only a string label or none is modelled.
- `tty?`: it asks the operating system. It is the constant field `tty`, fixed at construction.
- TextOps.Inject / Framing.ChunkWrites: the boundary is inserted literally. Ruby's `gsub` reads backslash escapes in its replacement string (`\0`-`\9`, `\&`, `` \` ``, `\'`, `\+`, `\\`), so a label containing one of them makes the source write other bytes (the colour sequences contain no backslash). With `` \` `` or `\'` those bytes even depend on how the stream is chunked, which `InjectAppend`, `RelayShows` and `PtyOutput` do not capture. The held-back line feed at lib/infopark/user_io.rb:92 is written with the boundary taken literally in both source and model. For labels without a backslash, source and model write the same bytes.
- `lib/infopark/user_io/global.rb` (the process-wide instance): it is not part of this model.
- `to_s` of non-string texts: texts are strings, possibly nested in arrays (`Text`).
- Threads and interleaving: each operation runs as one atomic step, and the calling thread is a parameter. The source takes no locks, so concurrent calls can interleave inside `tell` in ways the model does not show.
- `stream.eof?` and `read_nonblock(100)`: the stream is the sequence of chunks it yields. The 100-byte limit, blocking and I/O errors are not modelled.
- TextOps.Inject / UserIo.UserIO.TellPtyStream: chunks are modelled as characters, not bytes, so string encodings are not modelled. `read_nonblock` returns binary (ASCII-8BIT) strings while the boundary built at lib/infopark/user_io.rb:88 is UTF-8. For a label with a non-ASCII character and a chunk holding a non-ASCII byte and a carriage return or line feed, `gsub!` at lib/infopark/user_io.rb:94 raises Encoding::CompatibilityError. The source then leaves tell_pty_stream without writing the colour reset or clearing the line-pending flag. The model writes the whole stream, as the source does for ASCII labels or ASCII streams (RelayChunk, RelayStream and TellPtyStream included).
- `ImplementationError`: the exception from `increment` and `spin` is the result `Fail("progress not started yet")`.
- Framing.PtyOutput: it states the screen output only for streams whose chunks do not end in "\r\n". For a chunk that ends in "\r\n", `chop!` drops its carriage return, and Framing.RelayDropsCarriageReturn shows that case. The write-by-write contract of UserIo.UserIO.TellPtyStream holds for every stream.
- Framing.PtyOutputPlain, Framing.PtyTransparent, Framing.RelayShows, Framing.RelayStepShows, Framing.RelayKeepsPayload: the same restriction to streams whose chunks do not end in "\r\n".
- Framing.TellPrefixesEveryLine and TextOps.JoinLinesInject: stated for text without carriage returns, because tell does not prefix after a carriage return.
- Framing.AppendTransparent: stated for messages that end neither in a carriage return nor in "\r\n", since `chomp` drops the carriage return of both. Framing.AppendDropsCarriageReturn shows the two other cases.
