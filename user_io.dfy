/** The output engine: class UserIO with its output prefix, terminal flag,
    line-pending flags per context, foreground owner and background buffer,
    and class Progress, the spinner built on `tell`. STDOUT is a ghost log of
    the strings written to it, one entry per `write` call; the calling thread
    is a parameter of every operation that depends on it. */
module UserIo {
  import opened TextOps
  import opened Sgr
  import opened Framing

  type ThreadId = nat

  /** `@line_pending`: a hash whose only keys are the two values of
      `background?`; a missing key is nil, which Ruby reads as false. */
  datatype PendingFlags = PendingFlags(foreground: bool, background: bool)
  {
    /** The flag stored for a context. */
    function At(ctx: bool): bool
    {
      if ctx then background else foreground
    }

    /** The hash with the flag of one context replaced. */
    function With(ctx: bool, value: bool): (r: PendingFlags)
      ensures r.At(ctx) == value && r.At(!ctx) == At(!ctx)
    {
      if ctx then this.(background := value) else this.(foreground := value)
    }
  }

  const NoPending := PendingFlags(false, false)

  /** Writes `w` went, in order, to STDOUT (`toData` false) or to the
      background buffer (`toData` true), and the other one did not change. */
  ghost predicate Appended(toData: bool, stdout: seq<string>, data: seq<string>,
                           stdout0: seq<string>, data0: seq<string>, w: seq<string>)
  {
    if toData then data == data0 + w && stdout == stdout0 else stdout == stdout0 + w && data == data0
  }

  lemma AppendedChain(toData: bool, s0: seq<string>, d0: seq<string>, s1: seq<string>, d1: seq<string>,
                      s2: seq<string>, d2: seq<string>, w1: seq<string>, w2: seq<string>)
    requires Appended(toData, s1, d1, s0, d0, w1) && Appended(toData, s2, d2, s1, d1, w2)
    ensures Appended(toData, s2, d2, s0, d0, w1 + w2)
  {
    assert s0 + w1 + w2 == s0 + (w1 + w2);
    assert d0 + w1 + w2 == d0 + (w1 + w2);
  }

  lemma AppendedLast(toData: bool, s0: seq<string>, d0: seq<string>, s1: seq<string>, d1: seq<string>,
                     s2: seq<string>, d2: seq<string>, w: seq<string>, i: nat)
    requires i + 1 == |w|
    requires Appended(toData, s1, d1, s0, d0, w[..i]) && Appended(toData, s2, d2, s1, d1, [w[i]])
    ensures Appended(toData, s2, d2, s0, d0, w)
  {
    AppendedChain(toData, s0, d0, s1, d1, s2, d2, w[..i], [w[i]]);
    assert w[..i] + [w[i]] == w;
  }

  lemma WithTwice(f: PendingFlags, ctx: bool, a: bool, b: bool)
    ensures f.With(ctx, a).With(ctx, b) == f.With(ctx, b)
  {
  }

  class UserIO {
    /** `output_prefix`: "[label] " for a string label, "" when unset. */
    const outputPrefix: string
    /** `tty?`: whether STDOUT is a terminal. */
    const tty: bool
    /** `@line_pending`, keyed by `background?` of the writer. */
    var linePending: PendingFlags
    /** `@foreground_thread`: the one thread that writes directly while set. */
    var foregroundThread: Option<ThreadId>
    /** `@background_data`: the writes of other threads, held back. */
    var backgroundData: seq<string>
    /** Everything written to STDOUT, one entry per write. */
    ghost var stdout: seq<string>

    constructor (name: Option<string>, tty: bool)
      ensures outputPrefix == (if name.Some? then "[" + name.value + "] " else "")
      ensures this.tty == tty
      ensures linePending == NoPending && foregroundThread == None
      ensures backgroundData == [] && stdout == []
    {
      outputPrefix := if name.Some? then "[" + name.value + "] " else "";
      this.tty := tty;
      linePending := NoPending;
      foregroundThread := None;
      backgroundData := [];
      stdout := [];
    }

    /** `background?`: another thread owns the foreground. The caller
        writes directly exactly when nobody owns it or the caller does. */
    predicate Background(caller: ThreadId): (b: bool)
      reads this`foregroundThread
      ensures !b <==> foregroundThread.None? || foregroundThread == Some(caller)
    {
      foregroundThread.Some? && foregroundThread.value != caller
    }

    /** `line_pending?`: the caller's context was left mid-line. Every
        thread that writes directly shares the foreground flag; all threads
        held back share the background one. */
    predicate LinePending(caller: ThreadId): (r: bool)
      reads this`foregroundThread, this`linePending
      ensures foregroundThread.None? || foregroundThread == Some(caller) ==> (r <==> linePending.foreground)
      ensures foregroundThread.Some? && foregroundThread != Some(caller) ==> (r <==> linePending.background)
    {
      linePending.At(Background(caller))
    }

    /** The writes `w` of `caller` went, in order, to STDOUT when it writes
        directly and to the background buffer otherwise; the other one did
        not change. */
    ghost predicate Wrote(caller: ThreadId, stdout0: seq<string>, data0: seq<string>, w: seq<string>)
      reads this
    {
      Appended(Background(caller), stdout, backgroundData, stdout0, data0, w)
    }

    /** After one output operation of `caller`: the owner is unchanged, the
        writes `w` went where the caller's writes go, and the caller's
        context is line-pending exactly as `pendingAfter` says. */
    ghost predicate Told(caller: ThreadId, stdout0: seq<string>, data0: seq<string>, pending0: PendingFlags,
                         owner0: Option<ThreadId>, w: seq<string>, pendingAfter: bool)
      reads this
    {
      foregroundThread == owner0 && Wrote(caller, stdout0, data0, w)
      && linePending == pending0.With(Background(caller), pendingAfter)
    }

    /** `write_raw`: straight to STDOUT, unless another thread owns the
        foreground, in which case the bytes join the background buffer. */
    method WriteRaw(caller: ThreadId, bytes: string)
      modifies this`backgroundData, this`stdout
      ensures Wrote(caller, old(stdout), old(backgroundData), [bytes])
    {
      if Background(caller) {
        backgroundData := backgroundData + [bytes];
      } else {
        stdout := stdout + [bytes];
      }
    }

    /** `line_pending!`: sets the flag of the caller's context only. */
    method SetLinePending(caller: ThreadId, value: bool)
      modifies this`linePending
      ensures linePending == old(linePending).With(Background(caller), value)
    {
      linePending := linePending.With(Background(caller), value);
    }

    /** `tell_line`: one write of the line framed by prefix and colour; the
        prefix is suppressed while the context is line-pending, and the
        context is line-pending afterwards exactly when no line feed was
        written. */
    method TellLine(caller: ThreadId, line: string, newline: bool, prefix: bool, style: Style)
      modifies this`backgroundData, this`stdout, this`linePending
      ensures Told(caller, old(stdout), old(backgroundData), old(linePending), old(foregroundThread),
                   [RenderLine(prefix && !old(LinePending(caller)), outputPrefix, ComputeColor(tty, style), line, newline)],
                   !newline)
    {
      var colors := ComputeColor(tty, style);
      var showPrefix := prefix && !LinePending(caller);
      var outLine := RenderLine(showPrefix, outputPrefix, colors, line, newline);
      WriteRaw(caller, outLine);
      SetLinePending(caller, !newline);
    }

    /** `lines[0...-1].each { |line| tell_line(line, ...) }`: every line
        with a line feed; nothing changes when there are none. */
    method TellEach(caller: ThreadId, lines: seq<string>, prefix: bool, style: Style)
      modifies this`backgroundData, this`stdout, this`linePending
      ensures lines == [] ==> stdout == old(stdout) && backgroundData == old(backgroundData)
                              && linePending == old(linePending)
      ensures lines != [] ==>
                Told(caller, old(stdout), old(backgroundData), old(linePending), old(foregroundThread),
                     TellWrites(old(LinePending(caller)), prefix, outputPrefix, ComputeColor(tty, style), lines, true),
                     false)
    {
      ghost var toData := Background(caller);
      ghost var S, D, L := stdout, backgroundData, linePending;
      ghost var pending0 := LinePending(caller);
      ghost var colors := ComputeColor(tty, style);
      ghost var w := TellWrites(pending0, prefix, outputPrefix, colors, lines, true);
      var i := 0;
      while i < |lines|
        invariant 0 <= i <= |lines| && (lines != [] ==> |w| == |lines|)
        invariant foregroundThread == old(foregroundThread)
        invariant Appended(toData, stdout, backgroundData, S, D, w[..i])
        invariant linePending == if i == 0 then L else L.With(toData, false)
      {
        ghost var s0, d0 := stdout, backgroundData;
        ghost var p0 := LinePending(caller);
        assert p0 == (pending0 && i == 0);
        TellWritesAt(pending0, prefix, outputPrefix, colors, lines, true, i);
        ghost var line := RenderLine(prefix && !p0, outputPrefix, colors, lines[i], true);
        assert w[i] == line;
        TellLine(caller, lines[i], true, prefix, style);
        assert Appended(toData, stdout, backgroundData, s0, d0, [line]);
        AppendedChain(toData, S, D, s0, d0, stdout, backgroundData, w[..i], [w[i]]);
        TakeSnoc(w, i);
        WithTwice(L, toData, false, false);
        i := i + 1;
      }
      assert lines != [] ==> w[..i] == w;
    }

    /** `tell`: every line of the flattened, split texts through tell_line,
        all but the last with a line feed, the last (nil, an empty line, when
        there are none) with the caller's `newline`. */
    method Tell(caller: ThreadId, texts: seq<Text>, newline: bool, prefix: bool, style: Style)
      modifies this`backgroundData, this`stdout, this`linePending
      ensures Told(caller, old(stdout), old(backgroundData), old(linePending), old(foregroundThread),
                   TellWrites(old(LinePending(caller)), prefix, outputPrefix, ComputeColor(tty, style), Lines(texts), newline),
                   !newline)
    {
      var lines := Lines(texts);
      ghost var toData := Background(caller);
      ghost var S, D, L := stdout, backgroundData, linePending;
      ghost var pending0 := LinePending(caller);
      ghost var colors := ComputeColor(tty, style);
      ghost var w := TellWrites(pending0, prefix, outputPrefix, colors, lines, newline);
      var n := if |lines| == 0 then 0 else |lines| - 1;
      var last := if |lines| == 0 then "" else lines[n];
      TellWritesLast(pending0, prefix, outputPrefix, colors, lines, newline, n);
      if n == 0 {
        TellEach(caller, lines[..n], prefix, style);
        assert w == [RenderLine(prefix && !pending0, outputPrefix, colors, last, newline)];
        TellLine(caller, last, newline, prefix, style);
      } else {
        TellWritesInit(pending0, prefix, outputPrefix, colors, lines, newline);
        TellEach(caller, lines[..n], prefix, style);
        ghost var s1, d1 := stdout, backgroundData;
        assert Appended(toData, s1, d1, S, D, w[..n]);
        assert linePending == L.With(toData, false);
        assert !LinePending(caller);
        ghost var line := RenderLine(prefix, outputPrefix, colors, last, newline);
        assert w[n] == line;
        TellLine(caller, last, newline, prefix, style);
        assert Appended(toData, stdout, backgroundData, s1, d1, [line]);
        AppendedLast(toData, S, D, s1, d1, stdout, backgroundData, w, n);
        WithTwice(L, toData, false, !newline);
      }
    }

    /** `<<`: the message without its line ending, with a line feed exactly
        when it ended in one. */
    method Append(caller: ThreadId, msg: string)
      modifies this`backgroundData, this`stdout, this`linePending
      ensures Told(caller, old(stdout), old(backgroundData), old(linePending), old(foregroundThread),
                   AppendWrites(old(LinePending(caller)), outputPrefix, msg), !EndsWith(msg, "\n"))
    {
      LinesOfLeaf(Chomp(msg));
      PlainColors(tty);
      Tell(caller, [Leaf(Chomp(msg))], EndsWith(msg, "\n"), true, Plain);
    }

    /** `warn`: tell in bright yellow. */
    method Warn(caller: ThreadId, texts: seq<Text>)
      modifies this`backgroundData, this`stdout, this`linePending
      ensures Told(caller, old(stdout), old(backgroundData), old(linePending), old(foregroundThread),
                   TellWrites(old(LinePending(caller)), true, outputPrefix,
                              ComputeColor(tty, Style(Some(Yellow), Some(true), None, None, None)), Lines(texts), true),
                   false)
    {
      Tell(caller, texts, true, true, Style(Some(Yellow), Some(true), None, None, None));
    }

    /** One pass of tell_pty_stream's loop: an empty chunk is skipped;
        otherwise a held-back line feed goes out with the boundary, a final
        line feed is chopped and held back, and the chunk goes out with the
        boundary after every carriage return and line feed. */
    method RelayChunk(caller: ThreadId, chunk: string, nlPending: bool, boundary: string) returns (nl: bool)
      modifies this`backgroundData, this`stdout
      ensures Wrote(caller, old(stdout), old(backgroundData), ChunkWrites(nlPending, chunk, boundary))
      ensures nl == if chunk == "" then nlPending else EndsWith(chunk, "\n")
    {
      if chunk == "" {
        assert old(stdout) + [] == stdout && old(backgroundData) + [] == backgroundData;
        return nlPending;
      }
      ghost var lead := if nlPending then ["\n" + boundary] else [];
      if nlPending {
        WriteRaw(caller, "\n" + boundary);
      }
      ghost var s1, d1 := stdout, backgroundData;
      nl := EndsWith(chunk, "\n");
      var data := chunk;
      if nl {
        data := Chop(data);
      }
      data := Inject(data, boundary);
      WriteRaw(caller, data);
      AppendedChain(Background(caller), old(stdout), old(backgroundData), s1, d1, stdout, backgroundData, lead, [data]);
    }

    /** The loop of tell_pty_stream, until end of stream: each chunk read
        goes through RelayChunk, and the line feed still held back at the
        end is reported. */
    method RelayStream(caller: ThreadId, chunks: seq<string>, boundary: string) returns (nlPending: bool)
      modifies this`backgroundData, this`stdout
      ensures Wrote(caller, old(stdout), old(backgroundData), Relay(chunks, boundary).writes)
      ensures nlPending == Relay(chunks, boundary).nlPending
    {
      ghost var toData := Background(caller);
      ghost var S, D := stdout, backgroundData;
      nlPending := false;
      var i := 0;
      while i < |chunks|
        invariant 0 <= i <= |chunks|
        invariant Appended(toData, stdout, backgroundData, S, D, Relay(chunks[..i], boundary).writes)
        invariant nlPending == Relay(chunks[..i], boundary).nlPending
      {
        ghost var before := Relay(chunks[..i], boundary);
        ghost var s1, d1 := stdout, backgroundData;
        RelayNext(chunks, i, boundary);
        nlPending := RelayChunk(caller, chunks[i], nlPending, boundary);
        AppendedChain(toData, S, D, s1, d1, stdout, backgroundData, before.writes,
                      ChunkWrites(before.nlPending, chunks[i], boundary));
        i := i + 1;
      }
      assert chunks[..i] == chunks;
    }

    /** `tell_pty_stream`: relays the chunks read until end of stream,
        injecting the boundary after every carriage return and line feed and
        holding a trailing line feed back until more data arrives. */
    method TellPtyStream(caller: ThreadId, chunks: seq<string>, style: Style)
      modifies this`backgroundData, this`stdout, this`linePending
      ensures Told(caller, old(stdout), old(backgroundData), old(linePending), old(foregroundThread),
                   PtyWrites(old(LinePending(caller)), outputPrefix, ComputeColor(tty, style), chunks), false)
    {
      var colors := ComputeColor(tty, style);
      ghost var toData := Background(caller);
      ghost var S, D := stdout, backgroundData;
      ghost var opening := if LinePending(caller) then [] else [outputPrefix];
      if !LinePending(caller) {
        WriteRaw(caller, outputPrefix);
      }
      ghost var s1, d1 := stdout, backgroundData;
      WriteRaw(caller, Str(colors.prefix));
      AppendedChain(toData, S, D, s1, d1, stdout, backgroundData, opening, [Str(colors.prefix)]);
      ghost var head := opening + [Str(colors.prefix)];
      var boundary := Boundary(colors, outputPrefix);
      ghost var s2, d2 := stdout, backgroundData;
      var nlPending := RelayStream(caller, chunks, boundary);
      ghost var relayed := Relay(chunks, boundary).writes;
      AppendedChain(toData, S, D, s2, d2, stdout, backgroundData, head, relayed);
      ghost var tail := if nlPending then ["\n"] else [];
      ghost var s3, d3 := stdout, backgroundData;
      if nlPending {
        WriteRaw(caller, "\n");
      }
      AppendedChain(toData, S, D, s3, d3, stdout, backgroundData, head + relayed, tail);
      ghost var s4, d4 := stdout, backgroundData;
      WriteRaw(caller, Str(colors.postfix));
      AppendedChain(toData, S, D, s4, d4, stdout, backgroundData, head + relayed + tail, [Str(colors.postfix)]);
      SetLinePending(caller, false);
    }

    /** `background_other_threads`: makes the caller the foreground owner
        with an empty buffer, unless an owner is already set. */
    method BackgroundOtherThreads(caller: ThreadId)
      modifies this`backgroundData, this`foregroundThread
      ensures old(foregroundThread).Some? ==>
                foregroundThread == old(foregroundThread) && backgroundData == old(backgroundData)
      ensures old(foregroundThread).None? ==> foregroundThread == Some(caller) && backgroundData == []
    {
      if foregroundThread.None? {
        backgroundData := [];
        foregroundThread := Some(caller);
      }
    }

    /** `foreground`: when an owner is set, writes the held-back data to
        STDOUT in order, clears the owner and hands the background context's
        line-pending flag over to the foreground context. */
    method Foreground()
      modifies this`stdout, this`foregroundThread, this`linePending
      ensures old(foregroundThread).None? ==>
                stdout == old(stdout) && foregroundThread == None && linePending == old(linePending)
      ensures old(foregroundThread).Some? ==>
                && stdout == old(stdout) + backgroundData
                && foregroundThread == None
                && linePending == PendingFlags(old(linePending).background, false)
    {
      if foregroundThread.Some? {
        var k := 0;
        while k < |backgroundData|
          invariant 0 <= k <= |backgroundData|
          invariant stdout == old(stdout) + backgroundData[..k]
          invariant linePending == old(linePending) && foregroundThread == old(foregroundThread)
        {
          stdout := stdout + [backgroundData[k]];
          assert backgroundData[..k + 1] == backgroundData[..k] + [backgroundData[k]];
          k := k + 1;
        }
        assert backgroundData[..k] == backgroundData;
        foregroundThread := None;
        linePending := linePending.With(false, linePending.At(true));
        linePending := linePending.With(true, false);
      }
    }
  }

  /** A relay by a background thread, in any style and over any chunks, is
      held back entirely while another thread owns the foreground and comes
      out, write by write, when that thread calls foreground.
      Framing.YellowRelayExample gives those writes for the chunks of the
      library's own test. */
  method HoldBackExample(style: Style, chunks: seq<string>)
  {
    var io := new UserIO(Some("foo"), true);
    assert io.outputPrefix == "[foo] ";
    io.BackgroundOtherThreads(1);
    assert io.Background(2) && !io.LinePending(2);
    ghost var w := PtyWrites(false, "[foo] ", ComputeColor(true, style), chunks);
    io.TellPtyStream(2, chunks, style);
    assert io.stdout == [] && io.backgroundData == [] + w;
    io.Foreground();
    assert io.stdout == w;
    assert io.linePending == NoPending && io.foregroundThread == None;
  }

  // -----------------------------------------------------------------------
  // Progress

  const Spinner := "-\\|/"

  /** What the n-th spin since start or the last increment writes. */
  function SpinFrame(n: nat): (r: string)
    ensures |r| == 2 && r[0] in Spinner && r[1] == '\U{8}'
  {
    [Spinner[n % |Spinner|], '\U{8}']
  }

  /** The spinner runs through "-", "\", "|", "/" and starts over. */
  lemma SpinFrameCycle(n: nat)
    ensures SpinFrame(n + 4) == SpinFrame(n)
    ensures SpinFrame(n) == ["-\U{8}", "\\\U{8}", "|\U{8}", "/\U{8}"][n % 4]
  {
  }

  /** Telling one line without line feed, uncoloured, while the context is
      line-pending (as start leaves it) writes nothing but that line: this is
      how increment's dot and spin's frames reach the terminal. */
  lemma PendingTell(p: string, s: string)
    requires '\n' !in s
    ensures TellWrites(true, true, p, NoColor, Lines([Leaf(s)]), false) == [s]
  {
    LinesOfLeaf(s);
    var ls := if s == "" then [] else [s];
    if s != "" {
      JoinPieces([s], '\n');
      assert JoinWith([s], "\n") == s;
    }
    assert SplitLines(s) == ls;
    TellWritesLast(true, true, p, NoColor, ls, false, 0);
    assert RenderLine(false, p, NoColor, s, false) == "" + "" + s + "" + "";
    DropEmptyEnds("", s, "");
    assert "" + s + "" == s;
  }

  /** A spin writes exactly its frame. */
  lemma SpinWrites(p: string, n: nat)
    ensures TellWrites(true, true, p, NoColor, Lines([Leaf(SpinFrame(n))]), false) == [SpinFrame(n)]
  {
    PendingTell(p, SpinFrame(n));
  }

  datatype Outcome = Pass | Fail(message: string)

  const NotStarted := "progress not started yet"

  /** `UserIO::Progress`: a label, dots for increments and a spinner. */
  class Progress {
    const caption: string
    const userIo: UserIO
    /** `@started`: between start and finish. */
    var started: bool
    /** `@spin_pos`: spins since start or the last increment. */
    var spinPos: nat

    constructor (caption: string, userIo: UserIO)
      ensures this.caption == caption && this.userIo == userIo
      ensures !started && spinPos == 0
    {
      this.caption := caption;
      this.userIo := userIo;
      started := false;
      spinPos := 0;
    }

    /** `start`: tells the label without line feed and resets the spinner;
        nothing when already started. */
    method Start(caller: ThreadId)
      modifies this, userIo
      ensures old(started) ==> started == old(started) && spinPos == old(spinPos) && unchanged(userIo)
      ensures !old(started) ==> started && spinPos == 0
      ensures !old(started) ==>
        userIo.Told(caller, old(userIo.stdout), old(userIo.backgroundData), old(userIo.linePending),
                    old(userIo.foregroundThread),
                    TellWrites(old(userIo.LinePending(caller)), true, userIo.outputPrefix,
                               ComputeColor(userIo.tty, Plain), Lines([Leaf(caption + " ")]), false),
                    true)
    {
      if !started {
        userIo.Tell(caller, [Leaf(caption + " ")], false, true, Plain);
        started := true;
        spinPos := 0;
      }
    }

    /** `increment`: a dot and a fresh spinner; fails unless started. */
    method Increment(caller: ThreadId) returns (r: Outcome)
      modifies this`spinPos, userIo
      ensures r == (if old(started) then Pass else Fail(NotStarted))
      ensures !old(started) ==> spinPos == old(spinPos) && unchanged(userIo)
      ensures old(started) ==> spinPos == 0
      ensures old(started) ==>
        userIo.Told(caller, old(userIo.stdout), old(userIo.backgroundData), old(userIo.linePending),
                    old(userIo.foregroundThread),
                    TellWrites(old(userIo.LinePending(caller)), true, userIo.outputPrefix,
                               ComputeColor(userIo.tty, Plain), Lines([Leaf(".")]), false),
                    true)
    {
      if !started {
        return Fail(NotStarted);
      }
      userIo.Tell(caller, [Leaf(".")], false, true, Plain);
      spinPos := 0;
      r := Pass;
    }

    /** `spin`: the next spinner frame and a backspace; fails unless started. */
    method Spin(caller: ThreadId) returns (r: Outcome)
      modifies this`spinPos, userIo
      ensures r == (if old(started) then Pass else Fail(NotStarted))
      ensures !old(started) ==> spinPos == old(spinPos) && unchanged(userIo)
      ensures old(started) ==> spinPos == old(spinPos) + 1
      ensures old(started) ==>
        userIo.Told(caller, old(userIo.stdout), old(userIo.backgroundData), old(userIo.linePending),
                    old(userIo.foregroundThread),
                    TellWrites(old(userIo.LinePending(caller)), true, userIo.outputPrefix,
                               ComputeColor(userIo.tty, Plain), Lines([Leaf(SpinFrame(old(spinPos)))]), false),
                    true)
    {
      if !started {
        return Fail(NotStarted);
      }
      userIo.Tell(caller, [Leaf(SpinFrame(spinPos))], false, true, Plain);
      spinPos := spinPos + 1;
      r := Pass;
    }

    /** `finish`: an ellipsis, then "OK" in bright green with a line feed;
        nothing when not started. */
    method Finish(caller: ThreadId)
      modifies this`started, userIo
      ensures !old(started) ==> !started && unchanged(userIo)
      ensures old(started) ==> !started
      ensures old(started) ==>
        userIo.Told(caller, old(userIo.stdout), old(userIo.backgroundData), old(userIo.linePending),
                    old(userIo.foregroundThread),
                    TellWrites(old(userIo.LinePending(caller)), true, userIo.outputPrefix,
                               ComputeColor(userIo.tty, Plain), Lines([Leaf("\U{2026} ")]), false)
                    + TellWrites(true, true, userIo.outputPrefix,
                                 ComputeColor(userIo.tty, Style(Some(Green), Some(true), None, None, None)),
                                 Lines([Leaf("OK")]), true),
                    false)
    {
      if started {
        userIo.Tell(caller, [Leaf("\U{2026} ")], false, true, Plain);
        userIo.Tell(caller, [Leaf("OK")], true, true, Style(Some(Green), Some(true), None, None, None));
        started := false;
      }
    }
  }

  /** A progress not started refuses to spin or count and writes nothing. */
  method NotStartedExample()
  {
    var io := new UserIO(None, false);
    var progress := new Progress("Working", io);
    var r0 := progress.Spin(0);
    var r1 := progress.Increment(0);
    assert r0 == r1 == Fail(NotStarted) && io.stdout == [];
  }

  /** After start the spinner runs through its frames. */
  method SpinExample()
  {
    var io := new UserIO(None, false);
    var progress := new Progress("Working", io);
    progress.Start(0);
    PlainColors(false);
    SpinWrites("", 0);
    SpinWrites("", 1);
    ghost var s0 := io.stdout;
    var r1 := progress.Spin(0);
    ghost var s1 := io.stdout;
    assert s1 == s0 + [SpinFrame(0)];
    var r2 := progress.Spin(0);
    assert io.stdout == s1 + [SpinFrame(1)];
    assert r1 == r2 == Pass;
    assert io.stdout == s0 + ["-\U{8}", "\\\U{8}"] by {
      SpinFrameCycle(0);
      SpinFrameCycle(1);
    }
  }

  /** An increment writes its dot and starts the spinner over. */
  method IncrementExample()
  {
    var io := new UserIO(None, false);
    var progress := new Progress("Working", io);
    progress.Start(0);
    PlainColors(false);
    SpinWrites("", 0);
    PendingTell("", ".");
    ghost var s0 := io.stdout;
    var r1 := progress.Spin(0);
    ghost var s1 := io.stdout;
    assert s1 == s0 + [SpinFrame(0)];
    var r2 := progress.Increment(0);
    ghost var s2 := io.stdout;
    assert s2 == s1 + ["."];
    var r3 := progress.Spin(0);
    assert io.stdout == s2 + [SpinFrame(0)];
    assert r1 == r2 == r3 == Pass;
  }
}
