/** The writes that tell_line, tell, `<<` and tell_pty_stream hand to
    write_raw, as functions of the engine's state (the output prefix and the
    caller's line-pending flag) and of their arguments, and what those writes
    show on the terminal once concatenated. */
module Framing {
  import opened TextOps
  import opened Sgr

  /** A possibly nil string as Ruby writes or interpolates it: nil adds
      nothing. */
  function Str(o: Option<string>): string
  {
    if o.Some? then o.value else ""
  }

  const NoColor := ColorPair(None, None)

  // ---------------------------------------------------------------------
  // tell_line, tell and <<

  /** One argument of tell: a string or an array of further arguments. */
  datatype Text = Leaf(s: string) | Items(items: seq<Text>)

  /** `texts.flatten`: the strings in the order they appear. */
  function Flatten(ts: seq<Text>): seq<string>
    decreases ts
  {
    if ts == [] then []
    else
      (match ts[0]
       case Leaf(s) => [s]
       case Items(items) => Flatten(items)) + Flatten(ts[1..])
  }

  /** `map {|text| text.split("\n", -1) }.flatten` over flattened texts. */
  function LinesOf(ss: seq<string>): seq<string>
  {
    if ss == [] then [] else SplitLines(ss[0]) + LinesOf(ss[1..])
  }

  function Lines(ts: seq<Text>): seq<string>
  {
    LinesOf(Flatten(ts))
  }

  /** A single string argument gives its own lines. */
  lemma LinesOfLeaf(s: string)
    ensures Lines([Leaf(s)]) == SplitLines(s)
  {
    assert Flatten([Leaf(s)]) == [s];
    assert LinesOf([s]) == SplitLines(s) + LinesOf([]);
  }

  /** Without colour options compute_color yields neither prefix nor
      postfix. */
  lemma PlainColors(tty: bool)
    ensures ComputeColor(tty, Plain) == NoColor
  {
  }

  /** The one string tell_line writes: prefix when shown, colour prefix,
      the line, colour postfix, and the line feed when asked for. */
  function RenderLine(showPrefix: bool, outputPrefix: string, colors: ColorPair, line: string, newline: bool): string
  {
    (if showPrefix then outputPrefix else "") + Str(colors.prefix) + line + Str(colors.postfix)
      + (if newline then "\n" else "")
  }

  /** The writes of `tell` with the given lines: one tell_line per line, the
      last one (an empty line when there are none) with the caller's
      `newline`, every other one with a line feed. Only the first line can
      find its context line-pending, since each earlier line ends with a
      line feed. */
  function TellWrites(pending: bool, prefix: bool, outputPrefix: string, colors: ColorPair,
                      lines: seq<string>, newline: bool): (r: seq<string>)
    ensures |r| == if lines == [] then 1 else |lines|
    ensures newline ==> EndsWith(r[|r| - 1], "\n")
  {
    var ls := if lines == [] then [""] else lines;
    seq(|ls|, i requires 0 <= i < |ls| =>
      RenderLine(prefix && (i > 0 || !pending), outputPrefix, colors, ls[i], i < |ls| - 1 || newline))
  }

  /** The writes of `msg` appended with `<<`: `tell(msg.chomp, newline:
      msg.end_with?("\n"))`, with no colour options. */
  function AppendWrites(pending: bool, outputPrefix: string, msg: string): (r: seq<string>)
    ensures |r| >= 1
    ensures EndsWith(msg, "\n") ==> EndsWith(r[|r| - 1], "\n")
    ensures |r| == if Chomp(msg) == "" then 1 else |SplitLines(Chomp(msg))|
  {
    TellWrites(pending, true, outputPrefix, NoColor, SplitLines(Chomp(msg)), EndsWith(msg, "\n"))
  }

  /** Write `i` of tell is line `i`, prefixed unless it is the first on a
      line-pending context, with a line feed unless it is the last. */
  lemma TellWritesAt(pending: bool, prefix: bool, p: string, c: ColorPair, lines: seq<string>, nl: bool, i: nat)
    requires i < |lines|
    ensures |TellWrites(pending, prefix, p, c, lines, nl)| == |lines|
    ensures TellWrites(pending, prefix, p, c, lines, nl)[i]
         == RenderLine(prefix && !(pending && i == 0), p, c, lines[i], i < |lines| - 1 || nl)
  {
  }

  /** The last write of tell: the last line, or an empty one when there are
      none, with the caller's `newline`. */
  lemma TellWritesLast(pending: bool, prefix: bool, p: string, c: ColorPair, lines: seq<string>, nl: bool, i: nat)
    requires if lines == [] then i == 0 else i + 1 == |lines|
    ensures |TellWrites(pending, prefix, p, c, lines, nl)| == i + 1
    ensures TellWrites(pending, prefix, p, c, lines, nl)[i]
         == RenderLine(prefix && !(pending && i == 0), p, c, if lines == [] then "" else lines[i], nl)
  {
  }

  /** All writes of tell but the last are those of its lines but the last,
      each with a line feed. */
  lemma TellWritesInit(pending: bool, prefix: bool, p: string, c: ColorPair, lines: seq<string>, nl: bool)
    requires |lines| >= 2
    ensures TellWrites(pending, prefix, p, c, lines, nl)[..|lines| - 1]
         == TellWrites(pending, prefix, p, c, lines[..|lines| - 1], true)
  {
  }

  lemma TellWritesCons(pending: bool, prefix: bool, p: string, c: ColorPair, l: string, rest: seq<string>, nl: bool)
    requires rest != []
    ensures TellWrites(pending, prefix, p, c, [l] + rest, nl)
         == [RenderLine(prefix && !pending, p, c, l, true)] + TellWrites(false, prefix, p, c, rest, nl)
  {
    var a := TellWrites(pending, prefix, p, c, [l] + rest, nl);
    var b := [RenderLine(prefix && !pending, p, c, l, true)] + TellWrites(false, prefix, p, c, rest, nl);
    assert |a| == |b|;
    forall i | 0 <= i < |a| ensures a[i] == b[i] {
      if i > 0 {
        assert ([l] + rest)[i] == rest[i - 1];
      }
    }
  }

  /** What tell shows: the lines joined so that after every line feed come
      the colour postfix's reset, the output prefix and the colour again;
      the prefix in front only when the context was not line-pending. */
  lemma {:induction false} TellOutput(pending: bool, prefix: bool, p: string, c: ColorPair, ls: seq<string>, nl: bool)
    requires ls != []
    ensures Concat(TellWrites(pending, prefix, p, c, ls, nl))
         == (if prefix && !pending then p else "") + Str(c.prefix)
            + JoinWith(ls, Str(c.postfix) + "\n" + (if prefix then p else "") + Str(c.prefix))
            + Str(c.postfix) + (if nl then "\n" else "")
    decreases |ls|
  {
    var cp, cq := Str(c.prefix), Str(c.postfix);
    var p' := if prefix then p else "";
    var sep := cq + "\n" + p' + cp;
    var head := if prefix && !pending then p else "";
    var tail := if nl then "\n" else "";
    if |ls| == 1 {
      var only := RenderLine(prefix && !pending, p, c, ls[0], nl);
      assert TellWrites(pending, prefix, p, c, ls, nl) == [only];
      assert Concat([only]) == only;
      assert JoinWith(ls, sep) == ls[0];
    } else {
      assert ls == [ls[0]] + ls[1..];
      TellWritesCons(pending, prefix, p, c, ls[0], ls[1..], nl);
      var first := RenderLine(prefix && !pending, p, c, ls[0], true);
      var rest := TellWrites(false, prefix, p, c, ls[1..], nl);
      ConcatAppend([first], rest);
      assert Concat([first]) == first;
      TellOutput(false, prefix, p, c, ls[1..], nl);
      var j := JoinWith(ls[1..], sep);
      assert Concat(rest) == p' + cp + j + cq + tail;
      assert first == head + cp + ls[0] + cq + "\n";
      assert JoinWith(ls, sep) == ls[0] + sep + j;
      Regroup(head, cp, ls[0], cq, "\n", p', j, tail);
    }
  }

  lemma Regroup(h: string, cp: string, l: string, cq: string, n: string, p: string, j: string, t: string)
    ensures (h + cp + l + cq + n) + (p + cp + j + cq + t) == h + cp + (l + (cq + n + p + cp) + j) + cq + t
  {
  }

  /** Splitting then re-emitting is transparent: without prefix or colour,
      tell shows the text itself, followed by a line feed when asked for. */
  lemma TellTransparent(pending: bool, prefix: bool, s: string, nl: bool)
    ensures Concat(TellWrites(pending, prefix, "", NoColor, SplitLines(s), nl)) == s + (if nl then "\n" else "")
  {
    assert TellWrites(pending, prefix, "", NoColor, SplitLines(s), nl)
        == TellWrites(pending, prefix, "", NoColor, Pieces(s, '\n'), nl);
    TellOutput(pending, prefix, "", NoColor, Pieces(s, '\n'), nl);
    PiecesJoin(s, '\n');
    assert Str(NoColor.postfix) + "\n" + "" + Str(NoColor.prefix) == "\n";
  }

  /** With a prefix and no colour, tell puts the prefix in front of the text
      (unless the context is line-pending) and after every line feed in it. */
  lemma TellPrefixesEveryLine(pending: bool, p: string, s: string, nl: bool)
    requires '\r' !in s
    ensures Concat(TellWrites(pending, true, p, NoColor, SplitLines(s), nl))
         == (if pending then "" else p) + Inject(s, p) + (if nl then "\n" else "")
  {
    var ls := Pieces(s, '\n');
    assert TellWrites(pending, true, p, NoColor, SplitLines(s), nl) == TellWrites(pending, true, p, NoColor, ls, nl);
    var head := if pending then "" else p;
    var tail := if nl then "\n" else "";
    var sep := Str(NoColor.postfix) + "\n" + p + Str(NoColor.prefix);
    TellOutput(pending, true, p, NoColor, ls, nl);
    assert Concat(TellWrites(pending, true, p, NoColor, ls, nl)) == head + "" + JoinWith(ls, sep) + "" + tail;
    assert sep == "\n" + p;
    JoinLinesInject(s, p);
    DropEmpty(head, Inject(s, p), tail);
  }

  /** `<<` without prefix shows the message unchanged, provided it does not
      end in a carriage return (which `chomp` drops and `<<` never restores). */
  lemma AppendTransparent(pending: bool, msg: string)
    requires !EndsWith(msg, "\r") && !EndsWith(msg, "\r\n")
    ensures Concat(AppendWrites(pending, "", msg)) == msg
  {
    var body := Chomp(msg);
    TellTransparent(pending, true, body, EndsWith(msg, "\n"));
    if EndsWith(msg, "\n") {
      assert body == msg[..|msg| - 1];
      assert msg == msg[..|msg| - 1] + "\n";
    }
  }

  /** `<<` loses a trailing carriage return: "a\r" shows as "a", and
      "a\r\n" as "a" with a line feed. */
  lemma AppendDropsCarriageReturn()
    ensures Concat(AppendWrites(false, "", "a\r")) == "a"
    ensures Concat(AppendWrites(false, "", "a\r\n")) == "a\n"
  {
    var m := "a\r";
    assert m[|m| - 1..] == "\r" && m[..|m| - 1] == "a";
    assert EndsWith(m, "\r") && !EndsWith(m, "\n");
    assert Chomp(m) == "a";
    assert AppendWrites(false, "", m) == TellWrites(false, true, "", NoColor, SplitLines("a"), false);
    TellTransparent(false, true, "a", false);
    var n := "a\r\n";
    assert n[|n| - 2..] == "\r\n" && n[|n| - 1..] == "\n" && n[..|n| - 2] == "a";
    assert EndsWith(n, "\r\n") && EndsWith(n, "\n");
    assert Chomp(n) == "a";
    assert AppendWrites(false, "", n) == TellWrites(false, true, "", NoColor, SplitLines("a"), true);
    TellTransparent(false, true, "a", true);
  }

  // ---------------------------------------------------------------------
  // tell_pty_stream

  /** What the relay loop has written so far, and whether a line feed that
      ended the last non-empty chunk is still held back. */
  datatype RelayState = RelayState(writes: seq<string>, nlPending: bool)

  /** The writes of one pass of the loop: none for an empty chunk;
      otherwise the held-back line feed with the boundary first, then the
      chunk, its trailing line feed chopped, with the boundary injected after
      every remaining carriage return or line feed. */
  function ChunkWrites(nlPending: bool, chunk: string, b: string): seq<string>
  {
    if chunk == "" then []
    else
      var body := if EndsWith(chunk, "\n") then Chop(chunk) else chunk;
      (if nlPending then ["\n" + b] else []) + [Inject(body, b)]
  }

  /** One pass of the loop; a non-empty chunk ending in a line feed leaves
      that line feed held back. */
  function RelayStep(st: RelayState, chunk: string, b: string): RelayState
  {
    RelayState(st.writes + ChunkWrites(st.nlPending, chunk, b),
               if chunk == "" then st.nlPending else EndsWith(chunk, "\n"))
  }

  /** The loop over all chunks read until end of stream. */
  function Relay(chunks: seq<string>, b: string): RelayState
  {
    if chunks == [] then RelayState([], false)
    else RelayStep(Relay(chunks[..|chunks| - 1], b), chunks[|chunks| - 1], b)
  }

  lemma RelayNext(chunks: seq<string>, i: nat, b: string)
    requires i < |chunks|
    ensures Relay(chunks[..i + 1], b) == RelayStep(Relay(chunks[..i], b), chunks[i], b)
  {
    assert chunks[..i + 1][..i] == chunks[..i];
  }

  /** The string injected at every line boundary: colour reset, output
      prefix, colour again. */
  function Boundary(colors: ColorPair, outputPrefix: string): string
  {
    Str(colors.postfix) + outputPrefix + Str(colors.prefix)
  }

  /** Everything tell_pty_stream writes: the prefix unless line-pending, the
      colour prefix, the relayed chunks, a bare line feed if one is still
      held back, and the colour postfix. */
  function PtyWrites(pending: bool, outputPrefix: string, colors: ColorPair, chunks: seq<string>): (r: seq<string>)
    ensures |r| >= 2 && r[|r| - 1] == Str(colors.postfix)
    ensures r[if pending then 0 else 1] == Str(colors.prefix)
    ensures !pending ==> r[0] == outputPrefix
  {
    var st := Relay(chunks, Boundary(colors, outputPrefix));
    (if pending then [] else [outputPrefix]) + [Str(colors.prefix)] + st.writes
      + (if st.nlPending then ["\n"] else []) + [Str(colors.postfix)]
  }

  /** The stream's text without one trailing line feed. */
  function TrimNewline(s: string): string
  {
    if EndsWith(s, "\n") then s[..|s| - 1] else s
  }

  lemma TrimNewlineRestores(s: string)
    ensures s == TrimNewline(s) + (if EndsWith(s, "\n") then "\n" else "")
  {
    if EndsWith(s, "\n") {
      assert s[|s| - 1..] == "\n";
      assert s == s[..|s| - 1] + s[|s| - 1..];
    } else {
      assert s + "" == s;
    }
  }

  /** No chunk ends in "\r\n", the one case where `chop!` removes two
      characters. */
  predicate NoCrLfEnding(chunks: seq<string>)
  {
    forall i :: 0 <= i < |chunks| ==> !EndsWith(chunks[i], "\r\n")
  }

  lemma RelaySnoc(xs: seq<string>, x: string, b: string)
    ensures Relay(xs + [x], b) == RelayStep(Relay(xs, b), x, b)
  {
    assert (xs + [x])[..|xs|] == xs;
  }

  lemma RelayStepEmpty(st: RelayState, b: string)
    ensures RelayStep(st, "", b) == st
  {
    assert st.writes + [] == st.writes;
  }

  /** An empty chunk anywhere in the stream changes nothing. */
  lemma {:induction false} RelayIgnoresEmptyChunk(a: seq<string>, rest: seq<string>, b: string)
    ensures Relay(a + [""] + rest, b) == Relay(a + rest, b)
    decreases |rest|
  {
    if rest == [] {
      assert a + [""] + rest == a + [""];
      assert a + rest == a;
      RelaySnoc(a, "", b);
      RelayStepEmpty(Relay(a, b), b);
    } else {
      var init := rest[..|rest| - 1];
      var last := rest[|rest| - 1];
      RelayIgnoresEmptyChunk(a, init, b);
      SplitLast(a + [""], rest);
      SplitLast(a, rest);
      RelaySnoc(a + [""] + init, last, b);
      RelaySnoc(a + init, last, b);
    }
  }

  lemma EndsWithAppend(x: string, c: string)
    requires c != ""
    ensures EndsWith(x + c, "\n") == EndsWith(c, "\n")
    ensures TrimNewline(x + c) == x + TrimNewline(c)
  {
    if EndsWith(c, "\n") {
      assert (x + c)[..|x + c| - 1] == x + c[..|c| - 1];
    }
  }

  /** What one non-empty chunk adds to the screen: the held-back line feed
      with the boundary, then the chunk with a final line ending removed as
      chop! removes it ("\r\n" as a whole), with the boundary after every
      break. */
  lemma ChunkShows(nlPending: bool, c: string, b: string)
    requires c != ""
    ensures Concat(ChunkWrites(nlPending, c, b))
         == (if nlPending then "\n" + b else "") + Inject(if EndsWith(c, "\n") then Chop(c) else c, b)
  {
    var body := if EndsWith(c, "\n") then Chop(c) else c;
    var mid := if nlPending then ["\n" + b] else [];
    assert ChunkWrites(nlPending, c, b) == mid + [Inject(body, b)];
    ConcatAppend(mid, [Inject(body, b)]);
    assert Concat([Inject(body, b)]) == Inject(body, b);
    assert Concat(mid) == if nlPending then "\n" + b else "";
  }

  /** One non-empty chunk keeps the relation between what the loop has
      shown and the stream read so far. */
  lemma RelayStepWrites(st0: RelayState, c: string, b: string)
    requires c != "" && !EndsWith(c, "\r\n")
    ensures Concat(RelayStep(st0, c, b).writes)
         == Concat(st0.writes) + ((if st0.nlPending then "\n" + b else "") + Inject(TrimNewline(c), b))
  {
    var w := ChunkWrites(st0.nlPending, c, b);
    ChunkShows(st0.nlPending, c, b);
    assert (if EndsWith(c, "\n") then Chop(c) else c) == TrimNewline(c);
    assert RelayStep(st0, c, b).writes == st0.writes + w;
    ConcatAppend(st0.writes, w);
  }

  /** A held-back line feed, once injected, is the line feed with the
      boundary after it. */
  lemma InjectTrimmed(s: string, b: string)
    requires EndsWith(s, "\n")
    ensures Inject(s, b) == Inject(TrimNewline(s), b) + ("\n" + b)
  {
    var t := TrimNewline(s);
    TrimNewlineRestores(s);
    InjectAppend(t, "\n", b);
    assert Inject("\n", b) == "\n" + b;
  }

  lemma RelayStepShows(st0: RelayState, s0: string, c: string, b: string)
    requires c != "" && !EndsWith(c, "\r\n")
    requires Concat(st0.writes) == Inject(TrimNewline(s0), b)
    requires st0.nlPending == EndsWith(s0, "\n")
    ensures Concat(RelayStep(st0, c, b).writes) == Inject(TrimNewline(s0 + c), b)
    ensures RelayStep(st0, c, b).nlPending == EndsWith(s0 + c, "\n")
  {
    EndsWithAppend(s0, c);
    var shown := Concat(st0.writes);
    var lead := if st0.nlPending then "\n" + b else "";
    var tail := Inject(TrimNewline(c), b);
    RelayStepWrites(st0, c, b);
    assert Concat(RelayStep(st0, c, b).writes) == shown + (lead + tail);
    InjectAppend(s0, TrimNewline(c), b);
    assert Inject(TrimNewline(s0 + c), b) == Inject(s0, b) + tail;
    if st0.nlPending {
      InjectTrimmed(s0, b);
      assert Inject(s0, b) == shown + lead;
      Assoc(shown, lead, tail);
    } else {
      assert shown == Inject(s0, b);
      assert lead + tail == tail;
    }
  }

  /** Chunk boundaries do not matter: what the relay loop shows depends only
      on the concatenated stream, the held-back line feed being the one that
      ends it. */
  lemma {:induction false} RelayShows(chunks: seq<string>, b: string)
    requires NoCrLfEnding(chunks)
    ensures Concat(Relay(chunks, b).writes) == Inject(TrimNewline(Concat(chunks)), b)
    ensures Relay(chunks, b).nlPending == EndsWith(Concat(chunks), "\n")
    decreases |chunks|
  {
    if chunks != [] {
      var init := chunks[..|chunks| - 1];
      var c := chunks[|chunks| - 1];
      assert NoCrLfEnding(init) by {
        forall i | 0 <= i < |init| ensures !EndsWith(init[i], "\r\n") {
          assert init[i] == chunks[i];
        }
      }
      RelayShows(init, b);
      if c == "" {
        assert Concat(init) + c == Concat(init);
        assert Relay(init, b).writes + [] == Relay(init, b).writes;
      } else {
        RelayStepShows(Relay(init, b), Concat(init), c, b);
      }
    }
  }

  /** What tell_pty_stream shows, for chunks none of which ends in "\r\n":
      the framing, the stream with the boundary after every carriage return
      and line feed but the last line feed, that line feed bare, and the
      colour reset. */
  lemma PtyOutput(pending: bool, p: string, colors: ColorPair, chunks: seq<string>)
    requires NoCrLfEnding(chunks)
    ensures var s := Concat(chunks);
            Concat(PtyWrites(pending, p, colors, chunks))
              == (if pending then "" else p) + Str(colors.prefix)
                 + Inject(TrimNewline(s), Boundary(colors, p))
                 + (if EndsWith(s, "\n") then "\n" else "") + Str(colors.postfix)
  {
    var b := Boundary(colors, p);
    var st := Relay(chunks, b);
    RelayShows(chunks, b);
    var head := (if pending then [] else [p]) + [Str(colors.prefix)];
    var tail := if st.nlPending then ["\n"] else [];
    ConcatAppend(head + st.writes + tail, [Str(colors.postfix)]);
    ConcatAppend(head + st.writes, tail);
    ConcatAppend(head, st.writes);
    ConcatAppend(if pending then [] else [p], [Str(colors.prefix)]);
    assert Concat([p]) == p;
    assert Concat([Str(colors.prefix)]) == Str(colors.prefix);
    assert Concat([Str(colors.postfix)]) == Str(colors.postfix);
    assert Concat(["\n"]) == "\n";
  }

  /** Without colour: the prefix unless line-pending, then the stream with
      the prefix after every break but the final line feed, then that line
      feed. */
  lemma PtyOutputPlain(pending: bool, p: string, chunks: seq<string>)
    requires NoCrLfEnding(chunks)
    ensures var s := Concat(chunks);
            Concat(PtyWrites(pending, p, NoColor, chunks))
              == (if pending then "" else p) + Inject(TrimNewline(s), p) + (if EndsWith(s, "\n") then "\n" else "")
  {
    var s := Concat(chunks);
    NoColorBoundary(p);
    PtyOutput(pending, p, NoColor, chunks);
    DropEmptyEnds(if pending then "" else p, Inject(TrimNewline(s), p), if EndsWith(s, "\n") then "\n" else "");
  }

  /** Without output prefix and colour the relay shows the stream unchanged. */
  lemma PtyTransparent(pending: bool, chunks: seq<string>)
    requires NoCrLfEnding(chunks)
    ensures Concat(PtyWrites(pending, "", NoColor, chunks)) == Concat(chunks)
  {
    var s := Concat(chunks);
    var t := TrimNewline(s);
    var nl := if EndsWith(s, "\n") then "\n" else "";
    var out := Concat(PtyWrites(pending, "", NoColor, chunks));
    PtyOutputPlain(pending, "", chunks);
    assert out == (if pending then "" else "") + Inject(t, "") + nl;
    InjectEmpty(t);
    assert out == "" + t + nl;
    assert "" + t == t;
    TrimNewlineRestores(s);
  }

  /** No payload byte is altered: removing the injected boundaries from what
      the loop wrote gives back the stream (but for the held-back line feed). */
  lemma RelayKeepsPayload(chunks: seq<string>, b: string)
    requires NoCrLfEnding(chunks)
    ensures Strip(Concat(Relay(chunks, b).writes), b) == TrimNewline(Concat(chunks))
  {
    RelayShows(chunks, b);
    StripInject(TrimNewline(Concat(chunks)), b);
  }

  /** The excluded case: `chop!` takes "\r\n" off as a whole, so a chunk
      ending in "\r\n" loses its carriage return, and the same bytes split
      before the line feed keep it. */
  lemma RelayDropsCarriageReturn(b: string)
    ensures Concat(Relay(["a\r\n"], b).writes) == "a"
    ensures Concat(Relay(["a\r", "\n"], b).writes) == "a\r" + b
  {
    assert ["a\r\n"][..0] == [];
    assert Chop("a\r\n") == "a";
    assert Inject("a", b) == "a";
    assert Relay(["a\r\n"], b).writes == ["a"];
    assert Concat(["a"]) == "a";
    assert ["a\r", "\n"][..1] == ["a\r"];
    assert ["a\r"][..0] == [];
    assert Inject("a\r", b) == "a\r" + b;
    assert Chop("\n") == "";
    assert Relay(["a\r"], b).writes == ["a\r" + b];
    assert Relay(["a\r", "\n"], b).writes == ["a\r" + b, ""];
    ConcatAppend(["a\r" + b], [""]);
    assert Concat(["a\r" + b]) == "a\r" + b;
  }

  lemma NoColorBoundary(p: string)
    ensures Boundary(NoColor, p) == p
  {
    assert Str(NoColor.postfix) == "" && Str(NoColor.prefix) == "";
    assert "" + p + "" == p;
  }

  /** A single chunk without carriage return and final line feed is relayed
      with the prefix after each line feed, like tell. */
  lemma PtyOneChunk(pending: bool, p: string, s: string)
    requires '\r' !in s && !EndsWith(s, "\n")
    ensures Concat(PtyWrites(pending, p, NoColor, [s])) == (if pending then "" else p) + Inject(s, p)
  {
    var head := if pending then "" else p;
    assert NoCrLfEnding([s]);
    assert [s][..0] == [];
    assert Concat([s]) == s;
    assert TrimNewline(s) == s;
    PtyOutputPlain(pending, p, [s]);
    assert head + Inject(s, p) + "" == head + Inject(s, p);
  }

  /** Telling a text and relaying it as one chunk show the same, without
      colour, when the text has no carriage return and does not end in a line
      feed (where tell would leave a dangling prefix and the relay does not). */
  lemma TellMatchesRelay(pending: bool, p: string, s: string)
    requires '\r' !in s && !EndsWith(s, "\n")
    ensures Concat(TellWrites(pending, true, p, NoColor, SplitLines(s), false))
         == Concat(PtyWrites(pending, p, NoColor, [s]))
  {
    var head := if pending then "" else p;
    TellPrefixesEveryLine(pending, p, s, false);
    assert head + Inject(s, p) + "" == head + Inject(s, p);
    PtyOneChunk(pending, p, s);
  }

  /** The yellow colour pair: `ESC [33m` before, `ESC [22;39m` after. */
  lemma YellowColors()
    ensures ComputeColor(true, Style(Some(Yellow), None, None, None, None))
         == ColorPair(Some([ESC] + "[33m"), Some([ESC] + "[22;39m"))
  {
    var s := Style(Some(Yellow), None, None, None, None);
    assert SgrParameters(s) == [33];
    assert Decimal(33) == "33" by {
      assert Decimal(3) == "3";
    }
    var ds := seq(1, i requires 0 <= i < 1 => Decimal([33][i]));
    assert ds == ["33"];
    assert JoinWith(ds, ";") == "33";
    assert ParameterString([33]) == "33";
    assert SgrSequence([33]) == [ESC] + "[33m";
    assert TextColor(s) == Some([ESC] + "[33m");
    ResetSequence();
  }

  /** A line without carriage return or line feed. */
  predicate BreakFree(x: string)
  {
    forall i :: 0 <= i < |x| ==> !IsBreak(x[i])
  }

  /** One line feed between two break-free pieces gets the boundary. */
  lemma InjectOneBreak(x: string, y: string, b: string)
    requires BreakFree(x) && BreakFree(y)
    ensures Inject(x + "\n" + y, b) == x + "\n" + b + y
  {
    InjectNoBreak(x, b);
    InjectNoBreak(y, b);
    assert Inject("\n", b) == "\n" + b by {
      assert "\n"[1..] == "";
    }
    InjectAppend(x, "\n", b);
    InjectAppend(x + "\n", y, b);
  }

  /** A line feed after a line that does not end in a carriage return is
      what `chop!` takes off. */
  lemma ChopLineFeed(x: string)
    requires x == "" || x[|x| - 1] != '\r'
    ensures EndsWith(x + "\n", "\n") && Chop(x + "\n") == x
  {
    var c := x + "\n";
    assert c[|c| - 1..] == "\n";
    assert !EndsWith(c, "\r\n") by {
      if x != "" {
        assert c[|c| - 2] == x[|x| - 1];
        assert c[|c| - 2..][0] == c[|c| - 2];
      }
    }
    assert c[..|c| - 1] == x;
  }

  /** A chunk that is one complete line, with no line feed held back: the
      line goes out without its line feed, which is held back. */
  lemma StepOfLine(st: RelayState, x: string, b: string)
    requires BreakFree(x) && !st.nlPending
    ensures RelayStep(st, x + "\n", b) == RelayState(st.writes + [x], true)
  {
    assert x == "" || !IsBreak(x[|x| - 1]);
    ChopLineFeed(x);
    InjectNoBreak(x, b);
    assert ChunkWrites(false, x + "\n", b) == [] + [x];
    assert [] + [x] == [x];
  }

  /** A chunk with a line break inside and none at its end, after a
      held-back line feed: that line feed goes out with the boundary, then
      the chunk with the boundary after its inner line feed. */
  lemma StepAcrossBreak(st: RelayState, y: string, z: string, b: string)
    requires BreakFree(y) && BreakFree(z) && z != "" && st.nlPending
    ensures RelayStep(st, y + "\n" + z, b) == RelayState(st.writes + ["\n" + b, y + "\n" + b + z], false)
  {
    var c := y + "\n" + z;
    assert c[|c| - 1] == z[|z| - 1];
    assert !IsBreak(z[|z| - 1]);
    InjectOneBreak(y, z, b);
    assert ChunkWrites(true, c, b) == ["\n" + b] + [y + "\n" + b + z];
  }

  /** Five chunks read in turn are five passes of the loop. */
  lemma RelayFive(c1: string, c2: string, c3: string, c4: string, c5: string, b: string,
                  s1: RelayState, s2: RelayState, s3: RelayState, s4: RelayState, s5: RelayState)
    requires RelayStep(RelayState([], false), c1, b) == s1 && RelayStep(s1, c2, b) == s2
    requires RelayStep(s2, c3, b) == s3 && RelayStep(s3, c4, b) == s4 && RelayStep(s4, c5, b) == s5
    ensures Relay([c1, c2, c3, c4, c5], b) == s5
  {
    RelaySnoc([], c1, b);
    assert [] + [c1] == [c1];
    RelaySnoc([c1], c2, b);
    assert [c1] + [c2] == [c1, c2];
    RelaySnoc([c1, c2], c3, b);
    assert [c1, c2] + [c3] == [c1, c2, c3];
    RelaySnoc([c1, c2, c3], c4, b);
    assert [c1, c2, c3] + [c4] == [c1, c2, c3, c4];
    RelaySnoc([c1, c2, c3, c4], c5, b);
    assert [c1, c2, c3, c4] + [c5] == [c1, c2, c3, c4, c5];
  }

  lemma FourWrites(w1: string, w2: string, w3: string, w4: string)
    ensures [] + [w1] + [w2, w3] + [w4] == [w1, w2, w3, w4]
  {
  }

  /** The chunks "x\n", "y\nz", "", "w\n", "" for any break-free words and
      any boundary: the held-back line feed of the first chunk goes out with
      the boundary before the second, the empty chunks write nothing, and the
      line feed of the fourth is still held back at the end. */
  lemma RelayExampleState(x: string, y: string, z: string, w: string, b: string)
    requires BreakFree(x) && BreakFree(y) && BreakFree(z) && BreakFree(w) && z != ""
    ensures Relay([x + "\n", y + "\n" + z, "", w + "\n", ""], b)
         == RelayState([x, "\n" + b, y + "\n" + b + z, w], true)
  {
    var st0 := RelayState([], false);
    var st1 := RelayState([] + [x], true);
    var st2 := RelayState([] + [x] + ["\n" + b, y + "\n" + b + z], false);
    var st4 := RelayState([] + [x] + ["\n" + b, y + "\n" + b + z] + [w], true);
    StepOfLine(st0, x, b);
    StepAcrossBreak(st1, y, z, b);
    RelayStepEmpty(st2, b);
    StepOfLine(st2, w, b);
    RelayStepEmpty(st4, b);
    RelayFive(x + "\n", y + "\n" + z, "", w + "\n", "", b, st1, st2, st2, st4, st4);
    FourWrites(x, "\n" + b, y + "\n" + b + z, w);
  }

  lemma EightWrites(w1: string, w2: string, w3: string, w4: string, w5: string, w6: string, w7: string, w8: string)
    ensures [w1, w2] + [w3, w4, w5, w6] + ["\n"] + [w8] == [w1, w2, w3, w4, w5, w6, "\n", w8]
  {
  }

  /** Those chunks, as "data\n", "in\nchunks", "", "yo\n", "", relayed with
      prefix `p` and colour sequences `on` and `off`: what reaches the
      terminal, write by write. */
  lemma RelayExample(p: string, on: string, off: string)
    ensures PtyWrites(false, p, ColorPair(Some(on), Some(off)), ["data\n", "in\nchunks", "", "yo\n", ""])
         == [p, on, "data", "\n" + (off + p + on), "in\n" + (off + p + on) + "chunks", "yo", "\n", off]
  {
    var b := off + p + on;
    assert Boundary(ColorPair(Some(on), Some(off)), p) == b;
    assert BreakFree("data") && BreakFree("in") && BreakFree("chunks") && BreakFree("yo");
    RelayExampleState("data", "in", "chunks", "yo", b);
    assert "data" + "\n" == "data\n";
    assert "in" + "\n" == "in\n";
    assert "in\n" + "chunks" == "in\nchunks";
    assert "yo" + "\n" == "yo\n";
    EightWrites(p, on, "data", "\n" + b, "in\n" + b + "chunks", "yo", "\n", off);
  }

  /** The relay of the test's chunks in yellow with label "foo", write by
      write. */
  lemma YellowRelayExample()
    ensures var on, off := [ESC] + "[33m", [ESC] + "[22;39m";
      PtyWrites(false, "[foo] ", ComputeColor(true, Style(Some(Yellow), None, None, None, None)),
                ["data\n", "in\nchunks", "", "yo\n", ""])
      == ["[foo] ", on, "data", "\n" + (off + "[foo] " + on), "in\n" + (off + "[foo] " + on) + "chunks", "yo", "\n", off]
  {
    YellowColors();
    RelayExample("[foo] ", [ESC] + "[33m", [ESC] + "[22;39m");
  }
}
