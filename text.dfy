/** String operations the output engine relies on: the concatenation of
    writes as the terminal sees it, Ruby's `split("\n", -1)`, `chomp` and
    `chop`, and the boundary injection that `gsub(/([\r\n])/, ...)` performs
    in the stream relay. */
module TextOps {

  /** What the terminal shows after a sequence of writes. */
  function Concat(ws: seq<string>): string
  {
    if ws == [] then "" else Concat(ws[..|ws| - 1]) + ws[|ws| - 1]
  }

  lemma {:induction false} ConcatAppend(a: seq<string>, b: seq<string>)
    ensures Concat(a + b) == Concat(a) + Concat(b)
    decreases |b|
  {
    if b == [] {
      assert a + b == a;
    } else {
      var b', x := b[..|b| - 1], b[|b| - 1];
      SplitLast(a, b);
      assert ((a + b') + [x])[..|a + b'|] == a + b';
      ConcatAppend(a, b');
      Assoc(Concat(a), Concat(b'), x);
    }
  }

  lemma Assoc(x: string, y: string, z: string)
    ensures x + (y + z) == x + y + z
  {
  }

  lemma DropEmpty(x: string, y: string, z: string)
    ensures x + "" + y + "" + z == x + y + z
  {
    assert x + "" == x;
    assert y + "" == y;
  }

  lemma DropEmptyEnds(x: string, y: string, z: string)
    ensures x + "" + y + z + "" == x + y + z
  {
    assert x + "" == x;
    assert x + y + z + "" == x + y + z;
  }

  lemma SplitLast(xs: seq<string>, ys: seq<string>)
    requires ys != []
    ensures xs + ys == (xs + ys[..|ys| - 1]) + [ys[|ys| - 1]]
  {
    assert ys == ys[..|ys| - 1] + [ys[|ys| - 1]];
  }

  lemma TakeSnoc(w: seq<string>, i: nat)
    requires i < |w|
    ensures w[..i + 1] == w[..i] + [w[i]]
  {
  }

  predicate EndsWith(s: string, suffix: string)
  {
    |suffix| <= |s| && s[|s| - |suffix|..] == suffix
  }

  /** A line break for the stream relay: carriage return or line feed. */
  predicate IsBreak(c: char)
  {
    c == '\r' || c == '\n'
  }

  // ---------------------------------------------------------------------
  // Line splitting: Ruby's `text.split("\n", -1)`

  /** The pieces of `s` between occurrences of `sep`, empty pieces
      included: Ruby's `split(sep, -1)` on a non-empty string. */
  function Pieces(s: string, sep: char): (r: seq<string>)
    ensures |r| >= 1
  {
    if s == [] then [""]
    else if s[0] == sep then [""] + Pieces(s[1..], sep)
    else
      var rest := Pieces(s[1..], sep);
      [[s[0]] + rest[0]] + rest[1..]
  }

  /** `split("\n", -1)`: the empty string has no lines at all, any other
      string is cut at every line feed and keeps trailing empty lines. */
  function SplitLines(s: string): (r: seq<string>)
    ensures r == [] <==> s == ""
  {
    if s == "" then [] else Pieces(s, '\n')
  }

  /** `ls.join(sep)`. */
  function JoinWith(ls: seq<string>, sep: string): string
  {
    if |ls| == 0 then ""
    else if |ls| == 1 then ls[0]
    else ls[0] + sep + JoinWith(ls[1..], sep)
  }

  lemma JoinWithCons(c: char, ls: seq<string>, sep: string)
    requires |ls| >= 1
    ensures JoinWith([[c] + ls[0]] + ls[1..], sep) == [c] + JoinWith(ls, sep)
  {
    var ls' := [[c] + ls[0]] + ls[1..];
    assert ls'[1..] == ls[1..];
  }

  /** Joining the pieces with the separator gives back the text, and no
      piece holds the separator. */
  lemma {:induction false} PiecesJoin(s: string, sep: char)
    ensures JoinWith(Pieces(s, sep), [sep]) == s
    ensures forall i :: 0 <= i < |Pieces(s, sep)| ==> sep !in Pieces(s, sep)[i]
  {
    if s == [] {
    } else if s[0] == sep {
      PiecesJoin(s[1..], sep);
      assert ([""] + Pieces(s[1..], sep))[1..] == Pieces(s[1..], sep);
      assert s == [sep] + s[1..];
    } else {
      var rest := Pieces(s[1..], sep);
      PiecesJoin(s[1..], sep);
      JoinWithCons(s[0], rest, [sep]);
      assert s == [s[0]] + s[1..];
      var r := Pieces(s, sep);
      forall i | 0 <= i < |r| ensures sep !in r[i] {
        if i > 0 {
          assert r[i] == rest[i];
        }
      }
    }
  }

  /** A first piece without separator stays glued to what follows it. */
  lemma {:induction false} PiecesPrefix(a: string, t: string, sep: char)
    requires sep !in a
    ensures Pieces(a + t, sep) == [a + Pieces(t, sep)[0]] + Pieces(t, sep)[1..]
  {
    if a == [] {
      assert a + t == t;
      var r := Pieces(t, sep);
      assert a + r[0] == r[0];
      assert r == [r[0]] + r[1..];
    } else {
      PiecesPrefix(a[1..], t, sep);
      assert (a + t)[1..] == a[1..] + t;
      assert (a + t)[0] == a[0];
      var r0 := Pieces(t, sep)[0];
      Assoc([a[0]], a[1..], r0);
      assert [a[0]] + a[1..] == a;
    }
  }

  /** The converse of PiecesJoin: pieces without the separator, joined and
      split again, come back unchanged. */
  lemma {:induction false} JoinPieces(ls: seq<string>, sep: char)
    requires |ls| >= 1
    requires forall i :: 0 <= i < |ls| ==> sep !in ls[i]
    ensures Pieces(JoinWith(ls, [sep]), sep) == ls
  {
    if |ls| == 1 {
      PiecesPrefix(ls[0], "", sep);
      assert ls[0] + "" == ls[0];
    } else {
      JoinPieces(ls[1..], sep);
      var rest := JoinWith(ls[1..], [sep]);
      assert JoinWith(ls, [sep]) == ls[0] + ([sep] + rest);
      PiecesPrefix(ls[0], [sep] + rest, sep);
      assert ([sep] + rest)[0] == sep && ([sep] + rest)[1..] == rest;
      assert Pieces([sep] + rest, sep) == [""] + Pieces(rest, sep);
      assert ls[0] + "" == ls[0];
      assert ls == [ls[0]] + ls[1..];
    }
  }

  // ---------------------------------------------------------------------
  // Ruby's chomp and chop

  /** `String#chomp` without argument: drops one trailing "\r\n", "\n" or "\r". */
  function Chomp(s: string): (r: string)
    ensures EndsWith(s, "\r\n") ==> r + "\r\n" == s
    ensures EndsWith(s, "\n") && !EndsWith(s, "\r\n") ==> r + "\n" == s
    ensures EndsWith(s, "\r") ==> r + "\r" == s
    ensures !EndsWith(s, "\n") && !EndsWith(s, "\r") ==> r == s
  {
    // the last character decides which of the three endings applies
    assert |s| >= 2 ==> s[|s| - 1..][0] == s[|s| - 2..][1] == s[|s| - 1];
    if EndsWith(s, "\r\n") then s[..|s| - 2]
    else if EndsWith(s, "\n") || EndsWith(s, "\r") then s[..|s| - 1]
    else s
  }

  /** `String#chop`: drops the last character, or a trailing "\r\n" as a
      whole. */
  function Chop(s: string): (r: string)
    ensures s == "" ==> r == ""
    ensures EndsWith(s, "\r\n") ==> r + "\r\n" == s
    ensures s != "" && !EndsWith(s, "\r\n") ==> r + [s[|s| - 1]] == s
  {
    if EndsWith(s, "\r\n") then s[..|s| - 2]
    else if s == "" then ""
    else s[..|s| - 1]
  }

  // ---------------------------------------------------------------------
  // Boundary injection after every carriage return and line feed

  /** The number of carriage returns and line feeds in `s`. */
  function Breaks(s: string): nat
  {
    if s == [] then 0 else (if IsBreak(s[0]) then 1 else 0) + Breaks(s[1..])
  }

  /** `s` with `b` inserted right after every carriage return and line feed.
      `b` is inserted as it stands: this is Ruby's
      `gsub(/([\r\n])/, "\\1#{b}")` only for a `b` free of the backslash
      escapes (`\0`-`\9`, `\&`, `\``, `\'`, `\+`, `\\`) that gsub reads in
      its replacement. */
  function Inject(s: string, b: string): (r: string)
    ensures |r| == |s| + Breaks(s) * |b|
    ensures s != [] ==> r[0] == s[0]
  {
    if s == [] then []
    else (if IsBreak(s[0]) then [s[0]] + b else [s[0]]) + Inject(s[1..], b)
  }

  lemma {:induction false} InjectAppend(s: string, t: string, b: string)
    ensures Inject(s + t, b) == Inject(s, b) + Inject(t, b)
  {
    if s == [] {
      assert s + t == t;
    } else {
      assert (s + t)[0] == s[0];
      assert (s + t)[1..] == s[1..] + t;
      InjectAppend(s[1..], t, b);
    }
  }

  /** With an empty boundary the injection changes nothing. */
  lemma {:induction false} InjectEmpty(s: string)
    ensures Inject(s, "") == s
  {
    if s != [] {
      InjectEmpty(s[1..]);
      assert s == [s[0]] + s[1..];
    }
  }

  /** Text without carriage return or line feed passes unchanged. */
  lemma {:induction false} InjectNoBreak(s: string, b: string)
    requires forall i :: 0 <= i < |s| ==> !IsBreak(s[i])
    ensures Inject(s, b) == s
  {
    if s != [] {
      InjectNoBreak(s[1..], b);
      assert s == [s[0]] + s[1..];
    }
  }

  /** Removes `b` where it follows a carriage return or line feed: the
      payload a reader recovers from the relayed bytes. */
  function Strip(t: string, b: string): string
    decreases |t|
  {
    if t == [] then []
    else if IsBreak(t[0]) && |b| <= |t| - 1 && t[1..1 + |b|] == b then [t[0]] + Strip(t[1 + |b|..], b)
    else [t[0]] + Strip(t[1..], b)
  }

  /** The injection adds nothing but boundaries: stripping them gives back
      the payload byte for byte. */
  lemma {:induction false} StripInject(s: string, b: string)
    ensures Strip(Inject(s, b), b) == s
  {
    if s != [] {
      StripInject(s[1..], b);
      var t := Inject(s, b);
      if IsBreak(s[0]) {
        assert t == [s[0]] + b + Inject(s[1..], b);
        assert t[1..1 + |b|] == b;
        assert t[1 + |b|..] == Inject(s[1..], b);
      } else {
        assert t == [s[0]] + Inject(s[1..], b);
        assert t[1..] == Inject(s[1..], b);
      }
      assert s == [s[0]] + s[1..];
    }
  }

  /** Joining lines with a line feed plus `b` is injecting `b` after every
      line feed, when the text holds no carriage return. */
  lemma {:induction false} JoinLinesInject(s: string, b: string)
    requires '\r' !in s
    ensures JoinWith(Pieces(s, '\n'), "\n" + b) == Inject(s, b)
  {
    if s == [] {
    } else if s[0] == '\n' {
      JoinLinesInject(s[1..], b);
      assert ([""] + Pieces(s[1..], '\n'))[1..] == Pieces(s[1..], '\n');
    } else {
      JoinLinesInject(s[1..], b);
      JoinWithCons(s[0], Pieces(s[1..], '\n'), "\n" + b);
    }
  }
}
