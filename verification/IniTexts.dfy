/** How runs on related texts compare: an inserted comment or blank line, the other convention for
    line ends, and a byte-order mark in front. */
module IniTexts {
  import opened CText
  import opened IniSpec
  import opened IniReader

  // ---------------------------------------------------------------- inserted lines

  lemma {:induction false} FoldAppend<U>(cfg: Config, h: Handler<U>, st: State<U>, a: seq<string>, b: seq<string>)
    ensures Fold(cfg, h, st, a + b) == Fold(cfg, h, Fold(cfg, h, st, a), b)
    decreases |a|
  {
    hide Step;
    if a == [] {
      assert a + b == b;
    } else if !Stopped(cfg, st) {
      assert (a + b)[1..] == a[1..] + b;
      FoldAppend(cfg, h, Step(cfg, h, st, a[0]), a[1..], b);
    }
  }

  /** `t` is `s` as it would be one line later, where the first `p` lines keep their numbers. */
  ghost predicate Shifted<U>(s: State<U>, t: State<U>, p: nat) {
    && t.trace == s.trace && t.user == s.user
    && t.ctx == s.ctx.(lineno := s.ctx.lineno + 1)
    && t.error == (if s.error > p then s.error + 1 else s.error)
    && s.ctx.lineno >= p > 0
  }

  lemma {:induction false} EmitShifted<U>(h: Handler<U>, s: State<U>, t: State<U>, p: nat, c: Call)
    requires Shifted(s, t, p) && s.ctx.lineno > p
    ensures Shifted(Emit(h, s, c), Emit(h, t, c), p)
  {
  }

  lemma {:induction false} StepShifted<U>(cfg: Config, h: Handler<U>, s: State<U>, t: State<U>, p: nat, l: string)
    requires Shifted(s, t, p)
    ensures Shifted(Step(cfg, h, s, l), Step(cfg, h, t, l), p)
  {
    hide Classify, Emit;
    var line := LineAt(cfg.syntax, s.ctx, l);
    assert LineAt(cfg.syntax, t.ctx, l) == line;
    var s', t' := s.(ctx := Advance(s.ctx, line).(lineno := s.ctx.lineno + 1)),
                  t.(ctx := Advance(t.ctx, line).(lineno := t.ctx.lineno + 1));
    match CallFor(s.ctx, line)
    case Some(c) => EmitShifted(h, s', t', p, c);
    case None =>
  }

  lemma {:induction false} FoldShifted<U>(
      cfg: Config, h: Handler<U>, s: State<U>, t: State<U>, p: nat, lines: seq<string>)
    requires Shifted(s, t, p)
    ensures Shifted(Fold(cfg, h, s, lines), Fold(cfg, h, t, lines), p)
    decreases |lines|
  {
    hide Step;
    if lines != [] && !Stopped(cfg, s) {
      StepShifted(cfg, h, s, t, p, lines[0]);
      FoldShifted(cfg, h, Step(cfg, h, s, lines[0]), Step(cfg, h, t, lines[0]), p, lines[1..]);
    }
  }

  /** A whole line of white space, or one whose first other character starts a comment. */
  ghost predicate Ignorable(syn: Syntax, l: string) {
    && l != "" && l[|l| - 1] == '\n' && (forall i | 0 <= i < |l| - 1 :: l[i] != '\n')
    && (Trim(l) == "" || Trim(l)[0] in syn.startPrefixes)
  }

  lemma {:induction false} StepIgnorable<U>(cfg: Config, h: Handler<U>, st: State<U>, l: string)
    requires st.ctx.lineno > 0 && Ignorable(cfg.syntax, l)
    ensures Step(cfg, h, st, l) == st.(ctx := st.ctx.(lineno := st.ctx.lineno + 1))
  {
    hide RTrim, LTrim, HeaderLine, PairLine;
  }

  lemma {:induction false} FoldLineno<U>(cfg: Config, h: Handler<U>, st: State<U>, lines: seq<string>)
    requires st.error <= st.ctx.lineno
    ensures var f := Fold(cfg, h, st, lines);
            && f.error <= f.ctx.lineno <= st.ctx.lineno + |lines|
            && (!Stopped(cfg, f) ==> f.ctx.lineno == st.ctx.lineno + |lines|)
    decreases |lines|
  {
    if lines != [] && !Stopped(cfg, st) {
      StepLineno(cfg, h, st, lines[0]);
      hide Step;
      FoldLineno(cfg, h, Step(cfg, h, st, lines[0]), lines[1..]);
    }
  }

  lemma {:induction false} StepLineno<U>(cfg: Config, h: Handler<U>, st: State<U>, l: string)
    requires st.error <= st.ctx.lineno
    ensures var s := Step(cfg, h, st, l); s.error <= s.ctx.lineno == st.ctx.lineno + 1
  {
    hide Classify;
  }

  lemma {:induction false} ChunksOfLine(l: string, size: nat)
    requires size >= 2 && l != "" && |l| < size
    requires l[|l| - 1] == '\n' && forall i | 0 <= i < |l| - 1 :: l[i] != '\n'
    ensures Chunks(l, size) == [l]
  {
    ChunkIs(l, size, |l|);
    assert l[..|l|] == l && l[|l|..] == "";
  }

  lemma {:induction false} InsertChunk(a: string, l: string, b: string, size: nat)
    requires a != "" && a[|a| - 1] == '\n' && size >= 2 && |l| < size
    requires l != "" && l[|l| - 1] == '\n' && forall i | 0 <= i < |l| - 1 :: l[i] != '\n'
    ensures Chunks(a + b, size) == Chunks(a, size) + Chunks(b, size)
    ensures Chunks(a + l + b, size) == Chunks(a, size) + ([l] + Chunks(b, size))
  {
    hide Chunks;
    ChunksOfLine(l, size);
    ChunksAppend(a, b, size);
    ChunksAppend(l, b, size);
    assert a + l + b == a + (l + b);
    ChunksAppend(a, l + b, size);
  }

  /** `s` is how the run behind `r` ends when a line is put in after the first `p`. */
  ghost predicate OneLineLater<U>(r: State<U>, s: State<U>, p: nat) {
    && s.trace == r.trace && s.user == r.user
    && s.error == if r.error > p then r.error + 1 else r.error
  }

  lemma {:induction false} FoldInsert<U>(cfg: Config, h: Handler<U>, st: State<U>, l: string, q: seq<string>, p: nat)
    requires Ignorable(cfg.syntax, l) && p > 0
    requires st.error <= p && (!Stopped(cfg, st) ==> st.ctx.lineno == p)
    ensures OneLineLater(Fold(cfg, h, st, q), Fold(cfg, h, st, [l] + q), p)
  {
    hide Step, Ignorable;
    if !Stopped(cfg, st) {
      StepIgnorable(cfg, h, st, l);
      assert ([l] + q)[1..] == q;
      FoldShifted(cfg, h, st, Step(cfg, h, st, l), p, q);
    }
  }

  lemma {:induction false} FoldPrefix<U>(cfg: Config, h: Handler<U>, u: U, p: seq<string>)
    ensures var st := Fold(cfg, h, Initial(u), p);
            st.error <= |p| && (!Stopped(cfg, st) ==> st.ctx.lineno == |p|)
  {
    hide Step;
    FoldLineno(cfg, h, Initial(u), p);
  }

  /** A comment or blank line that fits the buffer, put in at a line boundary after the first
      line, changes no call; only the numbers of later failing lines move by one. */
  lemma {:induction false} InsertIgnorable<U>(cfg: Config, h: Handler<U>, u: U, a: string, l: string, b: string)
    requires a != "" && a[|a| - 1] == '\n'
    requires Ignorable(cfg.syntax, l) && |l| < LineSize(cfg)
    ensures OneLineLater(Run(cfg, h, u, a + b), Run(cfg, h, u, a + l + b), |Chunks(a, LineSize(cfg))|)
  {
    hide Fold, Chunks, Trim, LineSize, OneLineLater;
    var size := LineSize(cfg);
    var p, q := Chunks(a, size), Chunks(b, size);
    InsertChunk(a, l, b, size);
    FoldAppend(cfg, h, Initial(u), p, q);
    FoldAppend(cfg, h, Initial(u), p, [l] + q);
    FoldPrefix(cfg, h, u, p);
    ChunksConserve(a, size);
    FoldInsert(cfg, h, Fold(cfg, h, Initial(u), p), l, q, |p|);
  }

  // ---------------------------------------------------------------- line ends

  /** The text with "\r\n" for every "\n". */
  function CrLf(t: string): string {
    if t == "" then "" else (if t[0] == '\n' then "\r\n" else [t[0]]) + CrLf(t[1..])
  }

  /** No line is longer than one read, so none is split. */
  predicate LinesFit(s: string, size: nat) {
    s == "" || (LineEnd(s, 0) < size && LinesFit(s[LineEnd(s, 0)..], size))
  }

  ghost predicate SameLine(l: string, m: string) {
    m == l || (l != "" && l[|l| - 1] == '\n' && m == l[..|l| - 1] + "\r\n")
  }

  lemma {:induction false} StripBomTail(syn: Syntax, first: bool, x: string, w: string)
    requires AllSpace(w)
    ensures StripBom(syn, first, x + w) == StripBom(syn, first, x) + w
    ensures StripBom(syn, first, x + w) != x + w <==> StripBom(syn, first, x) != x
  {
    assert forall i | |x| <= i < |x + w| :: IsSpace((x + w)[i]);
    assert !IsSpace(BOM[0]) && !IsSpace(BOM[1]) && !IsSpace(BOM[2]);
    if BOM <= x {
      assert BOM <= x + w && (x + w)[|BOM|..] == x[|BOM|..] + w;
    }
  }

  /** The kind of a line does not depend on its trailing white space. */
  lemma {:induction false} ClassifyTail(syn: Syntax, first: bool, hasName: bool, x: string, v: string, w: string)
    requires AllSpace(v) && AllSpace(w)
    ensures Classify(syn, first, hasName, x + v) == Classify(syn, first, hasName, x + w)
  {
    hide RTrim, LTrim, StripBom, HeaderLine, PairLine;
    StripBomTail(syn, first, x, v);
    StripBomTail(syn, first, x, w);
    RTrimAppend(StripBom(syn, first, x), v);
    RTrimAppend(StripBom(syn, first, x), w);
  }

  lemma {:induction false} SameKind(syn: Syntax, first: bool, hasName: bool, l: string, m: string)
    requires SameLine(l, m)
    ensures Classify(syn, first, hasName, m) == Classify(syn, first, hasName, l)
  {
    hide Classify;
    if m != l {
      var x := l[..|l| - 1];
      assert l == x + "\n";
      ClassifyTail(syn, first, hasName, x, "\n", "\r\n");
    }
  }

  lemma {:induction false} FoldSameLines<U>(cfg: Config, h: Handler<U>, st: State<U>, ls: seq<string>, ms: seq<string>)
    requires |ls| == |ms| && forall i | 0 <= i < |ls| :: SameLine(ls[i], ms[i])
    ensures Fold(cfg, h, st, ms) == Fold(cfg, h, st, ls)
    decreases |ls|
  {
    hide Apply, SameLine, Classify;
    if ls != [] {
      SameKind(cfg.syntax, st.ctx.lineno == 0, st.ctx.prevName != "", ls[0], ms[0]);
      FoldSameLines(cfg, h, Step(cfg, h, st, ls[0]), ls[1..], ms[1..]);
    }
  }

  lemma {:induction false} CrLfAppend(a: string, b: string)
    ensures CrLf(a + b) == CrLf(a) + CrLf(b)
    decreases |a|
  {
    if a == "" {
      assert a + b == b;
    } else {
      assert (a + b)[1..] == a[1..] + b;
      CrLfAppend(a[1..], b);
    }
  }

  lemma {:induction false} CrLfPlain(x: string)
    requires '\n' !in x
    ensures CrLf(x) == x
    decreases |x|
  {
    if x != "" {
      assert x[0] in x && forall c | c in x[1..] :: c in x;
      CrLfPlain(x[1..]);
    }
  }

  lemma {:induction false} CrLfLine(x: string, rest: string)
    requires '\n' !in x
    ensures var t, c := x + "\n" + rest, CrLf(x + "\n" + rest);
            && LineEnd(t, 0) == |x| + 1 && LineEnd(c, 0) == |x| + 2
            && c[..|x| + 2] == x + "\r\n" && c[|x| + 2..] == CrLf(rest)
  {
    var c := x + "\r\n" + CrLf(rest);
    assert x + "\n" + rest == x + ("\n" + rest);
    CrLfAppend(x, "\n" + rest);
    CrLfPlain(x);
    assert ("\n" + rest)[1..] == rest;
    assert CrLf(x + "\n" + rest) == c;
    LineEndIs(x + "\n" + rest, 0, |x| + 1);
    LineEndIs(c, 0, |x| + 2);
  }

  /** The first line of the converted text is the converted first line. */
  lemma {:induction false} CrLfFirst(t: string)
    requires t != ""
    ensures var e, f := LineEnd(t, 0), LineEnd(CrLf(t), 0);
            && SameLine(t[..e], CrLf(t)[..f]) && CrLf(t)[f..] == CrLf(t[e..]) && e <= f
  {
    hide CrLf, SameLine;
    var e := LineEnd(t, 0);
    if t[e - 1] == '\n' {
      var x, rest := t[..e - 1], t[e..];
      assert t == x + "\n" + rest;
      CrLfLine(x, rest);
      CrLfEnded(x);
      assert t[..e] == x + "\n";
    } else {
      assert t[..e] == t && t[e..] == "";
      CrLfPlain(t);
      CrLfPlain("");
      SameItself(t);
    }
  }

  lemma {:induction false} CrLfEnded(x: string)
    ensures SameLine(x + "\n", x + "\r\n")
  {
    assert (x + "\n")[..|x|] == x;
  }

  lemma {:induction false} SameItself(l: string)
    ensures SameLine(l, l)
  {
  }

  lemma {:induction false} ChunksCrLf(t: string, size: nat)
    requires size >= 2 && LinesFit(CrLf(t), size)
    ensures var ls, ms := Chunks(t, size), Chunks(CrLf(t), size);
            |ls| == |ms| && forall i | 0 <= i < |ls| :: SameLine(ls[i], ms[i])
    decreases |t|
  {
    hide SameLine, LineEnd, CrLf;
    if t == "" {
      CrLfPlain(t);
    } else {
      CrLfFirst(t);
      var e, f := LineEnd(t, 0), LineEnd(CrLf(t), 0);
      ChunksCrLf(t[e..], size);
      var ls, ms := Chunks(t[e..], size), Chunks(CrLf(t)[f..], size);
      assert Chunks(t, size) == [t[..e]] + ls && Chunks(CrLf(t), size) == [CrLf(t)[..f]] + ms;
    }
  }

  /** As long as the longer lines still fit, "\r\n" and "\n" give the same run. */
  lemma {:induction false} CrLfInsensitive<U>(cfg: Config, h: Handler<U>, u: U, t: string)
    requires LinesFit(CrLf(t), LineSize(cfg))
    ensures Run(cfg, h, u, CrLf(t)) == Run(cfg, h, u, t)
  {
    hide CrLf, SameLine, LineEnd, Fold, LineSize;
    var size := LineSize(cfg);
    if size >= 2 {
      ChunksCrLf(t, size);
      FoldSameLines(cfg, h, Initial(u), Chunks(t, size), Chunks(CrLf(t), size));
    }
  }

  // ---------------------------------------------------------------- byte-order mark

  lemma {:induction false} MarkedLine(syn: Syntax, l: string)
    requires syn.bom && !(BOM <= l)
    ensures Classify(syn, true, false, BOM + l) == Classify(syn, true, false, l)
  {
    hide RTrim, LTrim, HeaderLine, PairLine;
    assert (BOM + l)[|BOM|..] == l;
  }

  lemma {:induction false} MarkedLineEnd(t: string)
    requires t != ""
    ensures LineEnd(BOM + t, 0) == LineEnd(t, 0) + |BOM|
  {
    var s, e := BOM + t, LineEnd(t, 0);
    assert forall j | 3 <= j < |s| :: s[j] == t[j - 3];
    assert s[0] != '\n' && s[1] != '\n' && s[2] != '\n';
    LineEndIs(s, 0, e + 3);
  }

  lemma {:induction false} MarkedChunks(t: string, size: nat)
    requires t != "" && LineEnd(t, 0) + |BOM| < size
    ensures Chunks(t, size) != [] && Chunks(BOM + t, size) == [BOM + Chunks(t, size)[0]] + Chunks(t, size)[1..]
  {
    hide LineEnd;
    var e, s := LineEnd(t, 0), BOM + t;
    MarkedLineEnd(t);
    assert s[..e + 3] == BOM + t[..e] && s[e + 3..] == t[e..];
    assert Chunks(t, size) == [t[..e]] + Chunks(t[e..], size);
    assert Chunks(s, size) == [s[..e + 3]] + Chunks(s[e + 3..], size);
  }

  /** The first line of a text has a mark only if the text has one. */
  lemma {:induction false} FirstUnmarked(t: string, size: nat)
    requires size >= 2 && t != "" && !(BOM <= t)
    ensures Chunks(t, size) != [] && !(BOM <= Chunks(t, size)[0])
  {
    hide LineEnd;
    assert Chunks(t, size)[0] <= t;
  }

  /** A byte-order mark in front of a text changes nothing, as long as the first line still fits
      and does not bring a mark of its own. */
  lemma {:induction false} BomInsensitive<U>(cfg: Config, h: Handler<U>, u: U, t: string)
    requires cfg.syntax.bom && t != "" && !(BOM <= t) && LineEnd(t, 0) + |BOM| < LineSize(cfg)
    ensures Run(cfg, h, u, BOM + t) == Run(cfg, h, u, t)
  {
    hide Classify, Apply, LineEnd, LineSize;
    var lines := Chunks(t, LineSize(cfg));
    MarkedChunks(t, LineSize(cfg));
    FirstUnmarked(t, LineSize(cfg));
    MarkedLine(cfg.syntax, lines[0]);
    var marked := [BOM + lines[0]] + lines[1..];
    assert marked[1..] == lines[1..];
    assert Step(cfg, h, Initial(u), marked[0]) == Step(cfg, h, Initial(u), lines[0]);
  }
}
