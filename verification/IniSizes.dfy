/** What the size of the line buffer decides: whether the returned number is that of a line, and
    how the buffer modes compare. */
module IniSizes {
  import opened CText
  import opened IniSpec
  import opened IniReader
  import opened IniParser
  import opened IniRuns
  import opened IniTexts

  // ---------------------------------------------------------------- line numbers

  /** The lines of a text, however long. */
  function Lines(s: string): seq<string> {
    if s == "" then [] else [s[..LineEnd(s, 0)]] + Lines(s[LineEnd(s, 0)..])
  }

  /** The numbers that the parser counts are line numbers of the text exactly when no line is too
      long for one read: a longer line counts more than once. */
  lemma {:induction false} ChunksAreLines(s: string, size: nat)
    requires size >= 2
    ensures Chunks(s, size) == Lines(s) <==> LinesFit(s, size)
    decreases |s|
  {
    if s != "" {
      hide LineEnd;
      var e, n := LineEnd(s, 0), ChunkLen(s, size);
      assert Lines(s) == [s[..e]] + Lines(s[e..]) && Chunks(s, size) == [s[..n]] + Chunks(s[n..], size);
      assert Lines(s)[0] == s[..e] && Chunks(s, size)[0] == s[..n];
      assert Lines(s)[1..] == Lines(s[e..]) && Chunks(s, size)[1..] == Chunks(s[n..], size);
      if e < size {
        ChunksAreLines(s[e..], size);
      } else {
        assert |s[..e]| != |s[..n]|;
      }
    }
  }

  function Newlines(s: string): nat {
    if s == "" then 0 else (if s[0] == '\n' then 1 else 0) + Newlines(s[1..])
  }

  predicate EndsLine(c: string) {
    c != "" && c[|c| - 1] == '\n'
  }

  lemma {:induction false} NewlinesAppend(a: string, b: string)
    ensures Newlines(a + b) == Newlines(a) + Newlines(b)
    decreases |a|
  {
    if a == "" {
      assert a + b == b;
    } else {
      assert (a + b)[1..] == a[1..] + b;
      NewlinesAppend(a[1..], b);
    }
  }

  lemma {:induction false} NewlinesOfChunk(c: string)
    requires c != "" && forall i | 0 <= i < |c| - 1 :: c[i] != '\n'
    ensures Newlines(c) == if EndsLine(c) then 1 else 0
    decreases |c|
  {
    if |c| > 1 {
      NewlinesOfChunk(c[1..]);
    }
  }

  /** Chunks are as many as the newlines in them exactly when each ends a line. */
  lemma {:induction false} NewlinesOfChunks(cs: seq<string>, size: nat, k: nat)
    requires WellChunked(cs, size) && k <= |cs|
    ensures Newlines(Concat(cs[..k])) <= k
    ensures Newlines(Concat(cs[..k])) == k <==> forall i | 0 <= i < k :: EndsLine(cs[i])
    decreases k
  {
    hide Newlines, Concat;
    if k == 0 {
      assert cs[..0] == [];
      NothingConcat();
    } else {
      NewlinesOfChunks(cs, size, k - 1);
      assert cs[..k] == cs[..k - 1] + [cs[k - 1]];
      ConcatAppend(cs[..k - 1], [cs[k - 1]]);
      ConcatOne(cs[k - 1]);
      NewlinesAppend(Concat(cs[..k - 1]), cs[k - 1]);
      NewlinesOfChunk(cs[k - 1]);
    }
  }

  lemma {:induction false} NothingConcat()
    ensures Concat([]) == "" && Newlines("") == 0
  {
  }

  lemma {:induction false} ConcatOne(c: string)
    ensures Concat([c]) == c
  {
    assert Concat([c][1..]) == "";
  }

  /** The text in front of chunk `k`. */
  function TextBefore(text: string, size: nat, k: nat): string
    requires k <= |Chunks(text, size)|
  {
    Concat(Chunks(text, size)[..k])
  }

  lemma {:induction false} TextBeforeIsPrefix(text: string, size: nat, k: nat)
    requires size >= 2 && k <= |Chunks(text, size)|
    ensures TextBefore(text, size, k) <= text
  {
    hide Concat, Chunks;
    var cs := Chunks(text, size);
    ChunksConserve(text, size);
    assert cs == cs[..k] + cs[k..];
    ConcatAppend(cs[..k], cs[k..]);
  }

  lemma {:induction false} FittingLinesEnd(s: string, size: nat, i: nat)
    requires size >= 2 && LinesFit(s, size) && i + 1 < |Chunks(s, size)|
    ensures EndsLine(Chunks(s, size)[i])
    decreases i
  {
    hide LineEnd;
    var e := LineEnd(s, 0);
    assert Chunks(s, size) == [s[..e]] + Chunks(s[e..], size);
    if i > 0 {
      FittingLinesEnd(s[e..], size, i - 1);
    } else {
      assert s[e..] != "";
    }
  }

  /** A code other than 0 is the line number of the failing chunk, one more than the newlines in
      front of it, exactly when every chunk in front of it ends a line. */
  lemma {:induction false} CodeIsLineNumber<U>(cfg: Config, h: Handler<U>, u: U, text: string)
    ensures var e, cs := Run(cfg, h, u, text).error, Chunks(text, LineSize(cfg));
            e > 0 ==>
              && e <= |cs| && TextBefore(text, LineSize(cfg), e - 1) <= text
              && (e == Newlines(TextBefore(text, LineSize(cfg), e - 1)) + 1
                  <==> forall i | 0 <= i < e - 1 :: EndsLine(cs[i]))
  {
    hide Run, LineSize, WellChunked, Newlines, Concat, Chunks, Bad, EndsLine;
    var e, cs := Run(cfg, h, u, text).error, Chunks(text, LineSize(cfg));
    ReturnCode(cfg, h, u, text);
    if e > 0 {
      SomeChunk(text, LineSize(cfg));
      TextBeforeIsPrefix(text, LineSize(cfg), e - 1);
      ChunksConserve(text, LineSize(cfg));
      NewlinesOfChunks(cs, LineSize(cfg), e - 1);
    }
  }

  lemma {:induction false} SomeChunk(text: string, size: nat)
    ensures Chunks(text, size) != [] ==> size >= 2
  {
  }

  /** So it is a line number whenever every line fits one read. */
  lemma {:induction false} CodeOfFittingLines<U>(cfg: Config, h: Handler<U>, u: U, text: string)
    requires LinesFit(text, LineSize(cfg))
    ensures var e := Run(cfg, h, u, text).error;
            e > 0 ==> e <= |Chunks(text, LineSize(cfg))|
                      && e == Newlines(TextBefore(text, LineSize(cfg), e - 1)) + 1
  {
    hide Run, LineSize, LinesFit, Newlines, TextBefore, Chunks, EndsLine;
    var e, cs := Run(cfg, h, u, text).error, Chunks(text, LineSize(cfg));
    CodeIsLineNumber(cfg, h, u, text);
    SomeChunk(text, LineSize(cfg));
    if e > 0 {
      forall i | 0 <= i < e - 1
        ensures EndsLine(cs[i])
      {
        FittingLinesEnd(text, LineSize(cfg), i);
      }
    }
  }

  // ---------------------------------------------------------------- buffer modes

  lemma {:induction false} FoldOfModes<U>(c: Config, d: Config, h: Handler<U>, st: State<U>, lines: seq<string>)
    requires c.syntax == d.syntax && c.stopOnFirstError == d.stopOnFirstError && c.allowNoValue == d.allowNoValue
    ensures Fold(c, h, st, lines) == Fold(d, h, st, lines)
    decreases |lines|
  {
    hide LineAt, Emit;
    if lines != [] {
      FoldOfModes(c, d, h, Step(c, h, st, lines[0]), lines[1..]);
    }
  }

  /** Two sizes of reads give the same chunks exactly when every line fits the smaller. */
  lemma {:induction false} SizesAgree(s: string, size: nat, bigger: nat)
    requires size < bigger && bigger >= 2
    ensures Chunks(s, size) == Chunks(s, bigger) <==> LinesFit(s, size)
    decreases |s|
  {
    hide LineEnd;
    if s != "" && size >= 2 {
      var e, m, n := LineEnd(s, 0), ChunkLen(s, size), ChunkLen(s, bigger);
      var a, b := Chunks(s[m..], size), Chunks(s[n..], bigger);
      assert Chunks(s, size) == [s[..m]] + a && Chunks(s, bigger) == [s[..n]] + b;
      assert ([s[..m]] + a)[0] == s[..m] && ([s[..n]] + b)[0] == s[..n];
      assert ([s[..m]] + a)[1..] == a && ([s[..n]] + b)[1..] == b;
      if e < size {
        SizesAgree(s[e..], size, bigger);
      } else {
        assert |s[..m]| != |s[..n]|;
      }
    }
  }

  /** A heap buffer that may not grow reads the lines that one of the maximal size would read
      exactly when every line fits the smaller of the two. */
  lemma {:induction false} HeapLines(cfg: Config, text: string)
    requires !cfg.useStack && !cfg.allowRealloc
    requires cfg.initialAlloc != cfg.maxLine && (cfg.initialAlloc >= 2 || cfg.maxLine >= 2)
    ensures Chunks(text, LineSize(cfg)) == Chunks(text, cfg.maxLine)
       <==> LinesFit(text, Min(cfg.initialAlloc, cfg.maxLine))
  {
    hide Chunks, LinesFit;
    if cfg.initialAlloc < cfg.maxLine {
      SizesAgree(text, cfg.initialAlloc, cfg.maxLine);
    } else {
      SizesAgree(text, cfg.maxLine, cfg.initialAlloc);
    }
  }

  /** Then its run is that of a stack buffer. */
  lemma {:induction false} HeapRun<U>(cfg: Config, h: Handler<U>, u: U, text: string)
    requires !cfg.useStack && !cfg.allowRealloc && (cfg.initialAlloc >= 2 || cfg.maxLine >= 2)
    requires LinesFit(text, Min(cfg.initialAlloc, cfg.maxLine))
    ensures Run(cfg, h, u, text) == Run(cfg.(useStack := true), h, u, text)
  {
    hide Chunks, LinesFit, Fold, Min;
    if cfg.initialAlloc != cfg.maxLine {
      HeapLines(cfg, text);
    }
    FoldOfModes(cfg, cfg.(useStack := true), h, Initial(u), Chunks(text, cfg.maxLine));
  }

  lemma {:induction false} GrowingIsStack<U>(cfg: Config, h: Handler<U>, u: U, text: string)
    requires cfg.initialAlloc >= 2
    ensures Run(cfg.(useStack := false, allowRealloc := true), h, u, text) == Run(cfg.(useStack := true), h, u, text)
  {
    hide Fold, Chunks;
    FoldOfModes(cfg.(useStack := false, allowRealloc := true), cfg.(useStack := true), h, Initial(u),
                Chunks(text, cfg.maxLine));
  }

  /** The parser run twice on a text, with a heap buffer that grows and with a stack buffer of the
      maximal size: without failed allocations, code, caller's state and calls are the same. */
  method ParseBothWays<U>(cfg: Config, h: Handler<U>, alloc: nat -> bool, u: U, text: string)
    returns (grown: int, grownUser: U, ghost grownTrace: seq<Call>,
             fixed: int, fixedUser: U, ghost fixedTrace: seq<Call>)
    requires NUL !in text && 2 <= cfg.initialAlloc <= cfg.maxLine && forall k :: alloc(k)
    ensures grown == fixed && grownUser == fixedUser && grownTrace == fixedTrace
    ensures fixed == Run(cfg.(useStack := true), h, u, text).error
  {
    hide Run;
    grown, grownUser, grownTrace := ParseString(cfg.(useStack := false, allowRealloc := true), h, alloc, u, text);
    fixed, fixedUser, fixedTrace := ParseString(cfg.(useStack := true), h, alloc, u, text);
    GrowingIsStack(cfg, h, u, text);
  }
}
