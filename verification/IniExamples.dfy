/** A text read with the default flags, and texts on which promises of the parser's documentation
    fail. */
module IniExamples {
  import opened CText
  import opened Options
  import opened IniSpec
  import opened IniReader
  import opened IniTexts
  import opened IniLines
  import opened IniLaws
  import opened IniRoundTrip
  import opened IniRuns
  import opened IniSizes

  /** A bare line without a byte-order mark is classified by its first character, whatever white
      space ends it. */
  lemma {:induction false} PlainKind(syn: Syntax, first: bool, hasName: bool, body: string, w: string)
    requires body != "" && Bare(body) && body[0] != BOM[0] && AllSpace(w)
    ensures Classify(syn, first, hasName, body + w)
         == if body[0] in syn.startPrefixes then Skip
            else if body[0] == '[' then HeaderLine(syn, body) else PairLine(syn, body)
  {
    hide HeaderLine, PairLine, StripBom;
    Unmarked(syn, first, body + w);
    RTrimIs(body, w);
    BareTrims(body);
  }

  lemma {:induction false} WordIsNoValue(syn: Syntax, c: string)
    requires Token(c)
    ensures PairLine(syn, c) == NoValue(c)
  {
    hide StopsAt;
    TokenStops(syn, c);
    FindIs(syn, c, "=:", 0, |c|);
    assert c[..|c|] == c;
    BareTrims(c);
  }

  /** A word without white space and separators. */
  ghost predicate Token(c: string) {
    c != "" && forall i | 0 <= i < |c| :: !IsSpace(c[i]) && c[i] !in "=:"
  }

  lemma {:induction false} TokenStops(syn: Syntax, c: string)
    requires Token(c)
    ensures (forall i | 0 <= i < |c| :: !StopsAt(syn, c, "=:", i)) && StopsAt(syn, c, "=:", |c|)
  {
  }

  lemma {:induction false} LoneBracket(syn: Syntax)
    ensures HeaderLine(syn, "[") == OpenHeader
  {
  }

  /** Texts of one, two and three chunks. */
  lemma {:induction false} OneChunk(a: string, size: nat)
    requires size >= 2 && WellChunked([a], size)
    ensures Chunks(a, size) == [a]
  {
    ConcatOne(a);
    ChunksUnique([a], size);
  }

  lemma {:induction false} TwoChunks(a: string, b: string, size: nat)
    requires size >= 2 && WellChunked([a, b], size)
    ensures Chunks(a + b, size) == [a, b]
  {
    hide Chunks, WellChunked;
    ConcatTwo(a, b);
    ChunksUnique([a, b], size);
  }

  lemma {:induction false} ThreeChunks(a: string, b: string, c: string, size: nat)
    requires size >= 2 && WellChunked([a, b, c], size)
    ensures Chunks(a + b + c, size) == [a, b, c]
  {
    hide Chunks, WellChunked;
    ConcatTwo(b, c);
    assert [a, b, c][1..] == [b, c] && a + b + c == a + (b + c);
    ChunksUnique([a, b, c], size);
  }

  lemma {:induction false} ConcatTwo(a: string, b: string)
    ensures Concat([a, b]) == a + b
  {
    ConcatOne(b);
    assert [a, b][1..] == [b];
  }

  // ---------------------------------------------------------------- the default flags

  const SAMPLE: seq<string> :=
    [MARK + "#x\n", ";x\n", "a=b #c ;d\n", " e\n", "x\n", "[s]#t\n", "f=g\n"]

  lemma {:induction false} SampleComments(syn: Syntax)
    requires syn == DEFAULT.syntax
    ensures Classify(syn, true, false, SAMPLE[0]) == Skip
    ensures Classify(syn, false, false, SAMPLE[1]) == Skip
  {
    hide Classify;
    SpaceIs(' ');
    assert "#x\n"[0] != BOM[0];
    MarkedLine(syn, "#x\n");
    assert "#x\n" == "#x" + "\n" && ";x\n" == ";x" + "\n";
    PlainKind(syn, true, false, "#x", "\n");
    PlainKind(syn, false, false, ";x", "\n");
  }

  lemma {:induction false} SamplePair(syn: Syntax)
    requires syn == DEFAULT.syntax
    ensures Classify(syn, false, false, SAMPLE[2]) == Pair("a", "b #c")
  {
    hide Classify;
    assert SAMPLE[2] == "a" + "=" + "b #c" + " " + [';'] + "d" + "\n";
    CommentedPair(syn, false, false, "a", "b #c", " ", ';', "d");
  }

  lemma {:induction false} SampleContinuation(syn: Syntax)
    requires syn == DEFAULT.syntax
    ensures Classify(syn, false, true, SAMPLE[3]) == Continuation("e")
  {
    hide Classify;
    assert SAMPLE[3] == " " + "e" + "\n";
    IndentedContinues(syn, false, " ", "e", "\n");
  }

  lemma {:induction false} SampleRest(syn: Syntax)
    requires syn == DEFAULT.syntax
    ensures Classify(syn, false, true, SAMPLE[4]) == NoValue("x")
    ensures Classify(syn, false, true, SAMPLE[5]) == Header("s")
    ensures Classify(syn, false, false, SAMPLE[6]) == Pair("f", "g")
  {
    hide Classify;
    assert SAMPLE[4] == "x" + "\n" && SAMPLE[5] == "[" + "s" + "]" + "#t\n" && SAMPLE[6] == "f" + "=" + "g" + "\n";
    PlainKind(syn, false, true, "x", "\n");
    WordIsNoValue(syn, "x");
    CommentedHeader(syn, false, true, "s", "#t\n");
    EntryReadsBack(syn, false, false, "f", "g");
  }

  lemma {:induction false} SampleKinds(syn: Syntax)
    requires syn == DEFAULT.syntax
    ensures KindAt(syn, SAMPLE, 0) == Skip && KindAt(syn, SAMPLE, 1) == Skip
    ensures KindAt(syn, SAMPLE, 2) == Pair("a", "b #c") && KindAt(syn, SAMPLE, 3) == Continuation("e")
    ensures KindAt(syn, SAMPLE, 4) == NoValue("x") && KindAt(syn, SAMPLE, 5) == Header("s")
    ensures KindAt(syn, SAMPLE, 6) == Pair("f", "g")
  {
    hide Classify;
    SampleComments(syn);
    SamplePair(syn);
    SampleContinuation(syn);
    SampleRest(syn);
  }

  /** With the default flags a byte-order mark is taken off, '#' and ';' start comments, ' ;' ends
      a value and ' #' does not, an indented line continues a value, a line without separator is
      an error without a call, and the run goes on behind it. */
  lemma {:induction false} DefaultRun<U(!new)>(h: Handler<U>, u: U)
    requires Accepts(h)
    ensures Run(DEFAULT, h, u, Concat(SAMPLE)).trace
         == [Call("", "a", Some("b #c")), Call("", "a", Some("e")), Call("s", "f", Some("g"))]
    ensures Run(DEFAULT, h, u, Concat(SAMPLE)).error == 5
  {
    hide Run, Chunks, KindAt, Deliver, Concat;
    SampleChunks();
    SampleKinds(DEFAULT.syntax);
    CallsAsPromised(DEFAULT, h, u, Concat(SAMPLE));
    ReturnCode(DEFAULT, h, u, Concat(SAMPLE));
    assert Bad(DEFAULT, h, u, SAMPLE, 4);
  }

  lemma {:induction false} SampleChunks()
    ensures Chunks(Concat(SAMPLE), 200) == SAMPLE
  {
    hide Chunks, Concat;
    ChunksUnique(SAMPLE, 200);
  }

  /** And one read takes 199 characters of a longer line. */
  lemma {:induction false} DefaultRead(text: string)
    requires '\n' !in text && |text| >= 199
    ensures Chunks(text, LineSize(DEFAULT)) != [] && Chunks(text, LineSize(DEFAULT))[0] == text[..199]
  {
    assert LineEnd(text, 0) == |text|;
  }

  // ---------------------------------------------------------------- a call that is not made

  const NO_VALUES: Config := DEFAULT.(allowNoValue := true)
  const DROPPED: string := "[\n" + "a\n"

  /** With lines without a separator allowed, such a line behind a failing one is dropped: a call
      is promised for it, none is made. */
  lemma {:induction false} DroppedLine<U>(h: Handler<U>, u: U)
    ensures |Chunks(DROPPED, 200)| == 2 && Promised(NO_VALUES, Chunks(DROPPED, 200), 2) == [Call("", "a", None)]
    ensures Run(NO_VALUES, h, u, DROPPED).trace != [Call("", "a", None)]
  {
    hide Run, Chunks, Classify, Deliver;
    var cs := ["[\n", "a\n"];
    var syn := NO_VALUES.syntax;
    TwoChunks("[\n", "a\n", 200);
    assert cs[0] == "[" + "\n" && cs[1] == "a" + "\n";
    PlainKind(syn, true, false, "[", "\n");
    LoneBracket(syn);
    PlainKind(syn, false, false, "a", "\n");
    WordIsNoValue(syn, "a");
    assert KindAt(syn, cs, 0) == OpenHeader && KindAt(syn, cs, 1) == NoValue("a");
    CallsAsPromised(NO_VALUES, h, u, DROPPED);
    assert Bad(NO_VALUES, h, u, cs, 0);
  }

  // ---------------------------------------------------------------- a number that is no line number

  const SHORT: Config := DEFAULT.(maxLine := 4)
  const LONG_LINE: string := "#ab" + "#c\n" + "[\n"

  /** A comment line that takes two reads, then a bad line: the code is 3, the line is the second. */
  lemma {:induction false} MiscountedLine<U>(h: Handler<U>, u: U)
    ensures Run(SHORT, h, u, LONG_LINE).error == 3
    ensures |Chunks(LONG_LINE, 4)| == 3 && Newlines(TextBefore(LONG_LINE, 4, 2)) + 1 == 2
  {
    hide Run, Chunks, Classify, Deliver;
    var cs := ["#ab", "#c\n", "[\n"];
    var syn := SHORT.syntax;
    ThreeChunks("#ab", "#c\n", "[\n", 4);
    assert cs[0] == "#ab" + "" && cs[1] == "#c" + "\n" && cs[2] == "[" + "\n";
    PlainKind(syn, true, false, "#ab", "");
    PlainKind(syn, false, false, "#c", "\n");
    PlainKind(syn, false, false, "[", "\n");
    LoneBracket(syn);
    assert KindAt(syn, cs, 0) == Skip && KindAt(syn, cs, 1) == Skip && KindAt(syn, cs, 2) == OpenHeader;
    ReturnCode(SHORT, h, u, LONG_LINE);
    assert !Bad(SHORT, h, u, cs, 0) && !Bad(SHORT, h, u, cs, 1) && Bad(SHORT, h, u, cs, 2);
    assert cs[..2] == ["#ab", "#c\n"] && cs[..2][1..] == ["#c\n"];
    ConcatOne("#c\n");
    NewlinesAppend("#ab", "#c\n");
    NewlinesOfChunk("#ab");
    NewlinesOfChunk("#c\n");
  }

  // ---------------------------------------------------------------- a heap buffer of the initial size

  const HEAP: Config := DEFAULT.(useStack := false, initialAlloc := 4)
  const PAIR: string := "ab=" + "c\n"

  /** A pair that fits the maximal size but not the initial one: on the heap its value is lost. */
  lemma {:induction false} HeapSplitsPair<U>(h: Handler<U>, u: U)
    ensures Run(HEAP, h, u, PAIR).trace == [Call("", "ab", Some(""))]
    ensures Run(HEAP.(useStack := true), h, u, PAIR).trace == [Call("", "ab", Some("c"))]
  {
    OnHeap(h, u);
    OnStack(h, u);
  }

  lemma {:induction false} FirstRead(syn: Syntax)
    requires syn == DEFAULT.syntax
    ensures Classify(syn, true, false, "ab=") == Pair("ab", "")
  {
    hide Classify;
    assert "ab=" == "ab=" + "";
    PlainKind(syn, true, false, "ab=", "");
    SplitPair(syn);
  }

  lemma {:induction false} SecondRead(syn: Syntax)
    requires syn == DEFAULT.syntax
    ensures Classify(syn, false, true, "c\n") == NoValue("c")
  {
    hide Classify;
    assert "c\n" == "c" + "\n";
    PlainKind(syn, false, true, "c", "\n");
    WordIsNoValue(syn, "c");
  }

  lemma {:induction false} OneRead(syn: Syntax)
    requires syn == DEFAULT.syntax
    ensures Classify(syn, true, false, "ab=c\n") == Pair("ab", "c")
  {
    hide Classify;
    assert "ab=c\n" == "ab=c" + "\n";
    PlainKind(syn, true, false, "ab=c", "\n");
    SplitPair(syn);
  }

  lemma {:induction false} OnHeap<U>(h: Handler<U>, u: U)
    ensures Run(HEAP, h, u, PAIR).trace == [Call("", "ab", Some(""))]
  {
    hide Run, Chunks, Classify, Deliver, Bad;
    var cs := ["ab=", "c\n"];
    TwoChunks("ab=", "c\n", 4);
    FirstRead(HEAP.syntax);
    SecondRead(HEAP.syntax);
    assert KindAt(HEAP.syntax, cs, 0) == Pair("ab", "") && KindAt(HEAP.syntax, cs, 1) == NoValue("c");
    CallsAsPromised(HEAP, h, u, PAIR);
  }

  lemma {:induction false} OnStack<U>(h: Handler<U>, u: U)
    ensures Run(HEAP.(useStack := true), h, u, PAIR).trace == [Call("", "ab", Some("c"))]
  {
    hide Run, Chunks, Classify, Deliver, Bad;
    var cs := ["ab=c\n"];
    assert PAIR == cs[0];
    OneChunk(cs[0], 200);
    OneRead(HEAP.syntax);
    assert KindAt(HEAP.syntax, cs, 0) == Pair("ab", "c");
    CallsAsPromised(HEAP.(useStack := true), h, u, PAIR);
  }

  lemma {:induction false} SplitPair(syn: Syntax)
    ensures PairLine(syn, "ab=") == Pair("ab", "") && PairLine(syn, "ab=c") == Pair("ab", "c")
  {
    hide PairLine;
    var p, q := Parts("ab", "", '=', "", "", "", ""), Parts("ab", "", '=', "", "c", "", "");
    assert p.Left() == "ab" && p.Right() == "" && p.Line() == "ab=";
    assert q.Left() == "ab" && q.Right() == "c" && q.Line() == "ab=c";
    PartsMeanPair(syn, p);
    PartsMeanPair(syn, q);
  }
}
