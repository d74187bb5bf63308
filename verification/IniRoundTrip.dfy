/** Printing and reading back: which lines survive the trip, and whole documents. */
module IniRoundTrip {
  import opened CText
  import opened Options
  import opened IniSpec
  import opened IniReader
  import opened IniParser
  import opened IniRuns
  import opened IniTexts
  import opened IniLines

  datatype Item = Section(section: string) | Entry(name: string, value: string) | More(value: string)

  function PrintItem(item: Item): string {
    match item
    case Section(s) => "[" + s + "]\n"
    case Entry(n, v) => n + "=" + v + "\n"
    case More(v) => " " + v + "\n"
  }

  // ---------------------------------------------------------------- one line

  /** A header line reads back exactly when '[' starts no comment and nothing in the section
      ends the scan for ']' early. */
  lemma {:induction false} HeaderReadsBack(syn: Syntax, first: bool, hasName: bool, s: string)
    ensures Classify(syn, first, hasName, PrintItem(Section(s))) == Header(s)
       <==> '[' !in syn.startPrefixes && Undisturbed(syn, s, "]")
  {
    hide RTrim, LTrim, StripBom, StopsAt, Undisturbed;
    var body := "[" + s + "]";
    Unmarked(syn, first, PrintItem(Section(s)));
    assert PrintItem(Section(s)) == body + "\n";
    TrimLine(body);
    assert body[1..] == s + "]";
    FindBehind(syn, s, "]", "]");
    assert (s + "]")[..|s|] == s;
  }

  lemma {:induction false} Unmarked(syn: Syntax, first: bool, l: string)
    requires l == "" || l[0] != BOM[0]
    ensures StripBom(syn, first, l) == l
  {
  }

  /** The end of a printed line does not survive trimming. */
  lemma {:induction false} TrimLine(body: string)
    requires body != "" && Bare(body)
    ensures RTrim(body + "\n") == body && LTrim(body) == body
  {
    RTrimIs(body, "\n");
    assert "" + body == body;
    LTrimIs("", body);
  }

  /** An indented line reads back as a continuation exactly when continuations are on and its
      text is bare, not empty and no comment. */
  lemma {:induction false} MoreReadsBack(syn: Syntax, first: bool, v: string)
    ensures Classify(syn, first, true, PrintItem(More(v))) == Continuation(v)
       <==> syn.multiline && v != "" && Bare(v) && v[0] !in syn.startPrefixes
  {
    hide RTrim, LTrim, StripBom, ValueOf;
    Unmarked(syn, first, PrintItem(More(v)));
    assert PrintItem(More(v)) == " " + v + "\n";
    if v != "" && Bare(v) {
      TrimIs(" ", v, "\n");
      LTrimIs(" ", v);
    } else {
      assert Bare(Trim(" " + v + "\n"));
    }
  }

  /** What a name and a value must be for "name=value" to read back. */
  ghost predicate CleanEntry(syn: Syntax, n: string, v: string) {
    && Bare(n) && Bare(v)
    && Undisturbed(syn, n, "=:") && Undisturbed(syn, v, "")
    && var c := (n + "=")[0]; c !in syn.startPrefixes && c != '['
  }

  lemma {:induction false} EntryForward(syn: Syntax, n: string, v: string)
    requires CleanEntry(syn, n, v)
    ensures PairLine(syn, n + "=" + v) == Pair(n, v)
  {
    hide PairLine, StopsAt, Undisturbed;
    assert n + "" == n && "" + v + "" == v && v + "" == v;
    assert n + "=" + v == n + "" + ['='] + ("" + v + "") + "";
    PartsMeanPair(syn, Parts(n, "", '=', "", v, "", ""));
  }

  /** The value part alone: it comes back whole only if it is bare and holds no comment. */
  lemma {:induction false} ValueBack(syn: Syntax, v: string)
    ensures ValueOf(syn, RTrim(v)) == v ==> Bare(v) && Undisturbed(syn, v, "")
  {
    var t := RTrim(v);
    var c := t[..Find(syn, t, "", 0)];
    UndisturbedMeans(syn, v, "");
    if RTrim(LTrim(c)) == v {
      assert |v| <= |c| <= |t| <= |v|;
      assert t == v && c == v;
      BareValue(c);
    }
  }

  lemma {:induction false} BareValue(c: string)
    ensures Bare(RTrim(LTrim(c)))
  {
  }

  /** Where the trimmed body of a line sits in the line; a separator is always part of it. */
  lemma {:induction false} TrimPlace(t: string, p: nat) returns (k: nat)
    requires p < |t| && t[p] == '='
    ensures var body := LTrim(RTrim(t));
            && k <= p < k + |body| <= |t| && body == t[k..k + |body|] && Bare(body) && AllSpace(t[k + |body|..])
  {
    hide TrimEnd, TrimStart;
    k := TrimStart(RTrim(t), 0);
    assert !IsSpace('=');
  }

  lemma {:induction false} BodyPlace(syn: Syntax, first: bool, l: string, p: nat) returns (d: nat)
    requires p < |l| && l[p] == '='
    ensures var body := LTrim(RTrim(StripBom(syn, first, l)));
            && d <= p < d + |body| <= |l| && body == l[d..d + |body|]
            && Bare(body) && AllSpace(l[d + |body|..])
            && (d == 0 ==> StripBom(syn, first, l) == l)
  {
    hide RTrim, LTrim, Bare, AllSpace, StripBom;
    var t := StripBom(syn, first, l);
    var b := |l| - |t|;
    assert t == l[b..] && (b > 0 ==> l[..3] == BOM && b == 3);
    assert b <= p by {
      assert forall i | 0 <= i < b :: l[i] == BOM[i] != '=';
    }
    var k := TrimPlace(t, p - b);
    d := b + k;
    var n := |LTrim(RTrim(t))|;
    assert t[k..k + n] == l[d..d + n] && t[k + n..] == l[d + n..];
  }

  /** A line that comes back as the pair it was printed from started with that pair. */
  lemma {:induction false} EntryBackward(syn: Syntax, first: bool, hasName: bool, n: string, v: string)
    requires Classify(syn, first, hasName, n + "=" + v + "\n") == Pair(n, v)
    ensures CleanEntry(syn, n, v) && StripBom(syn, first, n + "=" + v + "\n") == n + "=" + v + "\n"
  {
    hide RTrim, LTrim, StripBom, StopsAt, Undisturbed, ValueOf, HeaderLine;
    var l := n + "=" + v + "\n";
    var d := BodyPlace(syn, first, l, |n|);
    var body := LTrim(RTrim(StripBom(syn, first, l)));
    assert body[|n| - d] == '=';
    PairOf(syn, first, hasName, l, n, v);
    PairStart(syn, body, n, v, |n| - d);
    assert d == 0;
    assert body[..|n|] == n;
    RestOfLine(body, n, v);
    FirstChar(body, n);
    ValueBack(syn, v);
    UndisturbedName(syn, body, n);
  }

  lemma {:induction false} PairOf(syn: Syntax, first: bool, hasName: bool, l: string, n: string, v: string)
    requires Classify(syn, first, hasName, l) == Pair(n, v)
    ensures var body := LTrim(RTrim(StripBom(syn, first, l)));
            && PairLine(syn, body) == Pair(n, v) && body != ""
            && body[0] !in syn.startPrefixes && body[0] != '['
  {
    hide RTrim, LTrim, StripBom, PairLine;
  }

  /** The name of a pair ends no later than the first separator. */
  lemma {:induction false} PairStart(syn: Syntax, body: string, n: string, v: string, p: nat)
    requires PairLine(syn, body) == Pair(n, v) && p < |body| && body[p] == '='
    ensures |n| <= Find(syn, body, "=:", 0) <= p
    ensures n == RTrim(body[..Find(syn, body, "=:", 0)])
    ensures v == ValueOf(syn, body[Find(syn, body, "=:", 0) + 1..])
  {
    hide ValueOf;
    assert StopsAt(syn, body, "=:", p);
  }

  lemma {:induction false} RestOfLine(body: string, n: string, v: string)
    requires |n| < |body| <= |n + "=" + v + "\n"| && body == (n + "=" + v + "\n")[..|body|]
    requires Bare(body) && AllSpace((n + "=" + v + "\n")[|body|..])
    ensures body[|n| + 1..] == RTrim(v)
  {
    var l := n + "=" + v + "\n";
    var w := body[|n| + 1..];
    assert v + "\n" == l[|n| + 1..] == w + l[|body|..];
    RTrimIs(w, l[|body|..]);
    RTrimAppend(v, "\n");
  }

  lemma {:induction false} FirstChar(body: string, n: string)
    requires |n| < |body| && body[..|n|] == n && body[|n|] == '='
    ensures (n + "=")[0] == body[0]
    ensures Bare(body) && RTrim(n) == n ==> Bare(n)
  {
  }

  lemma {:induction false} UndisturbedName(syn: Syntax, body: string, n: string)
    requires |n| < |body| && body[..|n|] == n && body[|n|] == '='
    requires Find(syn, body, "=:", 0) == |n|
    ensures Undisturbed(syn, n, "=:")
  {
    assert body == n + body[|n|..];
    FindBehind(syn, n, body[|n|..], "=:");
  }

  /** "name=value" reads back exactly when name and value are clean and no byte-order mark is
      taken off the front. */
  lemma {:induction false} EntryReadsBack(syn: Syntax, first: bool, hasName: bool, n: string, v: string)
    ensures var l := PrintItem(Entry(n, v));
            Classify(syn, first, hasName, l) == Pair(n, v)
            <==> CleanEntry(syn, n, v) && StripBom(syn, first, l) == l
  {
    hide RTrim, LTrim, StripBom, StopsAt, Undisturbed, PairLine, HeaderLine;
    var l := PrintItem(Entry(n, v));
    assert l == n + "=" + v + "\n";
    if CleanEntry(syn, n, v) && StripBom(syn, first, l) == l {
      TrimLine(n + "=" + v);
      FirstChar(n + "=" + v, n);
      EntryForward(syn, n, v);
    } else if Classify(syn, first, hasName, l) == Pair(n, v) {
      EntryBackward(syn, first, hasName, n, v);
    }
  }

  // ---------------------------------------------------------------- documents

  function Print(doc: seq<Item>): string {
    if doc == [] then "" else PrintItem(doc[0]) + Print(doc[1..])
  }

  function SectionAfter(section: string, item: Item): string {
    match item
    case Section(s) => Cut(s, MAX_SECTION - 1)
    case _ => section
  }

  function NameAfter(name: string, item: Item): string {
    match item
    case Section(_) => ""
    case Entry(n, _) => Cut(n, MAX_NAME - 1)
    case More(_) => name
  }

  function ItemCall(section: string, name: string, item: Item): seq<Call> {
    match item
    case Section(_) => []
    case Entry(n, v) => [Call(section, n, Some(v))]
    case More(v) => [Call(section, name, Some(v))]
  }

  /** The calls a document stands for. Sections, and names with continuations, of up to 49
      characters come through whole. */
  function DocCalls(section: string, name: string, doc: seq<Item>): seq<Call>
    decreases |doc|
  {
    if doc == [] then []
    else ItemCall(section, name, doc[0])
         + DocCalls(SectionAfter(section, doc[0]), NameAfter(name, doc[0]), doc[1..])
  }

  /** An item that survives printing: it is a C string that fits the buffer on one line of its
      own, no byte-order mark is taken off its front, and it reads back by the three lemmas above. */
  ghost predicate CleanItem(cfg: Config, first: bool, name: string, item: Item) {
    var syn, l := cfg.syntax, PrintItem(item);
    && |l| < LineSize(cfg) && NUL !in l && (forall i | 0 <= i < |l| - 1 :: l[i] != '\n')
    && StripBom(syn, first, l) == l
    && match item
       case Section(s) => '[' !in syn.startPrefixes && Undisturbed(syn, s, "]")
       case Entry(n, v) => CleanEntry(syn, n, v)
       case More(v) => name != "" && syn.multiline && v != "" && Bare(v) && v[0] !in syn.startPrefixes
  }

  ghost predicate CleanDoc(cfg: Config, first: bool, name: string, doc: seq<Item>)
    decreases |doc|
  {
    doc == [] ||
    (CleanItem(cfg, first, name, doc[0]) && CleanDoc(cfg, false, NameAfter(name, doc[0]), doc[1..]))
  }

  ghost predicate Accepts<U(!new)>(h: Handler<U>) {
    forall u, c :: h(u, c).1
  }

  function ItemLines(doc: seq<Item>): seq<string> {
    if doc == [] then [] else [PrintItem(doc[0])] + ItemLines(doc[1..])
  }

  lemma {:induction false} PrintedLine(item: Item)
    ensures var l := PrintItem(item); l != "" && l[|l| - 1] == '\n'
  {
  }

  lemma {:induction false} ChunksOfPrint(cfg: Config, first: bool, name: string, doc: seq<Item>)
    requires CleanDoc(cfg, first, name, doc)
    ensures Chunks(Print(doc), LineSize(cfg)) == ItemLines(doc)
    decreases |doc|
  {
    hide Chunks, PrintItem, LineSize, CleanEntry, StripBom;
    if doc == [] {
      NoChunks(LineSize(cfg));
    } else {
      PrintedLine(doc[0]);
      ChunksOfPrint(cfg, false, NameAfter(name, doc[0]), doc[1..]);
      ChunksOfLine(PrintItem(doc[0]), LineSize(cfg));
      ChunksAppend(PrintItem(doc[0]), Print(doc[1..]), LineSize(cfg));
    }
  }

  lemma {:induction false} NoChunks(size: nat)
    ensures Chunks("", size) == []
  {
  }

  lemma {:induction false} KindOfItem(cfg: Config, first: bool, name: string, item: Item)
    requires CleanItem(cfg, first, name, item)
    ensures Classify(cfg.syntax, first, name != "", PrintItem(item))
         == match item case Section(s) => Header(s) case Entry(n, v) => Pair(n, v) case More(v) => Continuation(v)
  {
    hide Classify, StripBom, PrintItem, CleanEntry, Undisturbed;
    match item
    case Section(s) => HeaderReadsBack(cfg.syntax, first, name != "", s);
    case Entry(n, v) => EntryReadsBack(cfg.syntax, first, name != "", n, v);
    case More(v) => MoreReadsBack(cfg.syntax, first, v);
  }

  lemma {:induction false} StepGood<U(!new)>(cfg: Config, h: Handler<U>, st: State<U>, l: string)
    requires var line := LineAt(cfg.syntax, st.ctx, l); !line.NoValue? && !line.OpenHeader?
    ensures var s, line := Step(cfg, h, st, l), LineAt(cfg.syntax, st.ctx, l);
            && s.ctx == Advance(st.ctx, line).(lineno := st.ctx.lineno + 1)
            && s.trace == st.trace + (match CallFor(st.ctx, line) case Some(c) => [c] case None => [])
            && (Accepts(h) ==> s.error == st.error)
  {
    hide LineAt;
  }

  lemma {:induction false} StepItem<U(!new)>(cfg: Config, h: Handler<U>, st: State<U>, item: Item)
    requires CleanItem(cfg, st.ctx.lineno == 0, st.ctx.prevName, item)
    ensures var s := Step(cfg, h, st, PrintItem(item));
            && s.trace == st.trace + ItemCall(st.ctx.section, st.ctx.prevName, item)
            && s.ctx == Context(st.ctx.lineno + 1, SectionAfter(st.ctx.section, item), NameAfter(st.ctx.prevName, item))
            && (Accepts(h) ==> s.error == st.error)
  {
    hide Classify, PrintItem, CleanItem, Cut, Step, Accepts;
    KindOfItem(cfg, st.ctx.lineno == 0, st.ctx.prevName, item);
    StepGood(cfg, h, st, PrintItem(item));
  }

  lemma {:induction false} FoldDoc<U(!new)>(cfg: Config, h: Handler<U>, st: State<U>, doc: seq<Item>)
    requires CleanDoc(cfg, st.ctx.lineno == 0, st.ctx.prevName, doc)
    requires !cfg.stopOnFirstError || (Accepts(h) && st.error == 0)
    ensures var f := Fold(cfg, h, st, ItemLines(doc));
            && f.trace == st.trace + DocCalls(st.ctx.section, st.ctx.prevName, doc)
            && (Accepts(h) ==> f.error == st.error)
    decreases |doc|
  {
    hide Step, CleanItem, PrintItem, ItemCall, SectionAfter, NameAfter, Accepts;
    if doc != [] {
      StepItem(cfg, h, st, doc[0]);
      assert ItemLines(doc)[1..] == ItemLines(doc[1..]);
      FoldDoc(cfg, h, Step(cfg, h, st, PrintItem(doc[0])), doc[1..]);
    }
  }

  /** Reading a printed clean document makes exactly its calls, in order; a handler that accepts
      them all gets code 0. Without early stop this holds whatever the handler answers. */
  lemma {:induction false} RoundTrip<U(!new)>(cfg: Config, h: Handler<U>, u: U, doc: seq<Item>)
    requires CleanDoc(cfg, true, "", doc)
    requires !cfg.stopOnFirstError || Accepts(h)
    ensures Run(cfg, h, u, Print(doc)).trace == DocCalls("", "", doc)
    ensures Accepts(h) ==> Run(cfg, h, u, Print(doc)).error == 0
  {
    hide Fold, Chunks, CleanDoc, DocCalls, Print, LineSize, Accepts;
    ChunksOfPrint(cfg, true, "", doc);
    FoldDoc(cfg, h, Initial(u), doc);
  }

  lemma {:induction false} PrintedText(cfg: Config, first: bool, name: string, doc: seq<Item>)
    requires CleanDoc(cfg, first, name, doc)
    ensures NUL !in Print(doc)
    decreases |doc|
  {
    hide PrintItem, CleanEntry, StripBom, NameAfter, LineSize;
    if doc != [] {
      PrintedText(cfg, false, NameAfter(name, doc[0]), doc[1..]);
    }
  }

  /** The round trip in the code: the parser run on a printed clean document makes its calls, and
      without failed allocations a handler that accepts them all gets code 0. */
  method ParsePrinted<U(!new)>(cfg: Config, h: Handler<U>, alloc: nat -> bool, u: U, doc: seq<Item>)
    returns (r: int, out: U, ghost trace: seq<Call>)
    requires CleanDoc(cfg, true, "", doc)
    requires !cfg.stopOnFirstError || Accepts(h)
    requires !cfg.useStack && cfg.allowRealloc ==> cfg.initialAlloc <= cfg.maxLine
    ensures r >= 0 ==> trace == DocCalls("", "", doc) && out == Deliver(h, u, DocCalls("", "", doc))
    ensures r < 0 ==> r == -2 && trace <= DocCalls("", "", doc)
    ensures Accepts(h) ==> r <= 0
    ensures cfg.useStack || (forall k :: alloc(k)) ==> r >= 0
  {
    hide Run, CleanDoc, DocCalls, Print, Accepts, Deliver;
    PrintedText(cfg, true, "", doc);
    RunUser(cfg, h, u, Print(doc));
    RoundTrip(cfg, h, u, doc);
    r, out, trace := ParseString(cfg, h, alloc, u, Print(doc));
  }
}
