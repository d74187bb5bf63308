/** The meaning of an INI text: how one line is classified, and the fold of classified lines
    over the parser's state. The buffer-mutating parser is proved against these functions. */
module IniSpec {
  import opened CText
  import opened Options

  const MAX_SECTION: nat := 50
  const MAX_NAME: nat := 50

  /** The UTF-8 signature (section 6 of RFC 3629). */
  const BOM: string := "\U{EF}\U{BB}\U{BF}"

  /** The run-time flags that decide how one line reads. */
  datatype Syntax = Syntax(
    multiline: bool,
    bom: bool,
    startPrefixes: string,
    inlineComments: bool,
    inlinePrefixes: string)

  /** All run-time flags of the parser. */
  datatype Config = Config(
    syntax: Syntax,
    useStack: bool,
    maxLine: nat,
    allowRealloc: bool,
    initialAlloc: nat,
    stopOnFirstError: bool,
    allowNoValue: bool)

  const DEFAULT: Config :=
    Config(Syntax(true, true, ";#", true, ";"), true, 200, false, 200, false, false)

  // ---------------------------------------------------------------- one line

  datatype Line =
    | Skip                            // blank, or a start-of-line comment
    | Continuation(text: string)      // one more value for the previous name
    | Header(section: string)
    | OpenHeader                      // '[' without a closing ']'
    | Pair(name: string, text: string)
    | NoValue(name: string)           // neither '=' nor ':'

  /** Where a scan for one of `chars` stops: the end, a wanted character, or an
      inline-comment character right after white space. */
  predicate StopsAt(syn: Syntax, s: string, chars: string, i: nat)
    requires i <= |s|
  {
    || i == |s|
    || s[i] in chars
    || (syn.inlineComments && i > 0 && IsSpace(s[i - 1]) && s[i] in syn.inlinePrefixes)
  }

  /** The least stop at or after `from`. */
  function Find(syn: Syntax, s: string, chars: string, from: nat): (i: nat)
    requires from <= |s|
    ensures from <= i <= |s| && StopsAt(syn, s, chars, i)
    ensures forall j | from <= j < i :: !StopsAt(syn, s, chars, j)
    decreases |s| - from
  {
    if StopsAt(syn, s, chars, from) then from else Find(syn, s, chars, from + 1)
  }

  /** A line that starts with '['. */
  function HeaderLine(syn: Syntax, body: string): Line
    requires body != ""
  {
    var text := body[1..];
    var end := Find(syn, text, "]", 0);
    if end < |text| && text[end] == ']' then Header(text[..end]) else OpenHeader
  }

  /** The trimmed value without its inline comment. */
  function ValueOf(syn: Syntax, text: string): string {
    RTrim(LTrim(text[..Find(syn, text, "", 0)]))
  }

  /** Any other line. */
  function PairLine(syn: Syntax, body: string): Line {
    var end := Find(syn, body, "=:", 0);
    if end < |body| && body[end] in "=:"
    then Pair(RTrim(body[..end]), ValueOf(syn, body[end + 1..]))
    else NoValue(RTrim(body[..end]))
  }

  function StripBom(syn: Syntax, first: bool, l: string): (r: string)
    ensures r == l || (first && syn.bom && l == BOM + r)
  {
    if syn.bom && first && BOM <= l then l[|BOM|..] else l
  }

  /** The kind of a line, given whether it is the first and whether a name is pending. */
  function Classify(syn: Syntax, first: bool, hasName: bool, l: string): Line {
    var text := RTrim(StripBom(syn, first, l));
    var body := LTrim(text);
    var indented := |body| < |text| || StripBom(syn, first, l) != l;
    if body == "" || body[0] in syn.startPrefixes then Skip
    else if syn.multiline && hasName && indented then Continuation(body)
    else if body[0] == '[' then HeaderLine(syn, body)
    else PairLine(syn, body)
  }

  // ---------------------------------------------------------------- the state

  /** What one line leaves for the next, errors apart. */
  datatype Context = Context(lineno: nat, section: string, prevName: string)

  const START: Context := Context(0, "", "")

  function LineAt(syn: Syntax, ctx: Context, l: string): Line {
    Classify(syn, ctx.lineno == 0, ctx.prevName != "", l)
  }

  /** What a line does to the context, its number apart. */
  function Advance(ctx: Context, line: Line): Context {
    match line
    case Header(s) => ctx.(section := Cut(s, MAX_SECTION - 1), prevName := "")
    case Pair(n, _) => ctx.(prevName := Cut(n, MAX_NAME - 1))
    case _ => ctx
  }

  /** The arguments of one handler call; a line without a separator passes no value. */
  datatype Call = Call(section: string, name: string, value: Option<string>)

  /** The callback: it updates the caller's state and reports success. */
  type Handler<!U> = (U, Call) -> (U, bool)

  datatype State<U> = State(ctx: Context, error: nat, user: U, trace: seq<Call>)

  function Initial<U>(u: U): State<U> {
    State(START, 0, u, [])
  }

  /** Records the current line as the failing one, unless an earlier line failed. */
  function Fail<U>(st: State<U>): State<U> {
    if st.error == 0 then st.(error := st.ctx.lineno) else st
  }

  function Emit<U>(h: Handler<U>, st: State<U>, c: Call): State<U> {
    var (u, ok) := h(st.user, c);
    var called := st.(user := u, trace := st.trace + [c]);
    if ok then called else Fail(called)
  }

  /** The handler call a line asks for. */
  function CallFor(ctx: Context, line: Line): Option<Call> {
    match line
    case Continuation(v) => Some(Call(ctx.section, ctx.prevName, Some(v)))
    case Pair(n, v) => Some(Call(ctx.section, n, Some(v)))
    case NoValue(n) => Some(Call(ctx.section, n, None))
    case _ => None
  }

  /** The effect of a classified line. A line without a separator is passed over in silence
      once there was an error. */
  function Apply<U>(cfg: Config, h: Handler<U>, st: State<U>, line: Line): State<U> {
    var s := st.(ctx := Advance(st.ctx, line));
    match line
    case Skip => s
    case Header(_) => s
    case OpenHeader => Fail(s)
    case Continuation(v) => Emit(h, s, Call(st.ctx.section, st.ctx.prevName, Some(v)))
    case Pair(n, v) => Emit(h, s, Call(st.ctx.section, n, Some(v)))
    case NoValue(n) =>
      if st.error != 0 then s
      else if cfg.allowNoValue then Emit(h, s, Call(st.ctx.section, n, None))
      else Fail(s)
  }

  function Step<U>(cfg: Config, h: Handler<U>, st: State<U>, l: string): State<U> {
    var line := LineAt(cfg.syntax, st.ctx, l);
    Apply(cfg, h, st.(ctx := st.ctx.(lineno := st.ctx.lineno + 1)), line)
  }

  predicate Stopped<U>(cfg: Config, st: State<U>) {
    cfg.stopOnFirstError && st.error != 0
  }

  function Fold<U>(cfg: Config, h: Handler<U>, st: State<U>, lines: seq<string>): State<U>
    decreases |lines|
  {
    if lines == [] || Stopped(cfg, st) then st
    else Fold(cfg, h, Step(cfg, h, st, lines[0]), lines[1..])
  }

  // ---------------------------------------------------------------- the text

  /** One past the first newline at or after `i`, or the end when there is none. */
  function LineEnd(s: string, i: nat): (e: nat)
    requires i <= |s|
    ensures i <= e <= |s| && (i < |s| ==> i < e)
    ensures forall j | i <= j < e - 1 :: s[j] != '\n'
    ensures i < e < |s| ==> s[e - 1] == '\n'
    decreases |s| - i
  {
    if i == |s| then i else if s[i] == '\n' then i + 1 else LineEnd(s, i + 1)
  }

  function Min(a: nat, b: nat): nat {
    if a <= b then a else b
  }

  /** How much one read into a buffer of `size` characters takes. */
  function ChunkLen(s: string, size: nat): (n: nat)
    requires size >= 2
    ensures n <= |s| && n < size && (s != "" ==> n > 0)
  {
    Min(LineEnd(s, 0), size - 1)
  }

  function Chunk(s: string, size: nat): string
    requires size >= 2
  {
    s[..ChunkLen(s, size)]
  }

  /** What repeated reads deliver; a buffer below two characters reads nothing. */
  function Chunks(s: string, size: nat): seq<string> {
    if s == "" || size < 2 then []
    else var n := ChunkLen(s, size); [s[..n]] + Chunks(s[n..], size)
  }

  /** The longest line a run can hold. A growing buffer counts as its cap. */
  function LineSize(cfg: Config): nat {
    if cfg.useStack || (cfg.allowRealloc && cfg.initialAlloc >= 2) then cfg.maxLine
    else cfg.initialAlloc
  }

  function Run<U>(cfg: Config, h: Handler<U>, u: U, text: string): State<U> {
    Fold(cfg, h, Initial(u), Chunks(text, LineSize(cfg)))
  }
}
