/** The parser of `src/ini.c`: one mutable line buffer, split in place by writing NULs, two
    fixed buffers for the section and the pending name, and the counters. */
module IniParser {
  import opened CText
  import opened Options
  import opened IniSpec
  import opened IniBuffer
  import opened IniReader

  datatype ReadResult = EndOfInput | GotLine | OutOfMemory

  class Parser<U> {
    const cfg: Config
    const handler: Handler<U>
    const alloc: nat -> bool          // whether the n-th allocation succeeds
    var allocs: nat
    var line: array<char>
    const section: array<char>
    const prevName: array<char>
    var lineno: nat
    var error: nat
    var user: U
    ghost var trace: seq<Call>

    ghost predicate Valid()
      reads this, section, prevName
    {
      && section != prevName && line != section && line != prevName
      && section.Length == MAX_SECTION && prevName.Length == MAX_NAME
      && Terminated(section[..], 0) && Terminated(prevName[..], 0)
    }

    /** The abstract state: the buffers as the strings they hold. */
    ghost function View(): State<U>
      requires Valid()
      reads this, section, prevName
    {
      State(Context(lineno, StrAt(section[..], 0), StrAt(prevName[..], 0)), error, user, trace)
    }

    constructor (cfg: Config, handler: Handler<U>, alloc: nat -> bool, user: U)
      ensures Valid() && View() == Initial(user)
      ensures this.cfg == cfg && this.handler == handler && this.alloc == alloc
      ensures fresh(section) && fresh(prevName) && fresh(line)
    {
      this.cfg, this.handler, this.alloc, this.user := cfg, handler, alloc, user;
      allocs, lineno, error, trace := 0, 0, 0, [];
      line := new char[0];
      section := new char[MAX_SECTION](_ => NUL);
      prevName := new char[MAX_NAME](_ => NUL);
      new;
      StrAtIs(section[..], 0, 0);
      StrAtIs(prevName[..], 0, 0);
    }

    // -------------------------------------------------------------- one line

    /** `if (!HANDLER(user, section, name, value) && !error) error = lineno` */
    method CallHandler(name: string, value: Option<string>)
      requires Valid()
      modifies this`error, this`user, this`trace
      ensures Valid() && View() == Emit(handler, old(View()), Call(old(View()).ctx.section, name, value))
    {
      var c := Call(StrAt(section[..], 0), name, value);
      var (u, ok) := handler(user, c);
      user := u;
      trace := trace + [c];
      if !ok && error == 0 {
        error := lineno;
      }
    }

    /** An unclosed header: the current line fails, unless an earlier line did. */
    method NoteError()
      requires Valid()
      modifies this`error
      ensures Valid() && View() == Apply(cfg, handler, old(View()), OpenHeader)
    {
      if error == 0 {
        error := lineno;
      }
    }

    /** Takes the first `k` characters of the string at `start` as the section. */
    method EnterSection(start: nat, k: nat)
      requires Valid() && Terminated(line[..], start) && k <= |StrAt(line[..], start)|
      modifies line, section, prevName
      ensures Valid()
      ensures View() == Apply(cfg, handler, old(View()), Header(old(StrAt(line[..], start))[..k]))
    {
      CutAt(line, start, k);
      StrNCpy0(section, line, start, MAX_SECTION);
      CutAt(prevName, 0, 0);
    }

    /** A "[section]" line; `start` is at the '['. */
    method HeaderAt(start: nat)
      requires Valid() && Terminated(line[..], start) && StrAt(line[..], start) != ""
      modifies this`error, line, section, prevName
      ensures Valid()
      ensures View() == Apply(cfg, handler, old(View()), HeaderLine(cfg.syntax, old(StrAt(line[..], start))))
    {
      hide StopsAt, StrAt, Find, Apply;
      StrAtSuffix(line[..], start, 1);
      var end, found := FindAny(cfg.syntax, line, start + 1, "]");
      if found {
        EnterSection(start + 1, end - start - 1);
      } else {
        NoteError();
      }
    }

    /** Reports the name at `start` with the value at `p`, and keeps the name for continuations. */
    method CallPair(start: nat, p: nat)
      requires Valid() && start <= line.Length && p <= line.Length
      requires Terminated(line[..], start) && Terminated(line[..], p)
      modifies this`error, this`user, this`trace, prevName
      ensures Valid()
      ensures View() == Apply(cfg, handler, old(View()), Pair(StrAt(line[..], start), StrAt(line[..], p)))
    {
      hide StrAt, Cut, Emit, Terminated;
      StrNCpy0(prevName, line, start, MAX_NAME);
      CallHandler(StrAt(line[..], start), Some(StrAt(line[..], p)));
    }

    /** A line with a separator `k` characters after `start`. */
    method PairSplitAt(start: nat, k: nat)
      requires Valid() && Terminated(line[..], start) && k < |StrAt(line[..], start)|
      modifies this`error, this`user, this`trace, line, prevName
      ensures Valid()
      ensures var l := old(StrAt(line[..], start));
              View() == Apply(cfg, handler, old(View()), Pair(RTrim(l[..k]), ValueOf(cfg.syntax, l[k + 1..])))
    {
      hide RTrim, ValueOf, StrAt, Apply;
      var p := SplitPair(cfg.syntax, line, start, k);
      CallPair(start, p);
    }

    /** A line whose first stop, `k` characters after `start`, is not a separator. */
    method NoValueAt(start: nat, k: nat)
      requires Valid() && Terminated(line[..], start) && k <= |StrAt(line[..], start)|
      modifies this`error, this`user, this`trace, line
      ensures Valid()
      ensures View() == Apply(cfg, handler, old(View()), NoValue(RTrim(old(StrAt(line[..], start))[..k])))
    {
      hide StrAt, RTrim;
      if error == 0 {
        if cfg.allowNoValue {
          CutAt(line, start, k);
          RStrip(line, start);
          CallHandler(StrAt(line[..], start), None);
        } else {
          error := lineno;
        }
      }
    }

    /** A line without an opening '['; `start` is at its first character. */
    method PairAt(start: nat)
      requires Valid() && Terminated(line[..], start)
      modifies this`error, this`user, this`trace, line, prevName
      ensures Valid()
      ensures View() == Apply(cfg, handler, old(View()), PairLine(cfg.syntax, old(StrAt(line[..], start))))
    {
      hide StopsAt, RTrim, ValueOf, StrAt, Find, Apply;
      var end, found := FindAny(cfg.syntax, line, start, "=:");
      if found {
        PairSplitAt(start, end - start);
      } else {
        NoValueAt(start, end - start);
      }
    }

    /** The byte-order mark at the start of the buffer, if it is to be skipped: each byte is
        looked at only when the one before it matched. */
    method SkipBom() returns (start: nat)
      requires Valid() && Terminated(line[..], 0)
      ensures Terminated(line[..], start)
      ensures StrAt(line[..], start) == StripBom(cfg.syntax, lineno == 1, StrAt(line[..], 0))
      ensures start == |StrAt(line[..], 0)| - |StrAt(line[..], start)|
    {
      hide StrAt;
      ghost var l := StrAt(line[..], 0);
      assert forall k | 0 <= k < |l| :: line[k] == l[k];
      assert line[|l|] == line[..][|l|] == NUL;
      start := 0;
      if cfg.syntax.bom && lineno == 1 && line[0] == BOM[0] && line[1] == BOM[1] && line[2] == BOM[2] {
        start := 3;
        assert l[..3] == BOM;
        StrAtSuffix(line[..], 0, 3);
      } else {
        assert BOM <= l ==> l[0] == BOM[0] && l[1] == BOM[1] && l[2] == BOM[2];
      }
    }

    /** `start = lskip(rstrip(start))`, past a byte-order mark. The result is beyond the start
        of the buffer exactly for an indented or marked line. */
    method Body() returns (start: nat)
      requires Valid() && Terminated(line[..], 0)
      modifies line
      ensures Valid() && View() == old(View())
      ensures var t := StripBom(cfg.syntax, lineno == 1, old(StrAt(line[..], 0)));
              && Terminated(line[..], start) && StrAt(line[..], start) == LTrim(RTrim(t))
              && (start > 0 <==> |LTrim(RTrim(t))| < |RTrim(t)| || t != old(StrAt(line[..], 0)))
    {
      hide StrAt, RTrim;
      ghost var l := StrAt(line[..], 0);
      start := SkipBom();
      ghost var t := StrAt(line[..], start);
      assert start > 0 <==> t != l;
      RStrip(line, start);
      start := LSkip(line, start);
    }

    /** One pass of the main loop over the line in the buffer. */
    method ProcessLine()
      requires Valid() && Terminated(line[..], 0)
      modifies this`lineno, this`error, this`user, this`trace, line, section, prevName
      ensures Valid()
      ensures View() == Step(cfg, handler, old(View()), old(StrAt(line[..], 0)))
    {
      hide StrAt, RTrim, LTrim, HeaderLine, PairLine, StripBom, Emit, Fail, Cut;
      lineno := lineno + 1;
      var start := Body();
      ghost var body := StrAt(line[..], start);
      assert line[start] == if body == "" then NUL else body[0];
      assert prevName[0] == NUL <==> StrAt(prevName[..], 0) == "";
      if line[start] == NUL || line[start] in cfg.syntax.startPrefixes {
        // blank line or start-of-line comment
      } else if cfg.syntax.multiline && prevName[0] != NUL && start > 0 {
        CallHandler(StrAt(prevName[..], 0), Some(StrAt(line[..], start)));
      } else if line[start] == '[' {
        HeaderAt(start);
      } else {
        PairAt(start);
      }
    }

    // -------------------------------------------------------------- reading

    /** The buffer has the size its mode allows. */
    ghost predicate RoomOk()
      reads this
    {
      if cfg.useStack then line.Length == cfg.maxLine
      else if cfg.allowRealloc && cfg.initialAlloc >= 2 then 2 <= line.Length <= cfg.maxLine
      else line.Length == cfg.initialAlloc
    }

    /** The buffer holds what one read of its whole size takes from `text`; the reader has the
        remainder. */
    ghost predicate Holding(reader: StringReader, text: string)
      reads this, line, reader
    {
      && reader.Valid() && line.Length >= 2 && text != ""
      && Terminated(line[..], 0) && StrAt(line[..], 0) == Chunk(text, line.Length)
      && text == Chunk(text, line.Length) + reader.Rest()
    }

    /** `ini_realloc(line, n)`: may move the buffer, keeps its contents. */
    method Realloc(n: nat) returns (ok: bool)
      requires Valid() && n >= line.Length
      modifies this`line, this`allocs
      ensures Valid() && View() == old(View())
      ensures ok == alloc(old(allocs)) && allocs == old(allocs) + 1
      ensures ok ==> fresh(line) && line.Length == n && line[..old(line.Length)] == old(line[..])
      ensures !ok ==> line == old(line)
    {
      ok := alloc(allocs);
      allocs := allocs + 1;
      if ok {
        var bytes := line[..];
        line := new char[n](i requires 0 <= i => if i < |bytes| then bytes[i] else NUL);
      }
    }

    /** Reads on at `offset`, behind a first part that holds no newline. */
    method ReadOn(reader: StringReader, offset: nat, ghost text: string) returns (ok: bool)
      requires Valid() && reader.Valid() && 0 < offset < line.Length && offset <= |text|
      requires NUL !in text && text[offset..] == reader.Rest()
      requires line[..offset] == text[..offset] && line[offset] == NUL
      requires forall j | 0 <= j < offset :: text[j] != '\n'
      modifies line, reader
      ensures Valid() && View() == old(View()) && Holding(reader, text)
      ensures !ok ==> reader.Rest() == "" || offset == line.Length - 1
    {
      hide StrAt, ChunkLen;
      assert forall i | 0 <= i < offset :: line[i] == line[..offset][i];
      ok := reader.Read(line, offset, line.Length - offset);
      assert line[..][..offset] == text[..offset];
      ReadBehind(line[..], text, offset, reader.Rest(), ok);
    }

    /** One pass of the growth loop: doubles a full buffer up to the cap and reads on. */
    method Grow(reader: StringReader, ghost text: string) returns (r: ReadResult)
      requires Valid() && Holding(reader, text) && line.Length <= cfg.maxLine
      requires ChunkLen(text, line.Length) == line.Length - 1 && text[line.Length - 2] != '\n'
      modifies this`line, this`allocs, reader
      ensures Valid() && View() == old(View()) && reader.Valid()
      ensures r == OutOfMemory ==> line == old(line) && allocs > 0 && !alloc(allocs - 1)
      ensures r != OutOfMemory ==> fresh(line) && Holding(reader, text)
                                   && line.Length == Min(2 * old(line.Length), cfg.maxLine)
      ensures r == EndOfInput ==> reader.Rest() == "" || line.Length == old(line.Length)
    {
      hide StrAt, ChunkLen, LineEnd;
      var offset := line.Length - 1;
      FullBuffer(line[..], text, offset);
      var ok := Realloc(Min(2 * line.Length, cfg.maxLine));
      if !ok {
        return OutOfMemory;
      }
      assert line[..offset + 1][..offset] == line[..offset];
      assert line[offset] == line[..offset + 1][offset];
      ok := ReadOn(reader, offset, text);
      r := if ok then GotLine else EndOfInput;
    }

    /** Reads the next line, growing the buffer where that is allowed. The line and what is left
        unread are those of one read into a buffer of `LineSize(cfg)` characters. */
    method ReadLine(reader: StringReader) returns (r: ReadResult)
      requires Valid() && RoomOk() && reader.Valid()
      modifies this`line, this`allocs, line, reader
      ensures Valid() && RoomOk() && reader.Valid() && View() == old(View())
      ensures line == old(line) || fresh(line)
      ensures r == OutOfMemory ==> !cfg.useStack && allocs > 0 && !alloc(allocs - 1)
      ensures r == EndOfInput ==> Chunks(old(reader.Rest()), LineSize(cfg)) == []
      ensures r == GotLine ==>
                && old(reader.Rest()) != "" && LineSize(cfg) >= 2 && Terminated(line[..], 0)
                && StrAt(line[..], 0) == Chunk(old(reader.Rest()), LineSize(cfg))
                && reader.Rest() == old(reader.Rest())[ChunkLen(old(reader.Rest()), LineSize(cfg))..]
    {
      hide StrAt, ChunkLen, LineEnd;
      ghost var text := reader.Rest();
      var ok := reader.Read(line, 0, line.Length);
      if !ok {
        return EndOfInput;
      }
      if cfg.allowRealloc && !cfg.useStack {
        r := GrowAll(reader, text);
        if r == OutOfMemory {
          return;
        }
      }
      HoldingRest(text, LineSize(cfg), reader.Rest());
      r := GotLine;
    }

    /** The scan for the new offset starts at the old one and sees the rest of the line. */
    lemma {:induction false} HoldingSuffix(reader: StringReader, text: string, offset: nat)
      requires Holding(reader, text) && offset <= ChunkLen(text, line.Length)
      ensures Terminated(line[..], offset)
      ensures |StrAt(line[..], offset)| == ChunkLen(text, line.Length) - offset
      ensures reader.Rest() == "" ==> ChunkLen(text, line.Length) == |text|
    {
      hide StrAt, ChunkLen;
      StrAtSuffix(line[..], 0, offset);
    }

    /** One pass of the growth loop. `EndOfInput` leaves the loop: nothing is left to read, or
        the buffer is at its cap. Otherwise `next` is the new offset. */
    method GrowPass(reader: StringReader, ghost text: string, offset: nat) returns (r: ReadResult, next: nat)
      requires Valid() && Holding(reader, text) && 2 <= line.Length <= cfg.maxLine
      requires offset == ChunkLen(text, line.Length) == line.Length - 1 && text[offset - 1] != '\n'
      modifies this`line, this`allocs, reader
      ensures Valid() && View() == old(View()) && reader.Valid()
      ensures (line == old(line) || fresh(line)) && old(line.Length) <= line.Length <= cfg.maxLine
      ensures r == OutOfMemory ==> allocs > 0 && !alloc(allocs - 1)
      ensures r != OutOfMemory ==> Holding(reader, text) && next == ChunkLen(text, line.Length)
      ensures r == GotLine ==> old(line.Length) < line.Length
      ensures r == EndOfInput ==> next == ChunkLen(text, cfg.maxLine)
    {
      hide StrAt, ChunkLen, LineEnd, View, Terminated, Holding;
      next := offset;
      ghost var size := line.Length;
      r := Grow(reader, text);
      if r == OutOfMemory {
        return;
      }
      ChunkMono(text, size, line.Length);
      ChunkMono(text, line.Length, cfg.maxLine);
      HoldingSuffix(reader, text, offset);
      var more := StrLen(line, offset);
      next := offset + more;
      if line.Length >= cfg.maxLine {
        r := EndOfInput;
      }
    }

    /** `while (offset == max_line - 1 && line[offset - 1] != '\n')` */
    method GrowAll(reader: StringReader, ghost text: string) returns (r: ReadResult)
      requires Valid() && Holding(reader, text) && line.Length <= cfg.maxLine
      modifies this`line, this`allocs, reader
      ensures Valid() && View() == old(View()) && reader.Valid()
      ensures (line == old(line) || fresh(line)) && 2 <= line.Length <= cfg.maxLine
      ensures r == OutOfMemory ==> allocs > 0 && !alloc(allocs - 1)
      ensures r != OutOfMemory ==> Holding(reader, text)
                                   && ChunkLen(text, line.Length) == ChunkLen(text, cfg.maxLine)
    {
      hide StrAt, ChunkLen, LineEnd, View;
      var offset := StrLen(line, 0);
      while offset == line.Length - 1 && line[offset - 1] != '\n'
        invariant Valid() && View() == old(View()) && (line == old(line) || fresh(line))
        invariant Holding(reader, text) && line.Length <= cfg.maxLine
        invariant offset == ChunkLen(text, line.Length)
        decreases cfg.maxLine - line.Length
      {
        assert text[offset - 1] == line[..][offset - 1];
        r, offset := GrowPass(reader, text, offset);
        if r != GotLine {
          return;
        }
      }
      assert text[offset - 1] == line[..][offset - 1];
      ChunkStays(text, line.Length, cfg.maxLine);
      r := GotLine;
    }

    // -------------------------------------------------------------- the whole text

    /** `ini_parse_stream`: makes the calls and returns the code of the fold over the chunks of
        the text. A failed allocation ends the run with -2 part of the way through that fold. */
    method ParseStream(reader: StringReader) returns (r: int)
      requires Valid() && View() == Initial(user) && reader.Valid()
      requires !cfg.useStack && cfg.allowRealloc ==> cfg.initialAlloc <= cfg.maxLine
      modifies this, section, prevName, reader
      ensures Valid()
      ensures r >= 0 ==> View() == Run(cfg, handler, old(user), old(reader.Rest())) && r == error
      ensures r < 0 ==> r == -2 && !cfg.useStack && (exists k :: !alloc(k))
                        && trace <= Run(cfg, handler, old(user), old(reader.Rest())).trace
    {
      hide Step, Chunk, ChunkLen, LineSize;
      ghost var final := Run(cfg, handler, user, reader.Rest());
      if cfg.useStack {
        line := new char[cfg.maxLine];
      } else {
        var ok := alloc(allocs);
        if !ok {
          return -2;
        }
        allocs := allocs + 1;
        line := new char[cfg.initialAlloc];
      }
      r := Lines(reader, final);
    }

    /** The main loop. */
    method Lines(reader: StringReader, ghost final: State<U>) returns (r: int)
      requires Valid() && RoomOk() && reader.Valid() && !Stopped(cfg, View())
      requires final == Fold(cfg, handler, View(), Chunks(reader.Rest(), LineSize(cfg)))
      modifies this, line, section, prevName, reader
      ensures Valid()
      ensures r >= 0 ==> View() == final && r == error
      ensures r < 0 ==> r == -2 && !cfg.useStack && (exists k :: !alloc(k)) && trace <= final.trace
    {
      hide StrAt, Step, Chunk, ChunkLen, LineSize;
      while true
        invariant Valid() && RoomOk() && reader.Valid() && !Stopped(cfg, View())
        invariant line == old(line) || fresh(line)
        invariant final == Fold(cfg, handler, View(), Chunks(reader.Rest(), LineSize(cfg)))
        decreases |reader.Rest()|
      {
        ghost var st, rest := View(), reader.Rest();
        var got := ReadLine(reader);
        if got == EndOfInput {
          break;
        }
        if got == OutOfMemory {
          FoldExtends(cfg, handler, st, Chunks(rest, LineSize(cfg)));
          return -2;
        }
        ProcessLine();
        FoldChunk(cfg, handler, st, rest, LineSize(cfg));
        if cfg.stopOnFirstError && error != 0 {
          break;
        }
      }
      r := error;
    }
  }

  lemma {:induction false} FullBuffer(a: seq<char>, text: string, offset: nat)
    requires |a| >= 2 && offset == |a| - 1
    requires Terminated(a, 0) && StrAt(a, 0) == Chunk(text, |a|)
    requires ChunkLen(text, |a|) == offset && text[offset - 1] != '\n'
    ensures a[..offset] == text[..offset] && a[offset] == NUL
    ensures forall j | 0 <= j < offset :: text[j] != '\n'
  {
    hide StrAt;
  }

  /** The first part and what was read behind it, if anything could be, are one chunk. */
  lemma {:induction false} ReadBehind(a: seq<char>, text: string, offset: nat, rest: string, ok: bool)
    requires 0 < offset < |a| && offset <= |text| && NUL !in text
    requires a[..offset] == text[..offset] && forall j | 0 <= j < offset :: text[j] != '\n'
    requires if ok then |a| - offset >= 2 && offset < |text| && Terminated(a, offset)
                        && StrAt(a, offset) == Chunk(text[offset..], |a| - offset)
             else a[offset] == NUL && (offset == |text| || offset == |a| - 1)
    requires text[offset..] == (if ok then Chunk(text[offset..], |a| - offset) else "") + rest
    ensures Terminated(a, 0) && StrAt(a, 0) == Chunk(text, |a|) && text == Chunk(text, |a|) + rest
  {
    hide StrAt, ChunkLen;
    ChunkExtend(text, offset, |a|);
    if ok {
      StrAtJoin(a, 0, text[..offset]);
    } else {
      StrAtIs(a, 0, offset);
    }
  }

  /** What a read took and what it left are both fixed by how much it took. */
  lemma {:induction false} HoldingRest(text: string, size: nat, rest: string)
    requires size >= 2 && text == Chunk(text, size) + rest
    ensures rest == text[ChunkLen(text, size)..]
  {
  }

  lemma {:induction false} StepTrace<U>(cfg: Config, h: Handler<U>, st: State<U>, l: string)
    ensures st.trace <= Step(cfg, h, st, l).trace
  {
    hide LineAt;
  }

  /** A run only ever adds calls. */
  lemma {:induction false} FoldExtends<U>(cfg: Config, h: Handler<U>, st: State<U>, lines: seq<string>)
    ensures st.trace <= Fold(cfg, h, st, lines).trace
    decreases |lines|
  {
    hide Step;
    if lines != [] && !Stopped(cfg, st) {
      StepTrace(cfg, h, st, lines[0]);
      FoldExtends(cfg, h, Step(cfg, h, st, lines[0]), lines[1..]);
    }
  }

  /** One pass of the main loop takes one chunk off the fold. */
  lemma {:induction false} FoldChunk<U>(cfg: Config, h: Handler<U>, st: State<U>, text: string, size: nat)
    requires size >= 2 && text != "" && !Stopped(cfg, st)
    ensures Fold(cfg, h, st, Chunks(text, size))
         == Fold(cfg, h, Step(cfg, h, st, Chunk(text, size)), Chunks(text[ChunkLen(text, size)..], size))
  {
    hide Step;
    assert Chunks(text, size)[1..] == Chunks(text[ChunkLen(text, size)..], size);
  }

  /** `ini_parse_string` */
  method ParseString<U>(cfg: Config, h: Handler<U>, alloc: nat -> bool, u: U, text: string)
    returns (r: int, out: U, ghost trace: seq<Call>)
    requires NUL !in text
    requires !cfg.useStack && cfg.allowRealloc ==> cfg.initialAlloc <= cfg.maxLine
    ensures r >= 0 ==> var s := Run(cfg, h, u, text); r == s.error && out == s.user && trace == s.trace
    ensures r < 0 ==> r == -2 && trace <= Run(cfg, h, u, text).trace
    ensures cfg.useStack || (forall k :: alloc(k)) ==> r >= 0
  {
    hide Run;
    var parser := new Parser(cfg, h, alloc, u);
    var reader := new StringReader(text);
    r := parser.ParseStream(reader);
    out, trace := parser.user, parser.trace;
  }
}
