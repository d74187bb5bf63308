/** What holds of every run of the parser: its return code, its calls, and how runs on related
    texts or under different flags compare. */
module IniRuns {
  import opened CText
  import opened Options
  import opened IniSpec
  import opened IniParser

  // ---------------------------------------------------------------- runs by line number

  function Next(ctx: Context, line: Line): Context {
    Advance(ctx.(lineno := ctx.lineno + 1), line)
  }

  /** The context in front of line `i`. It depends on the text alone. */
  function ContextAt(syn: Syntax, lines: seq<string>, i: nat): Context
    requires i <= |lines|
    decreases i, 0
  {
    if i == 0 then START else Next(ContextAt(syn, lines, i - 1), KindAt(syn, lines, i - 1))
  }

  function KindAt(syn: Syntax, lines: seq<string>, i: nat): Line
    requires i < |lines|
    decreases i, 1
  {
    LineAt(syn, ContextAt(syn, lines, i), lines[i])
  }

  /** The state in front of line `i` of a run that never stops early. */
  function Before<U>(cfg: Config, h: Handler<U>, u: U, lines: seq<string>, i: nat): State<U>
    requires i <= |lines|
    decreases i
  {
    if i == 0 then Initial(u) else Step(cfg, h, Before(cfg, h, u, lines, i - 1), lines[i - 1])
  }

  lemma {:induction false} BeforeNext<U>(cfg: Config, h: Handler<U>, u: U, lines: seq<string>, i: nat)
    requires i < |lines|
    ensures Before(cfg, h, u, lines, i + 1) == Step(cfg, h, Before(cfg, h, u, lines, i), lines[i])
    ensures ContextAt(cfg.syntax, lines, i + 1) == Next(ContextAt(cfg.syntax, lines, i), KindAt(cfg.syntax, lines, i))
  {
    hide Step, LineAt, Next;
  }

  lemma {:induction false} StepContext<U>(cfg: Config, h: Handler<U>, st: State<U>, l: string)
    ensures Step(cfg, h, st, l).ctx == Next(st.ctx, LineAt(cfg.syntax, st.ctx, l))
    ensures Next(st.ctx, LineAt(cfg.syntax, st.ctx, l)).lineno == st.ctx.lineno + 1
  {
    hide LineAt;
  }

  lemma {:induction false} BeforeContext<U>(cfg: Config, h: Handler<U>, u: U, lines: seq<string>, i: nat)
    requires i <= |lines|
    ensures Before(cfg, h, u, lines, i).ctx == ContextAt(cfg.syntax, lines, i)
    ensures ContextAt(cfg.syntax, lines, i).lineno == i
    decreases i
  {
    hide Step, LineAt, Next;
    if i > 0 {
      BeforeContext(cfg, h, u, lines, i - 1);
      StepContext(cfg, h, Before(cfg, h, u, lines, i - 1), lines[i - 1]);
    }
  }

  /** A run goes line by line to its end, or to the first failing line when it stops there. */
  lemma {:induction false} FoldIsBefore<U>(cfg: Config, h: Handler<U>, u: U, lines: seq<string>, i: nat)
    returns (k: nat)
    requires i <= |lines|
    ensures i <= k <= |lines|
    ensures Fold(cfg, h, Before(cfg, h, u, lines, i), lines[i..]) == Before(cfg, h, u, lines, k)
    ensures k == |lines| || Stopped(cfg, Before(cfg, h, u, lines, k))
    ensures forall j | i <= j < k :: !Stopped(cfg, Before(cfg, h, u, lines, j))
    decreases |lines| - i
  {
    hide Step;
    k := i;
    if i < |lines| && !Stopped(cfg, Before(cfg, h, u, lines, i)) {
      assert lines[i..][1..] == lines[i + 1..];
      k := FoldIsBefore(cfg, h, u, lines, i + 1);
    }
  }

  // ---------------------------------------------------------------- the return code

  /** In a state without an error: the line itself is bad, or the handler refuses its call. */
  predicate Fails<U>(cfg: Config, h: Handler<U>, st: State<U>, l: string) {
    var line := LineAt(cfg.syntax, st.ctx, l);
    var call := CallFor(st.ctx, line);
    line.OpenHeader? || (line.NoValue? && !cfg.allowNoValue) || (call.Some? && !h(st.user, call.value).1)
  }

  lemma {:induction false} StepError<U>(cfg: Config, h: Handler<U>, st: State<U>, l: string)
    ensures var s := Step(cfg, h, st, l);
            && s.ctx.lineno == st.ctx.lineno + 1
            && s.error == if st.error == 0 && Fails(cfg, h, st, l) then st.ctx.lineno + 1 else st.error
  {
    hide LineAt;
  }

  predicate FailsAt<U>(cfg: Config, h: Handler<U>, u: U, lines: seq<string>, i: nat)
    requires i < |lines|
  {
    Fails(cfg, h, Before(cfg, h, u, lines, i), lines[i])
  }

  /** How the error changes from line to line. */
  lemma {:induction false} ErrorNext<U>(cfg: Config, h: Handler<U>, u: U, lines: seq<string>, i: nat)
    requires i < |lines|
    ensures var e := Before(cfg, h, u, lines, i).error;
            Before(cfg, h, u, lines, i + 1).error == if e == 0 && FailsAt(cfg, h, u, lines, i) then i + 1 else e
  {
    hide Before, Step, Fails, ContextAt;
    BeforeContext(cfg, h, u, lines, i);
    BeforeNext(cfg, h, u, lines, i);
    StepError(cfg, h, Before(cfg, h, u, lines, i), lines[i]);
  }

  lemma {:induction false} NoErrorYet<U>(cfg: Config, h: Handler<U>, u: U, lines: seq<string>)
    ensures Before(cfg, h, u, lines, 0) == Initial(u)
  {
  }

  lemma {:induction false} ErrorStays<U>(cfg: Config, h: Handler<U>, u: U, lines: seq<string>, i: nat, j: nat)
    requires i <= j <= |lines| && Before(cfg, h, u, lines, i).error != 0
    ensures Before(cfg, h, u, lines, j).error == Before(cfg, h, u, lines, i).error
    decreases j
  {
    hide *;
    if i < j {
      ErrorStays(cfg, h, u, lines, i, j - 1);
      ErrorNext(cfg, h, u, lines, j - 1);
    }
  }

  /** The error is there as soon as its line is done. */
  lemma {:induction false} ErrorOnTime<U>(cfg: Config, h: Handler<U>, u: U, lines: seq<string>, n: nat)
    requires n <= |lines| && Before(cfg, h, u, lines, n).error != 0
    ensures var e := Before(cfg, h, u, lines, n).error; e <= n && Before(cfg, h, u, lines, e).error == e
    decreases n
  {
    hide Before, FailsAt;
    if n == 0 {
      NoErrorYet(cfg, h, u, lines);
    } else {
      ErrorNext(cfg, h, u, lines, n - 1);
      if Before(cfg, h, u, lines, n - 1).error != 0 {
        ErrorOnTime(cfg, h, u, lines, n - 1);
      }
    }
  }

  lemma {:induction false} TraceGrows<U>(cfg: Config, h: Handler<U>, u: U, lines: seq<string>, i: nat, j: nat)
    requires i <= j <= |lines|
    ensures Before(cfg, h, u, lines, i).trace <= Before(cfg, h, u, lines, j).trace
    decreases j
  {
    hide *;
    if i < j {
      TraceGrows(cfg, h, u, lines, i, j - 1);
      BeforeNext(cfg, h, u, lines, j - 1);
      StepTrace(cfg, h, Before(cfg, h, u, lines, j - 1), lines[j - 1]);
    }
  }

  /** Where a run ends: at the end of the text, or right after the first failing line. */
  lemma {:induction false} RunEnd<U>(cfg: Config, h: Handler<U>, u: U, text: string) returns (k: nat)
    ensures var lines := Chunks(text, LineSize(cfg));
            && k <= |lines| && Run(cfg, h, u, text) == Before(cfg, h, u, lines, k)
            && Before(cfg, h, u, lines, k).error == Before(cfg, h, u, lines, |lines|).error
            && k == (if cfg.stopOnFirstError && Before(cfg, h, u, lines, |lines|).error > 0
                     then Before(cfg, h, u, lines, |lines|).error else |lines|)
  {
    hide Step, FailsAt, Chunks;
    var lines := Chunks(text, LineSize(cfg));
    k := FoldIsBefore(cfg, h, u, lines, 0);
    assert lines[0..] == lines;
    var e := Before(cfg, h, u, lines, k).error;
    if e != 0 {
      ErrorStays(cfg, h, u, lines, k, |lines|);
    }
    if e != 0 {
      ErrorOnTime(cfg, h, u, lines, k);
    }
  }

  lemma {:induction false} StepSame<U>(cfg: Config, stop: bool, h: Handler<U>, st: State<U>, l: string)
    ensures Step(cfg.(stopOnFirstError := stop), h, st, l) == Step(cfg, h, st, l)
  {
    hide LineAt;
  }

  /** A flag that only decides when to stop does not show in the states on the way. */
  lemma {:induction false} StopIsInvisible<U>(cfg: Config, stop: bool, h: Handler<U>, u: U, lines: seq<string>, i: nat)
    requires i <= |lines|
    ensures Before(cfg.(stopOnFirstError := stop), h, u, lines, i) == Before(cfg, h, u, lines, i)
    decreases i
  {
    hide *;
    var c := cfg.(stopOnFirstError := stop);
    if i == 0 {
      NoErrorYet(cfg, h, u, lines);
      NoErrorYet(c, h, u, lines);
    } else {
      StopIsInvisible(cfg, stop, h, u, lines, i - 1);
      BeforeNext(cfg, h, u, lines, i - 1);
      BeforeNext(c, h, u, lines, i - 1);
      StepSame(cfg, stop, h, Before(cfg, h, u, lines, i - 1), lines[i - 1]);
    }
  }

  /** Stopping at the first error returns the same code, after a prefix of the calls. */
  lemma {:induction false} StoppingIsPrefix<U>(cfg: Config, h: Handler<U>, u: U, text: string)
    ensures var early := Run(cfg.(stopOnFirstError := true), h, u, text);
            var late := Run(cfg.(stopOnFirstError := false), h, u, text);
            early.error == late.error && early.trace <= late.trace && (late.error == 0 ==> early == late)
  {
    hide Run, Step, Chunks;
    var on, off := cfg.(stopOnFirstError := true), cfg.(stopOnFirstError := false);
    var lines := Chunks(text, LineSize(cfg));
    var i := RunEnd(on, h, u, text);
    var j := RunEnd(off, h, u, text);
    StopIsInvisible(cfg, true, h, u, lines, i);
    StopIsInvisible(cfg, false, h, u, lines, j);
    StopIsInvisible(cfg, true, h, u, lines, j);
    TraceGrows(cfg, h, u, lines, i, j);
  }

  // ---------------------------------------------------------------- the calls

  /** The calls the flags promise for the first `i` lines: one for every pair and continuation,
      and for every line without a separator where those are allowed. The text alone fixes them. */
  function Promised(cfg: Config, lines: seq<string>, i: nat): seq<Call>
    requires i <= |lines|
    decreases i
  {
    if i == 0 then [] else Promised(cfg, lines, i - 1) + PromisedAt(cfg, lines, i - 1)
  }

  function PromisedAt(cfg: Config, lines: seq<string>, i: nat): seq<Call>
    requires i < |lines|
  {
    var line := KindAt(cfg.syntax, lines, i);
    var call := CallFor(ContextAt(cfg.syntax, lines, i), line);
    if call.None? || (line.NoValue? && !cfg.allowNoValue) then [] else [call.value]
  }

  /** Line `i` has no separator although that is allowed, and comes after the line of error `e`. */
  predicate Silenced(cfg: Config, lines: seq<string>, e: nat, i: nat)
    requires i < |lines|
  {
    cfg.allowNoValue && 0 < e <= i && KindAt(cfg.syntax, lines, i).NoValue?
  }

  lemma {:induction false} StepCalls<U>(cfg: Config, h: Handler<U>, u: U, lines: seq<string>, i: nat)
    requires i < |lines|
    ensures var st := Before(cfg, h, u, lines, i);
            Before(cfg, h, u, lines, i + 1).trace
              == st.trace + if Silenced(cfg, lines, st.error, i) then [] else PromisedAt(cfg, lines, i)
    ensures Silenced(cfg, lines, Before(cfg, h, u, lines, i).error, i) ==> PromisedAt(cfg, lines, i) != []
  {
    hide LineAt, Before, ContextAt;
    BeforeNext(cfg, h, u, lines, i);
    BeforeContext(cfg, h, u, lines, i);
    ErrorInRange(cfg, h, u, lines, i);
  }

  lemma {:induction false} ErrorInRange<U>(cfg: Config, h: Handler<U>, u: U, lines: seq<string>, i: nat)
    requires i <= |lines|
    ensures Before(cfg, h, u, lines, i).error <= i
    decreases i
  {
    hide Before, FailsAt;
    if i == 0 {
      NoErrorYet(cfg, h, u, lines);
    } else {
      ErrorInRange(cfg, h, u, lines, i - 1);
      ErrorNext(cfg, h, u, lines, i - 1);
    }
  }

  /** Calls are made as promised up to the first silenced line, and fewer are made after it. */
  lemma {:induction false} CallsUpTo<U>(cfg: Config, h: Handler<U>, u: U, lines: seq<string>, i: nat)
    requires i <= |lines|
    ensures var trace := Before(cfg, h, u, lines, i).trace;
            && |trace| <= |Promised(cfg, lines, i)|
            && (trace == Promised(cfg, lines, i)
                <==> forall j | 0 <= j < i :: !Silenced(cfg, lines, Before(cfg, h, u, lines, i).error, j))
    decreases i
  {
    hide Before, PromisedAt, Silenced;
    if i == 0 {
      NoErrorYet(cfg, h, u, lines);
    } else {
      CallsUpTo(cfg, h, u, lines, i - 1);
      StepCalls(cfg, h, u, lines, i - 1);
      SilencedLater(cfg, h, u, lines, i - 1);
      var p, q := Promised(cfg, lines, i - 1), PromisedAt(cfg, lines, i - 1);
      assert Promised(cfg, lines, i) == p + q;
      var t, t' := Before(cfg, h, u, lines, i - 1).trace, Before(cfg, h, u, lines, i).trace;
      if t' == p + q {
        assert |t'| == |p| + |q|;
        assert t == t'[..|p|] == p;
      }
    }
  }

  /** Whether an earlier line is silenced is settled by the error in front of line `i`. */
  lemma {:induction false} SilencedLater<U>(cfg: Config, h: Handler<U>, u: U, lines: seq<string>, i: nat)
    requires i < |lines|
    ensures var e, e' := Before(cfg, h, u, lines, i).error, Before(cfg, h, u, lines, i + 1).error;
            forall j | 0 <= j <= i :: Silenced(cfg, lines, e, j) <==> Silenced(cfg, lines, e', j)
  {
    hide Before, FailsAt, KindAt, ContextAt;
    ErrorNext(cfg, h, u, lines, i);
  }

  /** Header lines between `i` and `j`, and lines that decide the pending name. */
  ghost predicate NoHeader(syn: Syntax, lines: seq<string>, i: nat, j: nat)
    requires j <= |lines|
  {
    forall k | i <= k < j :: !KindAt(syn, lines, k).Header?
  }

  ghost predicate NoPair(syn: Syntax, lines: seq<string>, i: nat, j: nat)
    requires j <= |lines|
  {
    forall k | i <= k < j :: !KindAt(syn, lines, k).Pair?
  }

  /** `section` is the start of the last header in front of line `n`, or "" without a header. */
  ghost predicate SectionOf(syn: Syntax, lines: seq<string>, n: nat, section: string)
    requires n <= |lines|
  {
    || (section == "" && NoHeader(syn, lines, 0, n))
    || exists i | 0 <= i < n ::
         && KindAt(syn, lines, i).Header? && NoHeader(syn, lines, i + 1, n)
         && section == Cut(KindAt(syn, lines, i).section, 49)
  }

  /** `name` is the start of the non-empty name of the last pair in front of line `n`, and no
      header came since. */
  ghost predicate PendingName(syn: Syntax, lines: seq<string>, n: nat, name: string)
    requires n <= |lines|
  {
    exists i | 0 <= i < n ::
      && KindAt(syn, lines, i).Pair? && KindAt(syn, lines, i).name != ""
      && NoHeader(syn, lines, i + 1, n) && NoPair(syn, lines, i + 1, n)
      && name == Cut(KindAt(syn, lines, i).name, 49)
  }

  lemma {:induction false} ContextOrigin(syn: Syntax, lines: seq<string>, n: nat)
    requires n <= |lines|
    ensures SectionOf(syn, lines, n, ContextAt(syn, lines, n).section)
    ensures ContextAt(syn, lines, n).prevName != "" ==> PendingName(syn, lines, n, ContextAt(syn, lines, n).prevName)
    ensures forall name | PendingName(syn, lines, n, name) :: name != "" && name == ContextAt(syn, lines, n).prevName
    decreases n
  {
    hide KindAt, SectionOf, PendingName;
    forall name | PendingName(syn, lines, n, name)
      ensures name != "" && name == ContextAt(syn, lines, n).prevName
    {
      PendingIs(syn, lines, n, name);
    }
    if n == 0 {
      NoSection(syn, lines);
    } else {
      ContextOrigin(syn, lines, n - 1);
      var ctx, line := ContextAt(syn, lines, n - 1), KindAt(syn, lines, n - 1);
      SectionStep(syn, lines, n - 1, ctx.section);
      if line.Pair? {
        PairStep(syn, lines, n - 1);
      } else if !line.Header? && ctx.prevName != "" {
        NameStep(syn, lines, n - 1, ctx.prevName);
      }
    }
  }

  /** The pending name stays where neither a header nor a pair comes. */
  lemma {:induction false} NameKept(syn: Syntax, lines: seq<string>, i: nat, n: nat)
    requires i <= n <= |lines| && NoHeader(syn, lines, i, n) && NoPair(syn, lines, i, n)
    ensures ContextAt(syn, lines, n).prevName == ContextAt(syn, lines, i).prevName
    decreases n
  {
    hide KindAt;
    if i < n {
      NameKept(syn, lines, i, n - 1);
    }
  }

  lemma {:induction false} PendingIs(syn: Syntax, lines: seq<string>, n: nat, name: string)
    requires n <= |lines| && PendingName(syn, lines, n, name)
    ensures name != "" && name == ContextAt(syn, lines, n).prevName
  {
    hide KindAt;
    var i :| 0 <= i < n && KindAt(syn, lines, i).Pair? && KindAt(syn, lines, i).name != ""
             && NoHeader(syn, lines, i + 1, n) && NoPair(syn, lines, i + 1, n)
             && name == Cut(KindAt(syn, lines, i).name, 49);
    NameKept(syn, lines, i + 1, n);
  }

  lemma {:induction false} NoSection(syn: Syntax, lines: seq<string>)
    ensures SectionOf(syn, lines, 0, "")
  {
  }

  lemma {:induction false} PairStep(syn: Syntax, lines: seq<string>, n: nat)
    requires n < |lines| && KindAt(syn, lines, n).Pair?
    ensures var name := Cut(KindAt(syn, lines, n).name, 49);
            name != "" ==> PendingName(syn, lines, n + 1, name)
  {
    hide KindAt;
  }

  lemma {:induction false} SectionStep(syn: Syntax, lines: seq<string>, n: nat, section: string)
    requires n < |lines| && SectionOf(syn, lines, n, section)
    ensures var line := KindAt(syn, lines, n);
            SectionOf(syn, lines, n + 1, if line.Header? then Cut(line.section, 49) else section)
  {
    hide KindAt;
    if section != "" || !NoHeader(syn, lines, 0, n) {
      var i :| 0 <= i < n && KindAt(syn, lines, i).Header? && NoHeader(syn, lines, i + 1, n)
               && section == Cut(KindAt(syn, lines, i).section, 49);
      assert !KindAt(syn, lines, n).Header? ==> NoHeader(syn, lines, i + 1, n + 1);
    }
  }

  lemma {:induction false} NameStep(syn: Syntax, lines: seq<string>, n: nat, name: string)
    requires n < |lines| && PendingName(syn, lines, n, name)
    requires !KindAt(syn, lines, n).Header? && !KindAt(syn, lines, n).Pair?
    ensures PendingName(syn, lines, n + 1, name)
  {
    hide KindAt;
    var i :| 0 <= i < n && KindAt(syn, lines, i).Pair? && KindAt(syn, lines, i).name != ""
             && NoHeader(syn, lines, i + 1, n) && NoPair(syn, lines, i + 1, n)
             && name == Cut(KindAt(syn, lines, i).name, 49);
    assert NoHeader(syn, lines, i + 1, n + 1) && NoPair(syn, lines, i + 1, n + 1);
  }

  /** Line `i` accounts for call `c`: its section is that of the last header, and a continuation
      carries the name of the last pair, which no header separates from it. */
  ghost predicate CallOrigin(syn: Syntax, lines: seq<string>, i: nat, c: Call)
    requires i < |lines|
  {
    && SectionOf(syn, lines, i, c.section)
    && match KindAt(syn, lines, i)
       case Continuation(v) => c.value == Some(v) && PendingName(syn, lines, i, c.name)
       case Pair(n, v) => c.name == n && c.value == Some(v)
       case NoValue(n) => c.name == n && c.value == None
       case _ => false
  }

  lemma {:induction false} PromisedOrigin(cfg: Config, lines: seq<string>, i: nat)
    requires i < |lines|
    ensures forall c | c in PromisedAt(cfg, lines, i) :: CallOrigin(cfg.syntax, lines, i, c)
  {
    hide ContextAt, SectionOf, PendingName, StripBom, HeaderLine, PairLine, RTrim, LTrim;
    ContextOrigin(cfg.syntax, lines, i);
    KindOfContinuation(cfg.syntax, lines, i);
  }

  lemma {:induction false} KindOfContinuation(syn: Syntax, lines: seq<string>, i: nat)
    requires i < |lines|
    ensures KindAt(syn, lines, i).Continuation? ==> ContextAt(syn, lines, i).prevName != ""
  {
    hide ContextAt, StripBom, RTrim, LTrim, ValueOf;
  }

  /** `at` tells the lines behind the first calls of a run, one line for each call, in order. */
  ghost predicate CallLines(syn: Syntax, lines: seq<string>, n: nat, trace: seq<Call>, at: seq<nat>)
    requires n <= |lines|
  {
    && |at| == |trace|
    && (forall k | 0 <= k < |at| :: at[k] < n && CallOrigin(syn, lines, at[k], trace[k]))
    && (forall j, k | 0 <= j < k < |at| :: at[j] < at[k])
  }

  lemma {:induction false} CallLinesNext(
      cfg: Config, lines: seq<string>, n: nat, trace: seq<Call>, at: seq<nat>, silenced: bool)
    returns (more: seq<nat>)
    requires n < |lines| && CallLines(cfg.syntax, lines, n, trace, at)
    ensures CallLines(cfg.syntax, lines, n + 1, trace + (if silenced then [] else PromisedAt(cfg, lines, n)), more)
  {
    hide CallOrigin, KindAt, ContextAt;
    PromisedOrigin(cfg, lines, n);
    if silenced || PromisedAt(cfg, lines, n) == [] {
      more := at;
      assert trace + [] == trace;
    } else {
      more := at + [n];
    }
  }

  lemma {:induction false} CallsHaveOrigin<U>(cfg: Config, h: Handler<U>, u: U, lines: seq<string>, n: nat)
    returns (at: seq<nat>)
    requires n <= |lines|
    ensures CallLines(cfg.syntax, lines, n, Before(cfg, h, u, lines, n).trace, at)
    decreases n
  {
    hide Before, Silenced, PromisedAt, CallLines;
    if n == 0 {
      NoErrorYet(cfg, h, u, lines);
      at := [];
      NoCallLines(cfg.syntax, lines);
    } else {
      at := CallsHaveOrigin(cfg, h, u, lines, n - 1);
      StepCalls(cfg, h, u, lines, n - 1);
      var st := Before(cfg, h, u, lines, n - 1);
      at := CallLinesNext(cfg, lines, n - 1, st.trace, at, Silenced(cfg, lines, st.error, n - 1));
    }
  }

  lemma {:induction false} NoCallLines(syn: Syntax, lines: seq<string>)
    ensures CallLines(syn, lines, 0, [], [])
  {
  }

  /** The calls of every run come from lines of the text, each from a line of its own and in the
      order of the lines, in the section and under the name that are due there. */
  lemma {:induction false} RunCallsHaveOrigin<U>(cfg: Config, h: Handler<U>, u: U, text: string)
    returns (at: seq<nat>)
    ensures var lines := Chunks(text, LineSize(cfg));
            CallLines(cfg.syntax, lines, |lines|, Run(cfg, h, u, text).trace, at)
  {
    hide Run, Chunks, Before, CallOrigin;
    var k := RunEnd(cfg, h, u, text);
    at := CallsHaveOrigin(cfg, h, u, Chunks(text, LineSize(cfg)), k);
  }

  // ---------------------------------------------------------------- the caller's state

  /** A caller's state after a list of calls. */
  function Deliver<U>(h: Handler<U>, u: U, calls: seq<Call>): U
    decreases |calls|
  {
    if calls == [] then u else h(Deliver(h, u, calls[..|calls| - 1]), calls[|calls| - 1]).0
  }

  lemma {:induction false} DeliverOne<U>(h: Handler<U>, u: U, calls: seq<Call>, c: Call)
    ensures Deliver(h, u, calls + [c]) == h(Deliver(h, u, calls), c).0
  {
    assert (calls + [c])[..|calls|] == calls;
  }

  lemma {:induction false} DeliverNone<U>(h: Handler<U>, u: U)
    ensures Deliver(h, u, []) == u
  {
  }

  lemma {:induction false} StepUser<U>(cfg: Config, h: Handler<U>, u: U, st: State<U>, l: string)
    requires st.user == Deliver(h, u, st.trace)
    ensures Step(cfg, h, st, l).user == Deliver(h, u, Step(cfg, h, st, l).trace)
  {
    hide LineAt, Deliver;
    forall c
      ensures Deliver(h, u, st.trace + [c]) == h(st.user, c).0
    {
      DeliverOne(h, u, st.trace, c);
    }
  }

  lemma {:induction false} UserIsDelivered<U>(cfg: Config, h: Handler<U>, u: U, lines: seq<string>, i: nat)
    requires i <= |lines|
    ensures Before(cfg, h, u, lines, i).user == Deliver(h, u, Before(cfg, h, u, lines, i).trace)
    decreases i
  {
    hide Before, Step, Deliver;
    if i == 0 {
      NoErrorYet(cfg, h, u, lines);
      DeliverNone(h, u);
    } else {
      UserIsDelivered(cfg, h, u, lines, i - 1);
      BeforeNext(cfg, h, u, lines, i - 1);
      StepUser(cfg, h, u, Before(cfg, h, u, lines, i - 1), lines[i - 1]);
    }
  }

  /** The caller's state after a run is what its calls make of it, in order. */
  lemma {:induction false} RunUser<U>(cfg: Config, h: Handler<U>, u: U, text: string)
    ensures Run(cfg, h, u, text).user == Deliver(h, u, Run(cfg, h, u, text).trace)
  {
    hide Run, Chunks, Before, Deliver;
    var k := RunEnd(cfg, h, u, text);
    UserIsDelivered(cfg, h, u, Chunks(text, LineSize(cfg)), k);
  }

  /** Values are missing only where lines without a separator are allowed. */
  lemma {:induction false} ValuesPresent<U>(cfg: Config, h: Handler<U>, u: U, text: string)
    requires !cfg.allowNoValue
    ensures forall c | c in Run(cfg, h, u, text).trace :: c.value.Some?
  {
    hide Run, Chunks, Before;
    var k := RunEnd(cfg, h, u, text);
    BeforeValues(cfg, h, u, Chunks(text, LineSize(cfg)), k);
  }

  lemma {:induction false} BeforeValues<U>(cfg: Config, h: Handler<U>, u: U, lines: seq<string>, i: nat)
    requires i <= |lines| && !cfg.allowNoValue
    ensures forall c | c in Before(cfg, h, u, lines, i).trace :: c.value.Some?
    decreases i
  {
    hide Before, KindAt, ContextAt;
    if i == 0 {
      NoErrorYet(cfg, h, u, lines);
    } else {
      BeforeValues(cfg, h, u, lines, i - 1);
      StepCalls(cfg, h, u, lines, i - 1);
    }
  }

  // ---------------------------------------------------------------- code and calls, from text and handler

  /** Line `i` is bad in itself, or the handler refuses its call after the calls promised for the
      lines in front of it. Only text, flags and handler decide that. */
  predicate Bad<U>(cfg: Config, h: Handler<U>, u: U, lines: seq<string>, i: nat)
    requires i < |lines|
  {
    var line, calls := KindAt(cfg.syntax, lines, i), PromisedAt(cfg, lines, i);
    || line.OpenHeader?
    || (line.NoValue? && !cfg.allowNoValue)
    || (calls != [] && !h(Deliver(h, u, Promised(cfg, lines, i)), calls[0]).1)
  }

  ghost predicate NoneBad<U>(cfg: Config, h: Handler<U>, u: U, lines: seq<string>, n: nat)
    requires n <= |lines|
  {
    forall i | 0 <= i < n :: !Bad(cfg, h, u, lines, i)
  }

  /** `e` is the number of the first bad one of the first `n` lines, or 0 when none is bad. */
  ghost predicate FirstBad<U>(cfg: Config, h: Handler<U>, u: U, lines: seq<string>, n: nat, e: nat)
    requires n <= |lines|
  {
    if e == 0 then NoneBad(cfg, h, u, lines, n)
    else e <= n && Bad(cfg, h, u, lines, e - 1) && NoneBad(cfg, h, u, lines, e - 1)
  }

  /** As long as a run has no error it has made the promised calls, and its next line fails
      exactly when it is bad. */
  lemma {:induction false} FailsIsBad<U>(cfg: Config, h: Handler<U>, u: U, lines: seq<string>, i: nat)
    requires i < |lines| && Before(cfg, h, u, lines, i).error == 0
    requires Before(cfg, h, u, lines, i).trace == Promised(cfg, lines, i)
    ensures FailsAt(cfg, h, u, lines, i) == Bad(cfg, h, u, lines, i)
  {
    hide Before, ContextAt, Deliver, LineAt, Promised;
    BeforeContext(cfg, h, u, lines, i);
    UserIsDelivered(cfg, h, u, lines, i);
  }

  lemma {:induction false} ErrorIsFirstBad<U>(cfg: Config, h: Handler<U>, u: U, lines: seq<string>, n: nat)
    requires n <= |lines|
    ensures FirstBad(cfg, h, u, lines, n, Before(cfg, h, u, lines, n).error)
    ensures Before(cfg, h, u, lines, n).error == 0 ==> Before(cfg, h, u, lines, n).trace == Promised(cfg, lines, n)
    decreases n
  {
    hide Before, FailsAt, Bad, PromisedAt, KindAt;
    if n == 0 {
      NoErrorYet(cfg, h, u, lines);
    } else {
      ErrorIsFirstBad(cfg, h, u, lines, n - 1);
      ErrorNext(cfg, h, u, lines, n - 1);
      StepCalls(cfg, h, u, lines, n - 1);
      if Before(cfg, h, u, lines, n - 1).error == 0 {
        FailsIsBad(cfg, h, u, lines, n - 1);
      }
    }
  }

  /** The return code is the number of the first bad chunk-line, and 0 exactly when none is bad,
      whether or not the run stops at it. */
  lemma {:induction false} ReturnCode<U>(cfg: Config, h: Handler<U>, u: U, text: string)
    ensures var lines := Chunks(text, LineSize(cfg));
            FirstBad(cfg, h, u, lines, |lines|, Run(cfg, h, u, text).error)
  {
    hide FirstBad, Run, Chunks, Before;
    var k := RunEnd(cfg, h, u, text);
    ErrorIsFirstBad(cfg, h, u, Chunks(text, LineSize(cfg)), |Chunks(text, LineSize(cfg))|);
  }

  /** A bad line with a line without a separator behind it, where such lines are allowed. */
  ghost predicate BadThenNoValue<U>(cfg: Config, h: Handler<U>, u: U, lines: seq<string>) {
    cfg.allowNoValue && exists i, j | 0 <= i < j < |lines| ::
      Bad(cfg, h, u, lines, i) && KindAt(cfg.syntax, lines, j).NoValue?
  }

  lemma {:induction false} SilencedIsBehindBad<U>(cfg: Config, h: Handler<U>, u: U, lines: seq<string>, e: nat)
    requires FirstBad(cfg, h, u, lines, |lines|, e)
    ensures (exists j | 0 <= j < |lines| :: Silenced(cfg, lines, e, j)) <==> BadThenNoValue(cfg, h, u, lines)
  {
    hide Bad, KindAt;
    if j :| 0 <= j < |lines| && Silenced(cfg, lines, e, j) {
      assert Bad(cfg, h, u, lines, e - 1) && KindAt(cfg.syntax, lines, j).NoValue?;
    } else if BadThenNoValue(cfg, h, u, lines) {
      var i, j :| 0 <= i < j < |lines| && Bad(cfg, h, u, lines, i) && KindAt(cfg.syntax, lines, j).NoValue?;
      assert !NoneBad(cfg, h, u, lines, |lines|) && (e > 0 ==> e - 1 <= i);
      assert Silenced(cfg, lines, e, j);
    }
  }

  /** A run that goes to the end makes exactly the promised calls if and only if no line without
      a separator comes behind a bad line while such lines are allowed. */
  lemma {:induction false} CallsAsPromised<U>(cfg: Config, h: Handler<U>, u: U, text: string)
    requires !cfg.stopOnFirstError
    ensures var lines := Chunks(text, LineSize(cfg));
            Run(cfg, h, u, text).trace == Promised(cfg, lines, |lines|) <==> !BadThenNoValue(cfg, h, u, lines)
  {
    hide Run, Before, Chunks, Promised, Silenced, FirstBad, BadThenNoValue;
    var lines := Chunks(text, LineSize(cfg));
    var k := RunEnd(cfg, h, u, text);
    CallsUpTo(cfg, h, u, lines, |lines|);
    ReturnCode(cfg, h, u, text);
    SilencedIsBehindBad(cfg, h, u, lines, Run(cfg, h, u, text).error);
  }

  /** So with such lines disallowed, the calls do not depend on the handler's answers. */
  lemma {:induction false} CallsFixedByText<U, V>(cfg: Config, h: Handler<U>, u: U, g: Handler<V>, v: V, text: string)
    requires !cfg.stopOnFirstError && !cfg.allowNoValue
    ensures Run(cfg, h, u, text).trace == Run(cfg, g, v, text).trace
  {
    hide Run, Chunks, Promised, KindAt, Bad;
    CallsAsPromised(cfg, h, u, text);
    CallsAsPromised(cfg, g, v, text);
  }
}
