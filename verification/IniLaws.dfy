/** What the kinds of lines are, in terms of their characters alone. */
module IniLaws {
  import opened CText
  import opened IniSpec
  import opened IniLines

  /** White space of the C locale: space, tab, newline, vertical tab, form feed, return. */
  const SPACES: string := " \t\n\U{0B}\U{0C}\r"

  const MARK: string := "\U{EF}\U{BB}\U{BF}"

  lemma {:induction false} SpaceIs(c: char)
    ensures IsSpace(c) <==> c in SPACES
    ensures MARK == BOM
  {
  }

  ghost predicate Spaces(s: string) {
    forall i | 0 <= i < |s| :: s[i] in SPACES
  }

  /** Neither end is white space. */
  ghost predicate Inner(s: string) {
    s != "" ==> s[0] !in SPACES && s[|s| - 1] !in SPACES
  }

  lemma {:induction false} SpacesAre(s: string)
    ensures Spaces(s) <==> AllSpace(s)
    ensures Inner(s) <==> Bare(s)
  {
    hide IsSpace;
    forall i | 0 <= i < |s|
      ensures IsSpace(s[i]) <==> s[i] in SPACES
    {
      SpaceIs(s[i]);
    }
  }

  // ---------------------------------------------------------------- all kinds

  /** How a line without a byte-order mark is read. `w` is its leading white space, `t` the
      white space that ends it, and `v` what is in between. */
  lemma {:induction false} KindMeaning(syn: Syntax, first: bool, hasName: bool, w: string, v: string, t: string)
    requires Spaces(w) && Spaces(t) && Inner(v) && !(first && syn.bom && MARK <= w + v + t)
    ensures var line := Classify(syn, first, hasName, w + v + t);
            && (line.Skip? <==> v == "" || v[0] in syn.startPrefixes)
            && (line.Continuation? <==> v != "" && v[0] !in syn.startPrefixes && syn.multiline && hasName && w != "")
            && (line.Continuation? ==> line.text == v)
            && (line.Header? || line.OpenHeader?
                <==> !line.Skip? && !line.Continuation? && v[0] == '[')
  {
    hide HeaderLine, PairLine, RTrim, LTrim, IsSpace;
    SpacesAre(w);
    SpacesAre(v);
    SpacesAre(t);
    SpaceIs(' ');
    TrimmedLine(syn, first, w, v, t);
    LineForms(syn, v);
  }

  lemma {:induction false} TrimmedLine(syn: Syntax, first: bool, w: string, v: string, t: string)
    requires AllSpace(w) && AllSpace(t) && Bare(v) && !(first && syn.bom && BOM <= w + v + t)
    ensures StripBom(syn, first, w + v + t) == w + v + t
    ensures v == "" ==> RTrim(w + v + t) == "" && LTrim("") == ""
    ensures v != "" ==> RTrim(w + v + t) == w + v && LTrim(w + v) == v
  {
    hide RTrim, LTrim;
    if v == "" {
      AllSpaceTrims(w + v + t);
      AllSpaceTrims("");
    } else {
      TrimIs(w, v, t);
      LTrimIs(w, v);
    }
  }

  lemma {:induction false} LineForms(syn: Syntax, v: string)
    ensures v != "" ==> HeaderLine(syn, v).Header? || HeaderLine(syn, v).OpenHeader?
    ensures PairLine(syn, v).Pair? || PairLine(syn, v).NoValue?
  {
  }

  /** Every indented line that is not blank and no comment goes on with the value of the name in
      front of it, however deep the indentation. */
  lemma {:induction false} IndentedContinues(syn: Syntax, first: bool, w: string, v: string, t: string)
    requires syn.multiline && w != "" && Spaces(w) && Spaces(t)
    requires v != "" && Inner(v) && v[0] !in syn.startPrefixes
    ensures Classify(syn, first, true, w + v + t) == Continuation(v)
  {
    hide Classify;
    assert !(MARK <= w + v + t) by {
      assert (w + v + t)[0] == w[0] && MARK[0] !in SPACES;
    }
    KindMeaning(syn, first, true, w, v, t);
  }

  /** And nothing else does: a line without a byte-order mark is a continuation if and only if
      these are on, a name is pending, the line starts with white space, and what is left between
      its white space is not empty and starts no comment. */
  lemma {:induction false} ContinuationMeaning(syn: Syntax, first: bool, hasName: bool, l: string)
    requires !(MARK <= l)
    ensures Classify(syn, first, hasName, l).Continuation?
       <==> && syn.multiline && hasName && l != "" && l[0] in SPACES
            && Trim(l) != "" && Trim(l)[0] !in syn.startPrefixes
    ensures var line := Classify(syn, first, hasName, l); line.Continuation? ==> line.text == Trim(l)
  {
    hide Classify, RTrim, LTrim, IsSpace;
    var w, v, t := Pieces(l);
    KindMeaning(syn, first, hasName, w, v, t);
    if w != "" {
      assert l[0] == w[0];
    } else if v != "" {
      assert l[0] == v[0];
    }
  }

  /** The white space around what `Trim` keeps; none leads a blank line. */
  lemma {:induction false} Pieces(l: string) returns (w: string, v: string, t: string)
    ensures l == w + v + t && Spaces(w) && Spaces(t) && Inner(v) && v == Trim(l)
  {
    hide TrimEnd, TrimStart, IsSpace;
    var r := RTrim(l);
    v := LTrim(r);
    w, t := r[..|r| - |v|], l[|r|..];
    SpacesAre(w);
    SpacesAre(v);
    SpacesAre(t);
    assert r == w + v;
  }

  // ---------------------------------------------------------------- inline comments

  lemma {:induction false} Leading(w: string, v: string, t: string, l: string)
    requires l != "" && l == w + v + t && Spaces(w) && Spaces(t)
    ensures l[0] !in SPACES ==> w == "" && v != ""
  {
    assert l[0] == if w != "" then w[0] else if v != "" then v[0] else t[0];
  }

  lemma {:induction false} InFront(l: string, m: string, k: nat)
    requires m <= l && k < |l| && Spaces(l[|m|..])
    ensures l[k] !in SPACES ==> k < |m|
  {
    assert |m| <= k ==> l[|m|..][k - |m|] == l[k];
  }

  /** A line that starts with neither white space nor a comment character is read from its text
      without the white space that ends it. */
  lemma {:induction false} PlainLine(syn: Syntax, first: bool, hasName: bool, l: string) returns (m: string)
    requires l != "" && l[0] !in SPACES && l[0] !in syn.startPrefixes
    requires !(first && syn.bom && MARK <= l)
    ensures m != "" && m <= l && Inner(m) && Spaces(l[|m|..])
    ensures Classify(syn, first, hasName, l) == if l[0] == '[' then HeaderLine(syn, m) else PairLine(syn, m)
  {
    hide PairLine, HeaderLine, RTrim, LTrim, IsSpace;
    var w, v, t := Pieces(l);
    m := v;
    Leading(w, v, t, l);
    assert l[0] == v[0] && l == "" + v + t && l[|m|..] == t;
    SpacesAre(w);
    SpacesAre(v);
    SpacesAre(t);
    TrimmedLine(syn, first, "", v, t);
    assert "" + v == v;
  }

  /** A value ends in front of the white space before its inline comment. */
  lemma {:induction false} CommentCut(syn: Syntax, v: string, w: string, p: char, rest: string, x: string)
    requires syn.inlineComments && p in syn.inlinePrefixes && w != "" && Spaces(w) && Inner(v)
    requires forall i | 0 < i < |v| :: !(v[i - 1] in SPACES && v[i] in syn.inlinePrefixes)
    requires v <= x <= v + w + [p] + rest
    ensures ValueOf(syn, x) == v
  {
    hide RTrim, LTrim, IsSpace;
    var e, n := Find(syn, x, "", 0), |v| + |w|;
    forall i | 0 <= i < |x|
      ensures StopsAt(syn, x, "", i) <==> i > 0 && x[i - 1] in SPACES && x[i] in syn.inlinePrefixes
    {
      if i > 0 {
        SpaceIs(x[i - 1]);
      }
    }
    assert |x| > n ==> x[n] == p && x[n - 1] == w[|w| - 1];
    assert |v| <= e <= n;
    var u := x[|v|..e];
    assert u == w[..e - |v|];
    assert x[..e] == "" + v + u;
    SpacesAre(u);
    SpacesAre(v);
    ValueTrims("", v, u);
  }

  /** "name=value ;comment" is the pair of that name and value: white space and a comment character
      end the value, and what follows is dropped. Name and value are any text without white space
      at its ends, a separator in the name, or such an end in either. */
  lemma {:induction false} CommentedPair(
      syn: Syntax, first: bool, hasName: bool, n: string, v: string, w: string, p: char, c: string)
    requires syn.inlineComments && p in syn.inlinePrefixes && w != "" && Spaces(w) && Inner(n) && Inner(v)
    requires forall i | 0 <= i < |n| :: n[i] != '=' && n[i] != ':'
    requires forall i | 0 < i < |n| :: !(n[i - 1] in SPACES && n[i] in syn.inlinePrefixes)
    requires forall i | 0 < i < |v| :: !(v[i - 1] in SPACES && v[i] in syn.inlinePrefixes)
    requires var c0 := (n + "=")[0]; c0 !in syn.startPrefixes && c0 != '['
    requires !(first && syn.bom && MARK <= n + "=" + v + w + [p] + c + "\n")
    ensures Classify(syn, first, hasName, n + "=" + v + w + [p] + c + "\n") == Pair(n, v)
  {
    hide Classify, PairLine;
    var l := n + "=" + v + w + [p] + c + "\n";
    assert l[0] == (n + "=")[0];
    var m := PlainLine(syn, first, hasName, l);
    assert n + "=" + v + (w + [p] + c + "\n") == l;
    KeepsValue(n, v, w + [p] + c + "\n", m);
    assert v + (w + [p] + c + "\n") == v + w + [p] + (c + "\n");
    CommentCut(syn, v, w, p, c + "\n", m[|n| + 1..]);
    NameOfPair(syn, n, m);
  }

  /** "[section]" is a header for the section whatever follows it on the line, if nothing in the
      section ends the scan for its ']'. */
  lemma {:induction false} CommentedHeader(syn: Syntax, first: bool, hasName: bool, s: string, rest: string)
    requires '[' !in syn.startPrefixes && ']' !in s
    requires syn.inlineComments ==> forall i | 0 < i < |s| :: !(s[i - 1] in SPACES && s[i] in syn.inlinePrefixes)
    ensures Classify(syn, first, hasName, "[" + s + "]" + rest) == Header(s)
  {
    hide Classify, PairLine, HeaderLine, IsSpace;
    var l := "[" + s + "]" + rest;
    assert l[0] == '[' && l[|s| + 1] == ']';
    var m := PlainLine(syn, first, hasName, l);
    InFront(l, m, |s| + 1);
    assert "[" + s + "]" == l[..|s| + 2] == m[..|s| + 2];
    forall i | 0 <= i < |s|
      ensures s[i] !in "]" && !CommentAt(syn, s, i)
    {
      if i > 0 {
        SpaceIs(s[i - 1]);
      }
    }
    HeaderMeaning(syn, m, s);
  }

  /** Trailing white space starts behind the value. */
  lemma {:induction false} KeepsValue(n: string, v: string, rest: string, m: string)
    requires Inner(v) && m <= n + "=" + v + rest && Spaces((n + "=" + v + rest)[|m|..])
    ensures |n| < |m| && m[..|n|] == n && m[|n|] == '=' && v <= m[|n| + 1..] <= v + rest
  {
    var l, k := n + "=" + v + rest, |n| + 1 + |v|;
    assert l[|n|] == '=' && (v != "" ==> l[k - 1] == v[|v| - 1]);
    InFront(l, m, k - 1);
    assert l[|n| + 1..] == v + rest && m[|n| + 1..] == l[|n| + 1..|m|];
  }

  lemma {:induction false} NameOfPair(syn: Syntax, n: string, m: string)
    requires |n| < |m| && m[..|n|] == n && m[|n|] == '=' && Inner(n)
    requires forall i | 0 <= i < |n| :: n[i] != '=' && n[i] != ':'
    requires forall i | 0 < i < |n| :: !(n[i - 1] in SPACES && n[i] in syn.inlinePrefixes)
    ensures PairLine(syn, m) == Pair(n, ValueOf(syn, m[|n| + 1..]))
  {
    hide ValueOf, RTrim, IsSpace;
    forall i | 0 <= i < |n|
      ensures !StopsAt(syn, m, "=:", i)
    {
      assert m[i] == n[i];
      if i > 0 {
        assert m[i - 1] == n[i - 1];
        SpaceIs(n[i - 1]);
      }
    }
    FindIs(syn, m, "=:", 0, |n|);
    SpacesAre(n);
    BareTrims(n);
  }
}
