/** What the line forms mean: the pieces a header or a pair line is made of. */
module IniLines {
  import opened CText
  import opened IniSpec

  /** An inline comment starts at position `i`: right behind white space, with a comment
      character, where inline comments are on. */
  predicate CommentAt(syn: Syntax, s: string, i: nat)
    requires i < |s|
  {
    syn.inlineComments && i > 0 && IsSpace(s[i - 1]) && s[i] in syn.inlinePrefixes
  }

  /** No wanted character and no inline comment in `s`. */
  ghost predicate Undisturbed(syn: Syntax, s: string, chars: string) {
    forall i | 0 <= i < |s| :: s[i] !in chars && !CommentAt(syn, s, i)
  }

  /** A scan goes on exactly over undisturbed text. */
  lemma {:induction false} UndisturbedMeans(syn: Syntax, s: string, chars: string)
    ensures Undisturbed(syn, s, chars) <==> forall i | 0 <= i < |s| :: !StopsAt(syn, s, chars, i)
  {
    assert forall i | 0 <= i < |s| :: StopsAt(syn, s, chars, i) <==> s[i] in chars || CommentAt(syn, s, i);
  }

  lemma {:induction false} FindIs(syn: Syntax, s: string, chars: string, from: nat, i: nat)
    requires from <= i <= |s| && StopsAt(syn, s, chars, i)
    requires forall j | from <= j < i :: !StopsAt(syn, s, chars, j)
    ensures Find(syn, s, chars, from) == i
  {
  }

  /** A scan stops at the end of an undisturbed text, or at the wanted character behind it. */
  lemma {:induction false} FindBehind(syn: Syntax, s: string, tail: string, chars: string)
    requires tail == "" || tail[0] in chars
    ensures Find(syn, s + tail, chars, 0) <= |s|
    ensures Find(syn, s + tail, chars, 0) == |s| <==> Undisturbed(syn, s, chars)
  {
    var t := s + tail;
    assert forall j | 0 <= j < |s| :: StopsAt(syn, t, chars, j) <==> StopsAt(syn, s, chars, j);
    assert StopsAt(syn, t, chars, |s|);
    UndisturbedMeans(syn, s, chars);
    if Undisturbed(syn, s, chars) {
      FindIs(syn, t, chars, 0, |s|);
    }
  }

  /** A '[' line is a header for `s` exactly when it starts with "[s]" and nothing in `s` ends
      the scan for ']' early. Whatever follows the ']' is ignored. */
  lemma {:induction false} HeaderMeaning(syn: Syntax, body: string, s: string)
    requires body != "" && body[0] == '['
    ensures HeaderLine(syn, body) == Header(s) <==> "[" + s + "]" <= body && Undisturbed(syn, s, "]")
  {
    hide StopsAt, Undisturbed;
    var text := body[1..];
    var end := Find(syn, text, "]", 0);
    if "[" + s + "]" <= body {
      assert text[|s|..] == body[|s| + 1..] && text[|s|] == ("[" + s + "]")[|s| + 1];
      assert text == s + text[|s|..];
      FindBehind(syn, s, text[|s|..], "]");
    }
    if HeaderLine(syn, body) == Header(s) {
      assert body[..|s| + 2] == "[" + s + "]";
    }
  }

  lemma {:induction false} BareTrims(s: string)
    requires Bare(s)
    ensures RTrim(s) == s && LTrim(s) == s
  {
    RTrimAt(s, |s|);
    LTrimAt(s, 0);
  }

  /** The pieces of a pair line: the name, the separator and the value with the white space
      around each, and an inline comment. */
  datatype Parts = Parts(name: string, w1: string, sep: char, w2: string, value: string, w3: string, comment: string)
  {
    function Left(): string { name + w1 }

    function Right(): string { w2 + value + w3 }

    function Line(): string { Left() + [sep] + Right() + comment }
  }

  /** The separator is the first unprotected one, the comment starts at the first place where one
      can start behind it, and nothing but white space surrounds name and value. */
  ghost predicate WellParted(syn: Syntax, p: Parts) {
    && p.sep in "=:" && AllSpace(p.w1) && AllSpace(p.w2) && AllSpace(p.w3)
    && (p.name == "" || !IsSpace(p.name[|p.name| - 1])) && Bare(p.value)
    && Undisturbed(syn, p.Left(), "=:") && Undisturbed(syn, p.Right(), "")
    && (p.comment == "" || CommentAt(syn, p.Right() + p.comment, |p.Right()|))
  }

  lemma {:induction false} ValueTrims(w2: string, v: string, w3: string)
    requires AllSpace(w2) && AllSpace(w3) && Bare(v)
    ensures RTrim(LTrim(w2 + v + w3)) == v
  {
    if v == "" {
      AllSpaceTrims(w2 + v + w3);
    } else {
      TrimIs(w2, v, w3);
    }
  }

  lemma {:induction false} ValueOfParts(syn: Syntax, p: Parts)
    requires WellParted(syn, p)
    ensures ValueOf(syn, p.Right() + p.comment) == p.value
  {
    hide RTrim, LTrim;
    var t := p.Right() + p.comment;
    UndisturbedMeans(syn, p.Right(), "");
    assert forall j | 0 <= j < |p.Right()| :: StopsAt(syn, t, "", j) <==> StopsAt(syn, p.Right(), "", j);
    FindIs(syn, t, "", 0, |p.Right()|);
    assert t[..|p.Right()|] == p.Right();
    ValueTrims(p.w2, p.value, p.w3);
  }

  /** A line made of such pieces is a pair of their name and value. */
  lemma {:induction false} PartsMeanPair(syn: Syntax, p: Parts)
    requires WellParted(syn, p)
    ensures PairLine(syn, p.Line()) == Pair(p.name, p.value)
  {
    hide RTrim, StopsAt, Undisturbed, ValueOf;
    var line, right := p.Line(), p.Right() + p.comment;
    assert line == p.Left() + ([p.sep] + right);
    FindBehind(syn, p.Left(), [p.sep] + right, "=:");
    assert line[..|p.Left()|] == p.Left() && line[|p.Left()|] == p.sep && line[|p.Left()| + 1..] == right;
    RTrimIs(p.name, p.w1);
    ValueOfParts(syn, p);
  }

  /** Every pair line is made of such pieces, and these are its name and value. */
  lemma {:induction false} PairMeansParts(syn: Syntax, body: string) returns (p: Parts)
    requires PairLine(syn, body).Pair?
    ensures WellParted(syn, p) && body == p.Line() && PairLine(syn, body) == Pair(p.name, p.value)
  {
    hide RTrim, LTrim, ValueOf, Undisturbed;
    var end := Find(syn, body, "=:", 0);
    UndisturbedMeans(syn, body[..end], "=:");
    var text := body[end + 1..];
    var n, w1 := NameParts(body[..end]);
    var w2, v, w3, comment := ValueParts(syn, text);
    p := Parts(n, w1, body[end], w2, v, w3, comment);
    assert body == body[..end] + [body[end]] + text;
    assert forall j | 0 <= j < end :: StopsAt(syn, body, "=:", j) <==> StopsAt(syn, body[..end], "=:", j);
  }

  /** A line has no separator exactly when the first thing to stop the scan for one is its end or
      an inline comment; the name is the text in front of that. */
  lemma {:induction false} NoValueMeaning(syn: Syntax, body: string, n: string)
    ensures PairLine(syn, body) == NoValue(n)
       <==> exists e | 0 <= e <= |body| ::
              && Undisturbed(syn, body[..e], "=:") && n == RTrim(body[..e])
              && (e == |body| || (CommentAt(syn, body, e) && body[e] !in "=:"))
  {
    hide RTrim, ValueOf, Undisturbed;
    forall e | 0 <= e <= |body|
      ensures Undisturbed(syn, body[..e], "=:") <==> forall j | 0 <= j < e :: !StopsAt(syn, body, "=:", j)
    {
      UndisturbedMeans(syn, body[..e], "=:");
      assert forall j | 0 <= j < e :: StopsAt(syn, body, "=:", j) <==> StopsAt(syn, body[..e], "=:", j);
    }
    var end := Find(syn, body, "=:", 0);
    if PairLine(syn, body) == NoValue(n) {
      assert Undisturbed(syn, body[..end], "=:");
    }
    if e :| 0 <= e <= |body| && Undisturbed(syn, body[..e], "=:") && n == RTrim(body[..e])
            && (e == |body| || (CommentAt(syn, body, e) && body[e] !in "=:")) {
      FindIs(syn, body, "=:", 0, e);
    }
  }

  lemma {:induction false} NameParts(s: string) returns (n: string, w: string)
    ensures n == RTrim(s) && AllSpace(w) && s == n + w && (n == "" || !IsSpace(n[|n| - 1]))
  {
    n := RTrim(s);
    w := s[|n|..];
  }

  lemma {:induction false} ValueParts(syn: Syntax, text: string)
    returns (w2: string, v: string, w3: string, comment: string)
    ensures AllSpace(w2) && AllSpace(w3) && Bare(v) && v == ValueOf(syn, text)
    ensures text == w2 + v + w3 + comment && Undisturbed(syn, w2 + v + w3, "")
    ensures comment == "" || CommentAt(syn, w2 + v + w3 + comment, |w2 + v + w3|)
  {
    hide RTrim, LTrim, Bare, AllSpace, Undisturbed;
    var end := Find(syn, text, "", 0);
    var c := text[..end];
    comment := text[end..];
    w2, v, w3 := SplitTrim(c);
    UndisturbedMeans(syn, c, "");
    assert c == w2 + v + w3 && text == c + comment;
    assert forall j | 0 <= j < end :: StopsAt(syn, text, "", j) <==> StopsAt(syn, c, "", j);
  }

  lemma {:induction false} SplitTrim(c: string) returns (a: string, m: string, b: string)
    ensures AllSpace(a) && AllSpace(b) && Bare(m) && m == RTrim(LTrim(c)) && c == a + m + b
  {
    hide TrimEnd, TrimStart;
    var t := LTrim(c);
    m := RTrim(t);
    a, b := c[..|c| - |t|], t[|m|..];
    assert c == a + t && t == m + b;
  }
}
