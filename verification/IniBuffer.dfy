/** The in-place string routines of `src/ini.c`, on C strings held in mutable buffers. */
module IniBuffer {
  import opened CText
  import opened IniSpec

  method StrLen(a: array<char>, s: nat) returns (n: nat)
    requires Terminated(a[..], s)
    ensures n == |StrAt(a[..], s)|
  {
    n := 0;
    while a[s + n] != NUL
      invariant n <= |StrAt(a[..], s)|
      decreases a.Length - n
    {
      assert a[s + n] == a[..][s + n];
      n := n + 1;
    }
    assert a[..][s + n] == NUL;
  }

  /** Overwrites the trailing white space of the string at `s` with NULs. */
  method RStrip(a: array<char>, s: nat)
    requires Terminated(a[..], s)
    modifies a
    ensures Terminated(a[..], s) && StrAt(a[..], s) == RTrim(old(StrAt(a[..], s)))
    ensures forall k | 0 <= k < a.Length && (k < s || s + old(|StrAt(a[..], s)|) <= k) :: a[k] == old(a[k])
  {
    hide StrAt, RTrim;
    ghost var str := StrAt(a[..], s);
    var n := StrLen(a, s);
    assert forall k | s <= k < s + n :: a[k] == str[k - s];
    var p := s + n;
    while p > s && IsSpace(a[p - 1])
      invariant s <= p <= s + n
      invariant forall k | 0 <= k < a.Length && (k < p || s + n <= k) :: a[k] == old(a[k])
      invariant a[p] == NUL
      invariant forall i | p - s <= i < n :: IsSpace(str[i])
    {
      p := p - 1;
      a[p] := NUL;
    }
    StripDone(a[..], s, p, str);
  }

  lemma {:induction false} StripDone(a: seq<char>, s: nat, p: nat, str: string)
    requires s <= p < |a| && p <= s + |str| && a[p] == NUL && NUL !in str
    requires forall k | s <= k < p :: a[k] == str[k - s]
    requires forall i | p - s <= i < |str| :: IsSpace(str[i])
    requires p == s || !IsSpace(a[p - 1])
    ensures StrAt(a, s) == RTrim(str)
  {
    assert a[s..p] == str[..p - s];
    RTrimAt(str, p - s);
    StrAtIs(a, s, p - s);
  }

  /** The first position at or after `s` that is not white space. */
  method LSkip(a: array<char>, s: nat) returns (p: nat)
    requires Terminated(a[..], s)
    ensures p == s + |StrAt(a[..], s)| - |LTrim(StrAt(a[..], s))|
    ensures Terminated(a[..], p) && StrAt(a[..], p) == LTrim(StrAt(a[..], s))
  {
    hide StrAt, LTrim;
    ghost var str := StrAt(a[..], s);
    assert forall k | s <= k < s + |str| :: a[k] == str[k - s];
    assert a[s + |str|] == a[..][s + |str|] == NUL;
    p := s;
    while a[p] != NUL && IsSpace(a[p])
      invariant s <= p <= s + |str|
      invariant forall i | 0 <= i < p - s :: IsSpace(str[i])
      decreases a.Length - p
    {
      p := p + 1;
    }
    SkipDone(a[..], s, p, str);
  }

  lemma {:induction false} SkipDone(a: seq<char>, s: nat, p: nat, str: string)
    requires Terminated(a, s) && str == StrAt(a, s) && s <= p <= s + |str|
    requires forall i | 0 <= i < p - s :: IsSpace(str[i])
    requires a[p] == NUL || !IsSpace(a[p])
    ensures Terminated(a, p) && StrAt(a, p) == LTrim(str) && p == s + |str| - |LTrim(str)|
  {
    var k := p - s;
    assert k < |str| ==> str[k] == a[p];
    StrAtSuffix(a, s, k);
    LTrimAt(str, k);
  }

  /** What stops a scan, in characters. */
  lemma {:induction false} FindMeaning(syn: Syntax, str: string, chars: string)
    ensures var n := Find(syn, str, chars, 0);
            && n <= |str|
            && (n == |str| || str[n] in chars
                || (syn.inlineComments && n > 0 && IsSpace(str[n - 1]) && str[n] in syn.inlinePrefixes))
            && forall i | 0 <= i < n ::
                 && str[i] !in chars
                 && !(syn.inlineComments && i > 0 && IsSpace(str[i - 1]) && str[i] in syn.inlinePrefixes)
  {
    var n := Find(syn, str, chars, 0);
    forall i | 0 <= i < n
      ensures str[i] !in chars
      ensures !(syn.inlineComments && i > 0 && IsSpace(str[i - 1]) && str[i] in syn.inlinePrefixes)
    {
      assert !StopsAt(syn, str, chars, i);
    }
  }

  /** The first wanted character, the first inline comment, or the end. */
  method FindCharsOrComment(syn: Syntax, a: array<char>, s: nat, chars: string) returns (p: nat)
    requires Terminated(a[..], s)
    ensures p == s + Find(syn, StrAt(a[..], s), chars, 0)
    ensures var str := StrAt(a[..], s);
            && s <= p <= s + |str|
            && (p - s == |str| || str[p - s] in chars
                || (syn.inlineComments && p > s && IsSpace(str[p - s - 1]) && str[p - s] in syn.inlinePrefixes))
            && forall i | 0 <= i < p - s ::
                 && str[i] !in chars
                 && !(syn.inlineComments && i > 0 && IsSpace(str[i - 1]) && str[i] in syn.inlinePrefixes)
  {
    hide IsSpace;
    ghost var str := StrAt(a[..], s);
    p := s;
    if syn.inlineComments {
      var wasSpace := false;
      while a[p] != NUL && a[p] !in chars && !(wasSpace && a[p] in syn.inlinePrefixes)
        invariant s <= p <= s + |str|
        invariant wasSpace == (p > s && IsSpace(str[p - 1 - s]))
        invariant Find(syn, str, chars, 0) == Find(syn, str, chars, p - s)
        decreases a.Length - p
      {
        assert a[p] == a[..][p] == str[p - s];
        wasSpace := IsSpace(a[p]);
        p := p + 1;
      }
    } else {
      while a[p] != NUL && a[p] !in chars
        invariant s <= p <= s + |str|
        invariant Find(syn, str, chars, 0) == Find(syn, str, chars, p - s)
        decreases a.Length - p
      {
        assert a[p] == a[..][p] == str[p - s];
        p := p + 1;
      }
    }
    assert p < s + |str| ==> a[p] == a[..][p] == str[p - s];
    FindMeaning(syn, str, chars);
  }

  /** A scan that also looks at the character it stopped at. */
  method FindAny(syn: Syntax, a: array<char>, s: nat, chars: string) returns (p: nat, found: bool)
    requires Terminated(a[..], s) && NUL !in chars
    ensures p == s + Find(syn, StrAt(a[..], s), chars, 0)
    ensures found == (p - s < |StrAt(a[..], s)| && StrAt(a[..], s)[p - s] in chars)
  {
    hide StrAt, Find, StopsAt;
    ghost var str := StrAt(a[..], s);
    p := FindCharsOrComment(syn, a, s, chars);
    assert a[p] == a[..][p] == if p - s < |str| then str[p - s] else NUL;
    found := a[p] in chars;
  }

  /** Copies the string at `s` of `src` into the first `size` characters of `dest`, cut to fit. */
  method StrNCpy0(dest: array<char>, src: array<char>, s: nat, size: nat)
    requires dest != src && 0 < size <= dest.Length && Terminated(src[..], s)
    modifies dest
    ensures Terminated(dest[..], 0) && StrAt(dest[..], 0) == Cut(StrAt(src[..], s), size - 1)
    ensures forall k | size <= k < dest.Length :: dest[k] == old(dest[k])
  {
    hide StrAt;
    ghost var str := StrAt(src[..], s);
    var i := 0;
    while i < size - 1 && src[s + i] != NUL
      invariant i <= size - 1 && i <= |str|
      invariant forall k | 0 <= k < i :: dest[k] == str[k]
      invariant forall k | size <= k < dest.Length :: dest[k] == old(dest[k])
    {
      assert src[s + i] == src[..][s + i] == str[i];
      dest[i] := src[s + i];
      i := i + 1;
    }
    assert i < |str| ==> src[s + i] == src[..][s + i] == str[i];
    dest[i] := NUL;
    CopyDone(dest[..], i, str);
  }

  lemma {:induction false} CopyDone(a: seq<char>, i: nat, str: string)
    requires i < |a| && i <= |str| && a[i] == NUL && NUL !in str && forall k | 0 <= k < i :: a[k] == str[k]
    ensures Terminated(a, 0) && StrAt(a, 0) == str[..i]
  {
    hide StrAt;
    assert a[0..i] == str[..i];
    StrAtIs(a, 0, i);
  }

  /** `*end = '\0'`: cuts the string at `s` to its first `k` characters. */
  method CutAt(a: array<char>, s: nat, k: nat)
    requires Terminated(a[..], s) && k <= |StrAt(a[..], s)|
    modifies a
    ensures Terminated(a[..], s) && StrAt(a[..], s) == old(StrAt(a[..], s))[..k]
    ensures forall j | 0 <= j < a.Length && j != s + k :: a[j] == old(a[j])
  {
    StrAtCut(a[..], s, k);
    a[s + k] := NUL;
    assert a[..] == old(a[..])[s + k := NUL];
  }

  /** The text after a separator, at `v`: cuts its inline comment and trims it. Nothing before
      `v` changes. */
  method ValueAt(syn: Syntax, a: array<char>, v: nat) returns (p: nat)
    requires Terminated(a[..], v)
    modifies a
    ensures Terminated(a[..], p) && StrAt(a[..], p) == ValueOf(syn, old(StrAt(a[..], v)))
    ensures forall k | 0 <= k < v :: a[k] == old(a[k])
  {
    ghost var text := StrAt(a[..], v);
    CutComment(syn, a, v);
    p := LSkip(a, v);
    RStrip(a, p);
  }

  method CutComment(syn: Syntax, a: array<char>, v: nat)
    requires Terminated(a[..], v)
    modifies a
    ensures Terminated(a[..], v)
    ensures var text := old(StrAt(a[..], v)); StrAt(a[..], v) == text[..Find(syn, text, "", 0)]
    ensures forall k | 0 <= k < v :: a[k] == old(a[k])
  {
    ghost var text := StrAt(a[..], v);
    if syn.inlineComments {
      var end := FindCharsOrComment(syn, a, v, "");
      if a[end] != NUL {
        CutAt(a, v, end - v);
      } else {
        assert a[..][end] == NUL;
      }
    }
  }

  /** `*end = '\0'` at a separator: leaves the text before it at `s` and the text after it
      one past it. */
  method CutInTwo(a: array<char>, s: nat, k: nat)
    requires Terminated(a[..], s) && k < |StrAt(a[..], s)|
    modifies a
    ensures Terminated(a[..], s) && StrAt(a[..], s) == old(StrAt(a[..], s))[..k]
    ensures Terminated(a[..], s + k + 1) && StrAt(a[..], s + k + 1) == old(StrAt(a[..], s))[k + 1..]
  {
    hide StrAt;
    StrAtSuffix(a[..], s, k + 1);
    CutAt(a, s, k);
    StrAtFrame(old(a[..]), a[..], s + k + 1);
  }

  /** Strips the string at `s`, which ends before the string at `t`. */
  method RStripBefore(a: array<char>, s: nat, t: nat)
    requires Terminated(a[..], s) && Terminated(a[..], t) && s + |StrAt(a[..], s)| < t
    modifies a
    ensures Terminated(a[..], s) && StrAt(a[..], s) == RTrim(old(StrAt(a[..], s)))
    ensures Terminated(a[..], t) && StrAt(a[..], t) == old(StrAt(a[..], t))
    ensures s + |StrAt(a[..], s)| < t
  {
    RStrip(a, s);
    StrAtFrame(old(a[..]), a[..], t);
  }

  /** Trims the value at `v` and leaves the name at `s` alone. */
  method ValueAfter(syn: Syntax, a: array<char>, s: nat, v: nat) returns (p: nat)
    requires Terminated(a[..], s) && Terminated(a[..], v) && s + |StrAt(a[..], s)| < v
    modifies a
    ensures Terminated(a[..], s) && StrAt(a[..], s) == old(StrAt(a[..], s))
    ensures Terminated(a[..], p) && StrAt(a[..], p) == ValueOf(syn, old(StrAt(a[..], v)))
  {
    p := ValueAt(syn, a, v);
    StrAtFrame(old(a[..]), a[..], s);
  }

  /** Splits the string at `s` at its `k`-th character into a trimmed name, left at `s`, and a
      trimmed value, left at `p`. */
  method SplitPair(syn: Syntax, a: array<char>, s: nat, k: nat) returns (p: nat)
    requires Terminated(a[..], s) && k < |StrAt(a[..], s)|
    modifies a
    ensures Terminated(a[..], s) && StrAt(a[..], s) == RTrim(old(StrAt(a[..], s))[..k])
    ensures Terminated(a[..], p) && StrAt(a[..], p) == ValueOf(syn, old(StrAt(a[..], s))[k + 1..])
  {
    hide *;
    CutInTwo(a, s, k);
    RStripBefore(a, s, s + k + 1);
    p := ValueAfter(syn, a, s, s + k + 1);
  }
}
