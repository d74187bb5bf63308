/** C-library text operations on immutable strings: white space, trimming, cutting and
    the NUL-terminated string that starts at a position of a buffer. */
module CText {

  const NUL: char := '\0'

  /** `isspace` in the C locale: space, and the five codes from tab to carriage return. */
  predicate IsSpace(c: char) {
    c == ' ' || '\t' <= c <= '\r'
  }

  ghost predicate AllSpace(s: string) {
    forall i | 0 <= i < |s| :: IsSpace(s[i])
  }

  /** No white space at either end. */
  ghost predicate Bare(s: string) {
    s == "" || (!IsSpace(s[0]) && !IsSpace(s[|s| - 1]))
  }

  /** The end of `s[..i]` without its trailing white space. */
  function TrimEnd(s: string, i: nat): (e: nat)
    requires i <= |s|
    ensures e <= i && (e > 0 ==> !IsSpace(s[e - 1]))
    ensures forall j | e <= j < i :: IsSpace(s[j])
  {
    if i > 0 && IsSpace(s[i - 1]) then TrimEnd(s, i - 1) else i
  }

  /** The first position at or after `i` that is not white space. */
  function TrimStart(s: string, i: nat): (b: nat)
    requires i <= |s|
    ensures i <= b <= |s| && (b < |s| ==> !IsSpace(s[b]))
    ensures forall j | i <= j < b :: IsSpace(s[j])
    decreases |s| - i
  {
    if i < |s| && IsSpace(s[i]) then TrimStart(s, i + 1) else i
  }

  /** The text without its trailing white space. */
  function RTrim(s: string): string {
    s[..TrimEnd(s, |s|)]
  }

  /** The text without its leading white space. */
  function LTrim(s: string): string {
    s[TrimStart(s, 0)..]
  }

  /** The order used on a whole line: `lskip(rstrip(s))`. */
  function Trim(s: string): (r: string)
    ensures Bare(r)
  {
    LTrim(RTrim(s))
  }

  /** The first `n` characters, or all of them when there are fewer. */
  function Cut(s: string, n: nat): (r: string)
    ensures r <= s && |r| <= n && (|s| <= n ==> r == s) && (|r| < n ==> r == s)
  {
    if |s| <= n then s else s[..n]
  }

  /** The NUL-terminated string that starts at `i` in `s` (up to the end when there is no NUL). */
  function StrAt(s: seq<char>, i: nat): (r: string)
    requires i <= |s|
    ensures i + |r| <= |s| && r == s[i..i + |r|] && NUL !in r
    ensures i + |r| < |s| ==> s[i + |r|] == NUL
    decreases |s| - i
  {
    if i == |s| || s[i] == NUL then "" else [s[i]] + StrAt(s, i + 1)
  }

  /** A NUL follows position `i`, so `i` points to a C string. */
  ghost predicate Terminated(s: seq<char>, i: nat) {
    i <= |s| && i + |StrAt(s, i)| < |s|
  }

  lemma {:induction false} StrAtIs(s: seq<char>, i: nat, n: nat)
    requires i + n < |s| && s[i + n] == NUL && NUL !in s[i..i + n]
    ensures StrAt(s, i) == s[i..i + n]
    decreases n
  {
    if n > 0 {
      assert s[i] == s[i..i + n][0];
      assert s[i + 1..i + n] == s[i..i + n][1..];
      StrAtIs(s, i + 1, n - 1);
    }
  }

  /** Any suffix of a C string is the C string at the later position. */
  lemma {:induction false} StrAtSuffix(s: seq<char>, i: nat, k: nat)
    requires i <= |s| && k <= |StrAt(s, i)|
    ensures StrAt(s, i + k) == StrAt(s, i)[k..]
    decreases k
  {
    if k > 0 {
      StrAtSuffix(s, i + 1, k - 1);
    }
  }

  /** Writing a NUL into a C string cuts it there. */
  lemma {:induction false} StrAtCut(s: seq<char>, i: nat, k: nat)
    requires Terminated(s, i) && k <= |StrAt(s, i)|
    ensures StrAt(s[i + k := NUL], i) == StrAt(s, i)[..k]
  {
    var t := s[i + k := NUL];
    assert t[i..i + k] == StrAt(s, i)[..k];
    StrAtIs(t, i, k);
  }

  /** A C string whose first characters are known continues at the position after them. */
  lemma {:induction false} StrAtJoin(s: seq<char>, i: nat, c: string)
    requires i + |c| < |s| && s[i..i + |c|] == c && NUL !in c && Terminated(s, i + |c|)
    ensures Terminated(s, i) && StrAt(s, i) == c + StrAt(s, i + |c|)
  {
    var t := StrAt(s, i + |c|);
    var n := |c| + |t|;
    assert s[i..i + n] == c + t;
    StrAtIs(s, i, n);
  }

  /** Two buffers that agree on a C string and its NUL hold the same C string there. */
  lemma {:induction false} StrAtFrame(s: seq<char>, t: seq<char>, i: nat)
    requires Terminated(s, i) && |s| == |t|
    requires forall k | i <= k <= i + |StrAt(s, i)| :: t[k] == s[k]
    ensures StrAt(t, i) == StrAt(s, i)
  {
    var n := |StrAt(s, i)|;
    assert t[i..i + n] == s[i..i + n];
    StrAtIs(t, i, n);
  }

  /** `RTrim` cuts at `k` when only white space follows and none ends the part before. */
  lemma {:induction false} RTrimAt(s: string, k: nat)
    requires k <= |s| && (forall i | k <= i < |s| :: IsSpace(s[i]))
    requires k == 0 || !IsSpace(s[k - 1])
    ensures TrimEnd(s, |s|) == k && RTrim(s) == s[..k]
  {
  }

  /** `LTrim` drops the first `k` characters when they are white space and the next is not. */
  lemma {:induction false} LTrimAt(s: string, k: nat)
    requires k <= |s| && (forall i | 0 <= i < k :: IsSpace(s[i]))
    requires k == |s| || !IsSpace(s[k])
    ensures TrimStart(s, 0) == k && LTrim(s) == s[k..]
  {
  }

  lemma {:induction false} RTrimIs(m: string, b: string)
    requires AllSpace(b) && (m == "" || !IsSpace(m[|m| - 1]))
    ensures RTrim(m + b) == m
  {
    RTrimAt(m + b, |m|);
    assert (m + b)[..|m|] == m;
  }

  lemma {:induction false} LTrimIs(a: string, m: string)
    requires AllSpace(a) && (m == "" || !IsSpace(m[0]))
    ensures LTrim(a + m) == m
  {
    LTrimAt(a + m, |a|);
    assert (a + m)[|a|..] == m;
  }

  /** Trimming is determined by its result: white space around a bare text is what `Trim` drops. */
  lemma {:induction false} TrimIs(a: string, m: string, b: string)
    requires AllSpace(a) && AllSpace(b) && Bare(m) && m != ""
    ensures RTrim(a + m + b) == a + m && Trim(a + m + b) == m
    ensures RTrim(LTrim(a + m + b)) == m
  {
    var am, mb := a + m, m + b;
    assert am[|am| - 1] == m[|m| - 1] && mb[0] == m[0];
    assert a + m + b == a + mb;
    RTrimIs(am, b);
    LTrimIs(a, m);
    LTrimIs(a, mb);
    RTrimIs(m, b);
  }

  lemma {:induction false} AllSpaceTrims(s: string)
    requires AllSpace(s)
    ensures RTrim(s) == "" && LTrim(s) == "" && Trim(s) == "" && RTrim(LTrim(s)) == ""
  {
    assert s == "" + s && s == s + "";
    RTrimIs("", s);
    LTrimIs(s, "");
  }

  /** Trailing white space never shows in a trimmed text. */
  lemma {:induction false} RTrimAppend(s: string, b: string)
    requires AllSpace(b)
    ensures RTrim(s + b) == RTrim(s)
  {
    var r := RTrim(s);
    var w := s[|r|..] + b;
    assert s + b == r + w;
    RTrimIs(r, w);
  }
}
