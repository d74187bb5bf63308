/** The string reader of `src/ini.c` and what repeated reads deliver. */
module IniReader {
  import opened CText
  import opened IniSpec

  /** `ini_parse_string_ctx`: the text still to be read is `input[ptr..]`. */
  class StringReader {
    const input: string
    var ptr: nat
    var numLeft: nat

    ghost predicate Valid()
      reads this
    {
      ptr + numLeft == |input| && NUL !in input
    }

    ghost function Rest(): string
      requires Valid()
      reads this
    {
      input[ptr..]
    }

    constructor (text: string)
      requires NUL !in text
      ensures Valid() && Rest() == text
    {
      input, ptr, numLeft := text, 0, |text|;
    }

    /** Reads one chunk into `str` from position `at`, which has room for `num` characters. */
    method Read(str: array<char>, at: nat, num: int) returns (ok: bool)
      requires Valid() && (num >= 2 ==> at + num <= str.Length)
      modifies this, str
      ensures Valid() && ok == (num >= 2 && old(Rest()) != "")
      ensures !ok ==> numLeft == old(numLeft) && Rest() == old(Rest()) && str[..] == old(str[..])
      ensures ok ==> numLeft < old(numLeft) && old(Rest()) == Chunk(old(Rest()), num) + Rest()
      ensures ok ==> Terminated(str[..], at) && StrAt(str[..], at) == Chunk(old(Rest()), num)
      ensures forall k | 0 <= k < str.Length && (k < at || at + num <= k) :: str[k] == old(str[k])
    {
      if numLeft == 0 || num < 2 {
        return false;
      }
      ghost var rest := Rest();
      var n := CopyLine(str, at, num);
      str[at + n] := NUL;
      ReadDone(str[..], at, rest, num, n);
      ptr, numLeft := ptr + n, numLeft - n;
      ok := true;
    }

    /** The copying loop of the reader: stops behind a newline, at the end of the text, or when
        only the room for the NUL is left. */
    method CopyLine(str: array<char>, at: nat, num: nat) returns (n: nat)
      requires Valid() && numLeft > 0 && num >= 2 && at + num <= str.Length
      modifies str
      ensures 0 < n < num && n <= |Rest()| && (forall j | 0 <= j < n :: str[at + j] == Rest()[j])
      ensures forall j | 0 <= j < n - 1 :: Rest()[j] != '\n'
      ensures Rest()[n - 1] == '\n' || n == num - 1 || n == |Rest()|
      ensures forall k | 0 <= k < str.Length && (k < at || at + num <= k) :: str[k] == old(str[k])
    {
      ghost var rest := Rest();
      var p, left, room := ptr, numLeft, num;
      n := 0;
      while room > 1 && left != 0
        invariant room == num - n && 1 <= room && left == |rest| - n && p == ptr + n
        invariant forall j | 0 <= j < n :: str[at + j] == rest[j] != '\n'
        invariant forall k | 0 <= k < str.Length && (k < at || at + num <= k) :: str[k] == old(str[k])
        decreases left
      {
        var c := input[p];
        p, left := p + 1, left - 1;
        str[at + n] := c;
        n := n + 1;
        if c == '\n' {
          break;
        }
        room := room - 1;
      }
    }
  }

  // ---------------------------------------------------------------- chunks

  lemma {:induction false} LineEndIs(s: string, i: nat, e: nat)
    requires i < e <= |s| && (e == |s| || s[e - 1] == '\n')
    requires forall j | i <= j < e - 1 :: s[j] != '\n'
    ensures LineEnd(s, i) == e
    decreases e - i
  {
    if i + 1 < e {
      LineEndIs(s, i + 1, e);
    }
  }

  /** A read of `n` characters that stopped for a good reason took the whole chunk. */
  lemma {:induction false} ChunkIs(s: string, size: nat, n: nat)
    requires size >= 2 && 0 < n <= |s| && n < size
    requires forall j | 0 <= j < n - 1 :: s[j] != '\n'
    requires s[n - 1] == '\n' || n == size - 1 || n == |s|
    ensures ChunkLen(s, size) == n
  {
    if n == |s| || s[n - 1] == '\n' {
      LineEndIs(s, 0, n);
    }
  }

  /** A full buffer without a newline is the start of what a bigger buffer takes. */
  lemma {:induction false} ChunkExtend(s: string, k: nat, size: nat)
    requires 0 < k <= |s| && k < size && forall j | 0 <= j < k :: s[j] != '\n'
    ensures k == |s| || k == size - 1 ==> ChunkLen(s, size) == k
    ensures k < |s| && size - k >= 2 ==> ChunkLen(s, size) == k + ChunkLen(s[k..], size - k)
  {
    if k == |s| || k == size - 1 {
      ChunkIs(s, size, k);
    } else {
      var n := ChunkLen(s[k..], size - k);
      assert forall j | k <= j < |s| :: s[j] == s[k..][j - k];
      ChunkIs(s, size, k + n);
    }
  }

  lemma {:induction false} ChunkMono(s: string, size: nat, bigger: nat)
    requires 2 <= size <= bigger
    ensures ChunkLen(s, size) <= ChunkLen(s, bigger)
  {
  }

  /** A chunk that ended before its buffer was full is the chunk of every bigger buffer. */
  lemma {:induction false} ChunkStays(s: string, size: nat, bigger: nat)
    requires 2 <= size <= bigger && s != ""
    requires ChunkLen(s, size) < size - 1 || s[ChunkLen(s, size) - 1] == '\n'
    ensures ChunkLen(s, bigger) == ChunkLen(s, size)
  {
    ChunkIs(s, bigger, ChunkLen(s, size));
  }

  /** What the copying loop of `Read` leaves in the buffer. */
  lemma {:induction false} ReadDone(a: seq<char>, at: nat, rest: string, size: nat, i: nat)
    requires size >= 2 && 0 < i <= |rest| && i < size && at + i < |a| && a[at + i] == NUL
    requires NUL !in rest && forall j | 0 <= j < i :: a[at + j] == rest[j]
    requires forall j | 0 <= j < i - 1 :: rest[j] != '\n'
    requires rest[i - 1] == '\n' || i == size - 1 || i == |rest|
    ensures Chunk(rest, size) == rest[..i] == StrAt(a, at) && rest == rest[..i] + rest[i..]
  {
    ChunkIs(rest, size, i);
    assert a[at..at + i] == rest[..i];
    StrAtIs(a, at, i);
  }

  function Concat(ss: seq<string>): string {
    if ss == [] then "" else ss[0] + Concat(ss[1..])
  }

  /** A list of strings that could be what reads of `size` deliver: each is non-empty and fits,
      holds a newline at its end only, and lacks one only when it is full or last. */
  ghost predicate WellChunked(cs: seq<string>, size: nat) {
    forall i | 0 <= i < |cs| ::
      && 0 < |cs[i]| < size
      && (forall j | 0 <= j < |cs[i]| - 1 :: cs[i][j] != '\n')
      && (cs[i][|cs[i]| - 1] == '\n' || |cs[i]| == size - 1 || i == |cs| - 1)
  }

  /** Reads lose nothing and reorder nothing, and every chunk is as long as it may be. */
  lemma {:induction false} ChunksConserve(s: string, size: nat)
    requires size >= 2
    ensures Concat(Chunks(s, size)) == s && WellChunked(Chunks(s, size), size)
    decreases |s|
  {
    if s != "" {
      var n := ChunkLen(s, size);
      ChunksConserve(s[n..], size);
      WellChunkedCons(s[..n], Chunks(s[n..], size), size);
    }
  }

  lemma {:induction false} WellChunkedCons(c: string, cs: seq<string>, size: nat)
    requires 0 < |c| < size && forall j | 0 <= j < |c| - 1 :: c[j] != '\n'
    requires c[|c| - 1] == '\n' || |c| == size - 1 || cs == []
    requires WellChunked(cs, size)
    ensures WellChunked([c] + cs, size) && ([c] + cs)[1..] == cs
  {
    assert forall i | 0 < i < |[c] + cs| :: ([c] + cs)[i] == cs[i - 1];
  }

  /** There is only one way to chunk a text: these properties determine the chunks. */
  lemma {:induction false} ChunksUnique(cs: seq<string>, size: nat)
    requires size >= 2 && WellChunked(cs, size)
    ensures Chunks(Concat(cs), size) == cs
    decreases |cs|
  {
    if cs != [] {
      var c, rest := cs[0], cs[1..];
      var s := c + Concat(rest);
      assert rest == [] ==> s == c;
      assert forall j | 0 <= j < |c| :: s[j] == c[j];
      ChunkIs(s, size, |c|);
      assert s[..|c|] == c && s[|c|..] == Concat(rest);
      assert WellChunked(rest, size) by {
        assert forall i | 0 <= i < |rest| :: rest[i] == cs[i + 1];
      }
      ChunksUnique(rest, size);
    }
  }

  lemma {:induction false} ConcatAppend(a: seq<string>, b: seq<string>)
    ensures Concat(a + b) == Concat(a) + Concat(b)
  {
    if a == [] {
      assert a + b == b;
    } else {
      assert (a + b)[1..] == a[1..] + b;
      ConcatAppend(a[1..], b);
    }
  }

  /** A text that ends a line is chunked apart from what follows it. */
  lemma {:induction false} ChunksAppend(a: string, b: string, size: nat)
    requires a != "" ==> a[|a| - 1] == '\n'
    ensures Chunks(a + b, size) == Chunks(a, size) + Chunks(b, size)
    decreases |a|
  {
    if a == "" {
      assert a + b == b;
    } else if size >= 2 {
      var n := ChunkLen(a, size);
      ChunkLenPrefix(a, b, size);
      assert (a + b)[..n] == a[..n] && (a + b)[n..] == a[n..] + b;
      ChunksAppend(a[n..], b, size);
    }
  }

  lemma {:induction false} ChunkLenPrefix(a: string, b: string, size: nat)
    requires size >= 2 && a != "" && a[|a| - 1] == '\n'
    ensures ChunkLen(a + b, size) == ChunkLen(a, size)
  {
    LineEndIs(a + b, 0, LineEnd(a, 0));
  }
}
