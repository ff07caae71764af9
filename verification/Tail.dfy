/** tail: the backwards scan for newlines in chunks, and the copy from the position it finds. */
module Tail {
  import opened Common

  const NEWLINE: char := '\n'

  /** The newline characters in a text. */
  function Newlines(s: string): nat {
    if s == "" then 0 else (if s[0] == NEWLINE then 1 else 0) + Newlines(s[1..])
  }

  lemma {:induction false} NewlinesAre(s: string)
    ensures Newlines(s) == multiset(s)['\n']
  {
    if s != "" {
      assert s == [s[0]] + s[1..];
      NewlinesAre(s[1..]);
    }
  }

  lemma {:induction false} NewlinesConcat(a: string, b: string)
    ensures Newlines(a + b) == Newlines(a) + Newlines(b)
  {
    if a == "" {
      assert a + b == b;
    } else {
      assert (a + b)[1..] == a[1..] + b;
      NewlinesConcat(a[1..], b);
    }
  }

  // The suffix of the text from `pos` on has one newline more from the newline before `pos` on.
  lemma NewlinesBefore(s: string, pos: nat)
    requires 0 < pos <= |s|
    ensures Newlines(s[pos - 1..]) == Newlines(s[pos..]) + (if s[pos - 1] == NEWLINE then 1 else 0)
  {
    assert s[pos - 1..][1..] == s[pos..];
  }

  lemma NewlinesRange(s: string, lo: nat, hi: nat)
    requires lo <= hi <= |s|
    ensures Newlines(s[lo..]) == Newlines(s[lo..hi]) + Newlines(s[hi..])
  {
    assert s[lo..] == s[lo..hi] + s[hi..];
    NewlinesConcat(s[lo..hi], s[hi..]);
  }

  /** No longer suffix of the text has as few newlines as the one from `pos` on. */
  ghost predicate Longest(s: string, pos: nat)
    requires pos <= |s|
  {
    forall p :: 0 <= p < pos ==> Newlines(s[p..]) > Newlines(s[pos..])
  }

  /** A suffix is the longest with its number of newlines exactly when it starts at the
      start of the text or behind a newline. */
  lemma LongestIff(s: string, pos: nat)
    requires pos <= |s|
    ensures Longest(s, pos) <==> pos == 0 || s[pos - 1] == NEWLINE
  {
    if pos > 0 {
      NewlinesBefore(s, pos);
      if s[pos - 1] == NEWLINE {
        forall p | 0 <= p < pos
          ensures Newlines(s[p..]) > Newlines(s[pos..])
        {
          NewlinesRange(s, p, pos - 1);
        }
      }
    }
  }

  // One chunk, scanned from its end: `nlines` newlines may still be passed; at the
  // next one the scan stops right behind it.
  method ScanChunk(buf: string, nlines: int) returns (nlines': int, stop: nat)
    requires nlines > 0
    ensures stop <= |buf|
    ensures nlines' == nlines - Newlines(buf[stop..]) - (if nlines' < 0 then 1 else 0)
    ensures nlines' >= -1
    ensures if nlines' < 0 then stop > 0 && buf[stop - 1] == NEWLINE else stop == 0
  {
    nlines' := nlines;
    var i: int := |buf| - 1;
    while i >= 0
      invariant -1 <= i < |buf|
      invariant 0 <= nlines' == nlines - Newlines(buf[i + 1..])
    {
      NewlinesBefore(buf, i + 1);
      if buf[i] == NEWLINE {
        nlines' := nlines' - 1;
        if nlines' < 0 {
          return nlines', i + 1;
        }
      }
      i := i - 1;
    }
    stop := 0;
  }

  // The positions where the scan starts a new chunk.
  function Edge(file: string, chunk: nat, k: nat): int { |file| - k * chunk }

  /** The condition under which the output starts at the start of a line: wherever a
      chunk begins with exactly `n` newlines from there on, it begins behind a newline. */
  ghost predicate EdgesHarmless(file: string, n: nat, chunk: nat) {
    forall k: nat {:trigger Edge(file, chunk, k)} ::
      0 < Edge(file, chunk, k) < |file| && Newlines(file[Edge(file, chunk, k)..]) == n ==>
        file[Edge(file, chunk, k) - 1] == NEWLINE
  }

  lemma Multiples(a: nat, b: nat, m: nat)
    requires a <= b
    ensures a * m <= b * m
  {
    assert (b - a) * m >= 0;
    assert b * m == a * m + (b - a) * m;
  }

  lemma NewlinesShrink(s: string, lo: nat, hi: nat)
    requires lo <= hi <= |s|
    ensures Newlines(s[lo..]) >= Newlines(s[hi..])
  {
    NewlinesRange(s, lo, hi);
  }

  lemma LongestBelow(s: string, p: nat, pos: nat)
    requires p <= pos <= |s| && Longest(s, pos) && Newlines(s[p..]) <= Newlines(s[pos..])
    ensures p == pos
  {
  }

  // Chunk number `k` starts inside the text with exactly `n` newlines from there on.
  ghost predicate FullEdge(file: string, n: nat, chunk: nat, k: nat) {
    0 < Edge(file, chunk, k) < |file| && Newlines(file[Edge(file, chunk, k)..]) == n
  }

  /** Where the scan stops: with the right number of newlines from there on, at the last
      edge that has exactly `n` of them behind it, or else at the start of a line. */
  ghost predicate Stops(file: string, n: nat, chunk: nat, pos: nat) {
    && pos <= |file| && Newlines(file[pos..]) == Min(n, Newlines(file))
    && if n == 0 then pos == |file| else
         && (forall k: nat {:trigger FullEdge(file, n, chunk, k)} :: FullEdge(file, n, chunk, k) ==>
               Edge(file, chunk, k) <= pos)
         && (Longest(file, pos) || exists k: nat {:trigger FullEdge(file, n, chunk, k)} ::
               FullEdge(file, n, chunk, k) && Edge(file, chunk, k) == pos)
  }

  lemma NoLater(file: string, n: nat, chunk: nat, p: nat, q: nat)
    requires n > 0 && Stops(file, n, chunk, p) && Stops(file, n, chunk, q)
    ensures q <= p
  {
    if Longest(file, q) {
      if p <= q { LongestBelow(file, p, q); }
    } else {
      var k: nat :| FullEdge(file, n, chunk, k) && Edge(file, chunk, k) == q;
    }
  }

  /** That leaves no choice: the text, the number of lines and the size of the chunks
      determine the output. */
  lemma StopsOnce(file: string, n: nat, chunk: nat, p: nat, q: nat)
    requires Stops(file, n, chunk, p) && Stops(file, n, chunk, q)
    ensures p == q
  {
    if n > 0 {
      NoLater(file, n, chunk, p, q);
      NoLater(file, n, chunk, q, p);
    }
  }

  /** The output starts at the start of a line exactly when no chunk begins in a line
      with the wrong number of newlines behind it. */
  lemma LongestWhenHarmless(file: string, n: nat, chunk: nat, pos: nat)
    requires n >= 1 && Stops(file, n, chunk, pos)
    ensures Longest(file, pos) <==> EdgesHarmless(file, n, chunk)
  {
    LongestIff(file, pos);
    if Longest(file, pos) {
      forall k: nat | 0 < Edge(file, chunk, k) < |file| && Newlines(file[Edge(file, chunk, k)..]) == n
        ensures file[Edge(file, chunk, k) - 1] == NEWLINE
      {
        assert FullEdge(file, n, chunk, k);
        LongestBelow(file, Edge(file, chunk, k), pos);
      }
    } else {
      var k: nat :| FullEdge(file, n, chunk, k) && Edge(file, chunk, k) == pos;
      assert file[Edge(file, chunk, k) - 1] != NEWLINE;
    }
  }

  // The scan has stopped in the chunk before the edge number `k`.
  lemma Stopped(file: string, n: nat, chunk: nat, k: nat, pos: nat, before: nat)
    requires n >= 1 && chunk > 0 && before == Edge(file, chunk, k) && pos < before <= |file|
    requires Edge(file, chunk, k + 1) <= pos
    requires Newlines(file[before..]) < n && Newlines(file[pos..]) == Min(n, Newlines(file))
    requires pos == 0 || file[pos - 1] == NEWLINE || (pos == Edge(file, chunk, k + 1) && Newlines(file[pos..]) == n)
    ensures Stops(file, n, chunk, pos)
  {
    LongestIff(file, pos);
    if !Longest(file, pos) {
      assert FullEdge(file, n, chunk, k + 1);
    }
    forall j: nat | FullEdge(file, n, chunk, j)
      ensures Edge(file, chunk, j) <= pos
    {
      if j <= k {
        Multiples(j, k, chunk);
        NewlinesShrink(file, before, Edge(file, chunk, j));
      } else {
        Multiples(k + 1, j, chunk);
      }
    }
  }

  // A text that is scanned in no chunk at all.
  lemma NoChunk(file: string, n: nat, chunk: nat)
    requires n == 0 || file == ""
    ensures Stops(file, n, chunk, |file|)
  {
    assert file[|file|..] == "";
  }

  // The newlines from the stop on, counted over the whole text.
  lemma CountedAll(file: string, n: nat, pos: nat)
    requires pos <= |file| && (pos == 0 || Newlines(file[pos..]) == n) && Newlines(file[pos..]) <= n
    ensures Newlines(file[pos..]) == Min(n, Newlines(file))
  {
    NewlinesRange(file, 0, pos);
    assert file[0..] == file;
  }

  /** The backwards scan: `pos` is where the copy starts. */
  method FindStart(file: string, n: nat, chunk: nat) returns (pos: nat)
    requires chunk > 0
    ensures Stops(file, n, chunk, pos)
  {
    var nlines: int := n;
    pos := |file|;
    ghost var k := 0;
    assert file[|file|..] == "";
    if n == 0 || file == "" { NoChunk(file, n, chunk); }
    while pos > 0 && nlines > 0
      invariant pos <= |file| && nlines >= -1
      invariant Newlines(file[pos..]) == n - nlines - (if nlines < 0 then 1 else 0)
      invariant pos > 0 && nlines > 0 ==> n > 0 && pos == Edge(file, chunk, k)
      invariant pos == 0 || nlines <= 0 ==> Stops(file, n, chunk, pos)
      decreases pos, nlines
    {
      ghost var before := pos;
      var bytesToRead := if pos > chunk then chunk else pos;
      pos := pos - bytesToRead;
      var buf := file[pos..pos + bytesToRead];
      var stop;
      nlines, stop := ScanChunk(buf, nlines);
      assert buf[stop..] == file[pos + stop..before];
      assert stop > 0 ==> buf[stop - 1] == file[pos + stop - 1];
      pos := pos + stop;
      NewlinesRange(file, pos, before);
      NextEdge(file, chunk, k);
      if pos == 0 || nlines <= 0 {
        CountedAll(file, n, pos);
        Stopped(file, n, chunk, k, pos, before);
      }
      k := k + 1;
    }
  }

  lemma NextEdge(file: string, chunk: nat, k: nat)
    ensures Edge(file, chunk, k + 1) == Edge(file, chunk, k) - chunk
  {
    assert (k + 1) * chunk == k * chunk + chunk;
  }

  /** The copy: everything from `pos` on, in pieces of at most `chunk` characters. */
  method CopyFrom(file: string, pos: nat, chunk: nat) returns (output: string)
    requires pos <= |file| && chunk > 0
    ensures output == file[pos..]
  {
    output := "";
    var at := pos;
    while at < |file|
      invariant pos <= at <= |file| && output == file[pos..at]
    {
      var bytes := if |file| - at > chunk then chunk else |file| - at;
      output := output + file[at..at + bytes];
      at := at + bytes;
    }
  }

  /** tail -n: the output is the suffix with exactly min(n, all) newlines that starts
      where the scan stops, for a text of one chunk the longest one. */
  method Tail(file: string, n: nat, chunk: nat) returns (output: string)
    requires chunk > 0
    ensures |output| <= |file| && output == file[|file| - |output|..]
    ensures Stops(file, n, chunk, |file| - |output|)
    ensures Newlines(output) == Min(n, Newlines(file))
    ensures multiset(output)['\n'] == if multiset(file)['\n'] < n then multiset(file)['\n'] else n
    ensures n >= 1 ==> (Longest(file, |file| - |output|) <==> EdgesHarmless(file, n, chunk))
    ensures n >= 1 && |file| <= chunk ==> Longest(file, |file| - |output|)
  {
    var pos := FindStart(file, n, chunk);
    output := CopyFrom(file, pos, chunk);
    NewlinesAre(file);
    NewlinesAre(output);
    if |file| <= chunk { OneChunk(file, n, chunk); }
    if n >= 1 { LongestWhenHarmless(file, n, chunk, pos); }
  }

  lemma OneChunk(file: string, n: nat, chunk: nat)
    requires |file| <= chunk
    ensures EdgesHarmless(file, n, chunk)
  {
    forall k: nat | 0 < Edge(file, chunk, k) < |file|
      ensures false
    {
      if k >= 1 { Multiples(1, k, chunk); }
    }
  }

  lemma {:induction false} NoNewlines(s: string)
    requires NEWLINE !in s
    ensures Newlines(s) == 0
  {
    if s != "" {
      NoNewlines(s[1..]);
    }
  }

  /** Across chunks the start of a line can be lost: for every chunk size there is a
      text of one line that `tail -n 1` cuts. */
  lemma LineCut(chunk: nat) returns (file: string)
    requires chunk > 0
    ensures Newlines(file) == 1 && Stops(file, 1, chunk, 1) && !Longest(file, 1)
  {
    var line := seq(chunk, _ => 'a');
    file := line + [NEWLINE];
    NoNewlines(line);
    NewlinesConcat(line, [NEWLINE]);
    NoNewlines(line[1..]);
    NewlinesConcat(line[1..], [NEWLINE]);
    assert file[1..] == line[1..] + [NEWLINE];
    assert Edge(file, chunk, 1) == 1 && FullEdge(file, 1, chunk, 1);
    LongestIff(file, 1);
    forall k: nat | FullEdge(file, 1, chunk, k)
      ensures Edge(file, chunk, k) <= 1
    {
      if k >= 1 { Multiples(1, k, chunk); }
    }
  }
}
