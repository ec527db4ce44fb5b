// Overlapping-window chunking of parsed documents.
module Chunker {
  import opened Common

  // ---- Windows -----------------------------------------------------------------

  predicate ValidConfig(size: int, overlap: int) { 0 <= overlap < size }

  // The windows from word i on: full ones a stride apart, until one falls short.
  function Windows(words: seq<string>, size: nat, overlap: nat, i: nat): seq<seq<string>>
    requires ValidConfig(size, overlap)
    decreases |words| - i
  {
    if i >= |words| then []
    else
      var window := words[i..Min(i + size, |words|)];
      if |window| < size then [window] else [window] + Windows(words, size, overlap, i + (size - overlap))
  }

  // The word the k-th window starts at.
  function Start(i: nat, stride: nat, k: nat): nat
    decreases k
  {
    if k == 0 then i else Start(i + stride, stride, k - 1)
  }

  lemma {:induction false} StartIsLinear(i: nat, stride: nat, k: nat)
    ensures Start(i, stride, k) == i + k * stride
    decreases k
  {
    if k > 0 { StartIsLinear(i + stride, stride, k - 1); }
  }

  lemma {:induction false} StartNext(i: nat, stride: nat, k: nat)
    ensures Start(i, stride, k + 1) == Start(i, stride, k) + stride
    decreases k
  {
    if k > 0 { StartNext(i + stride, stride, k - 1); }
  }

  // The k-th of these windows begins at this word, is full unless it is the last,
  // and reaches the end if it is.
  predicate IsWindow(words: seq<string>, size: nat, windows: seq<seq<string>>, k: nat, start: nat)
    requires k < |windows|
  {
    && start < |words| && windows[k] == words[start..Min(start + size, |words|)]
    && (k < |windows| - 1 ==> |windows[k]| == size)
    && (k == |windows| - 1 ==> start + size >= |words|)
  }

  lemma FullWindow(words: seq<string>, size: nat, overlap: nat, i: nat)
    requires ValidConfig(size, overlap) && i + size <= |words|
    ensures Windows(words, size, overlap, i)
         == [words[i..i + size]] + Windows(words, size, overlap, i + (size - overlap))
    ensures Windows(words, size, overlap, i + (size - overlap)) == [] <==> i + (size - overlap) >= |words|
  {
  }

  lemma FirstWindow(words: seq<string>, size: nat, overlap: nat, i: nat)
    requires ValidConfig(size, overlap) && Windows(words, size, overlap, i) != []
    ensures var windows := Windows(words, size, overlap, i);
      && IsWindow(words, size, windows, 0, i)
      && (|windows| > 1 ==> i + size <= |words|)
  {
  }

  lemma WindowShifts(words: seq<string>, size: nat, window: seq<string>, rest: seq<seq<string>>, k: nat, start: nat)
    requires k < |rest| && IsWindow(words, size, rest, k, start)
    ensures IsWindow(words, size, [window] + rest, k + 1, start)
  {
  }

  lemma {:induction false} WindowFrom(words: seq<string>, size: nat, overlap: nat, i: nat, k: nat)
    requires ValidConfig(size, overlap) && k < |Windows(words, size, overlap, i)|
    ensures IsWindow(words, size, Windows(words, size, overlap, i), k, Start(i, size - overlap, k))
    decreases k
  {
    hide Windows, IsWindow;
    FirstWindow(words, size, overlap, i);
    if k > 0 {
      var j := i + (size - overlap);
      FullWindow(words, size, overlap, i);
      WindowFrom(words, size, overlap, j, k - 1);
      var start := Start(j, size - overlap, k - 1);
      WindowShifts(words, size, words[i..i + size], Windows(words, size, overlap, j), k - 1, start);
    }
  }

  // The k-th window starts k strides on.
  lemma WindowAt(words: seq<string>, size: nat, overlap: nat, k: nat)
    requires ValidConfig(size, overlap) && k < |Windows(words, size, overlap, 0)|
    ensures k * (size - overlap) >= 0
    ensures IsWindow(words, size, Windows(words, size, overlap, 0), k, k * (size - overlap))
  {
    hide Windows, IsWindow;
    WindowFrom(words, size, overlap, 0, k);
    StartIsLinear(0, size - overlap, k);
  }

  // A full window, and a next one that starts with its last overlap words.
  predicate Overlapping(window: seq<string>, next: seq<string>, size: nat, overlap: nat)
    requires ValidConfig(size, overlap)
  {
    |window| == size && |next| >= overlap && window[size - overlap..] == next[..overlap]
  }

  lemma SliceOverlap(words: seq<string>, a: nat, b: nat, c: nat, d: nat)
    requires a <= b <= c <= d <= |words|
    ensures words[a..c][b - a..] == words[b..d][..c - b]
  {
  }

  // Consecutive windows share exactly the overlap.
  lemma SharedOverlap(words: seq<string>, size: nat, overlap: nat, k: nat)
    requires ValidConfig(size, overlap) && k + 1 < |Windows(words, size, overlap, 0)|
    ensures var ws := Windows(words, size, overlap, 0); Overlapping(ws[k], ws[k + 1], size, overlap)
  {
    hide Windows, Start;
    WindowFrom(words, size, overlap, 0, k);
    WindowFrom(words, size, overlap, 0, k + 1);
    StartNext(0, size - overlap, k);
    var start := Start(0, size - overlap, k);
    SliceOverlap(words, start, start + (size - overlap), start + size, Min(start + (size - overlap) + size, |words|));
  }

  // The windows put back together, the overlap dropped from all but the last.
  function Glue(windows: seq<seq<string>>, overlap: nat): seq<string> {
    if windows == [] then []
    else if |windows| == 1 || |windows[0]| < overlap then windows[0]
    else windows[0][..|windows[0]| - overlap] + Glue(windows[1..], overlap)
  }

  lemma SliceFront(words: seq<string>, a: nat, b: nat, c: nat)
    requires a <= b <= c <= |words|
    ensures words[a..c][..b - a] == words[a..b] && words[a..] == words[a..b] + words[b..]
  {
  }

  lemma GlueFirst(window: seq<string>, rest: seq<seq<string>>, overlap: nat)
    requires rest != [] && |window| >= overlap
    ensures Glue([window] + rest, overlap) == window[..|window| - overlap] + Glue(rest, overlap)
  {
    assert ([window] + rest)[1..] == rest;
  }

  lemma GlueLast(words: seq<string>, size: nat, overlap: nat, i: nat)
    requires ValidConfig(size, overlap) && i <= |words| < i + size
    ensures Glue(Windows(words, size, overlap, i), overlap) == words[i..]
  {
  }

  lemma GlueOne(window: seq<string>, overlap: nat)
    ensures Glue([window] + [], overlap) == window
  {
  }

  lemma {:induction false} GlueWindows(words: seq<string>, size: nat, overlap: nat, i: nat)
    requires ValidConfig(size, overlap) && i <= |words|
    ensures Glue(Windows(words, size, overlap, i), overlap) == words[i..]
    decreases |words| - i
  {
    hide Windows, Glue;
    if i + size > |words| {
      GlueLast(words, size, overlap, i);
    } else {
      var j := i + (size - overlap);
      FullWindow(words, size, overlap, i);
      if j >= |words| {
        GlueOne(words[i..i + size], overlap);
        assert words[i..i + size] == words[i..];
      } else {
        GlueWindows(words, size, overlap, j);
        GlueFirst(words[i..i + size], Windows(words, size, overlap, j), overlap);
        SliceFront(words, i, j, i + size);
      }
    }
  }

  // Do full windows, a stride apart, end exactly at the end of n words?
  predicate Flush(n: nat, size: nat, stride: nat)
    requires 0 < stride <= size
  {
    n == size || (n > size && Flush(n - stride, size, stride))
  }

  lemma {:induction false} LastWindowFlush(words: seq<string>, size: nat, overlap: nat, i: nat)
    requires ValidConfig(size, overlap) && i < |words|
    ensures var ws := Windows(words, size, overlap, i);
      && (|ws| > 1 && |ws[|ws| - 1]| <= overlap <==> overlap > 0 && Flush(|words| - i, size, size - overlap))
      && (|ws| == 1 && |ws[0]| <= overlap <==> |words| - i <= overlap)
    decreases |words| - i
  {
    var stride := size - overlap;
    if |words| - i >= size && i + stride < |words| {
      var ws := Windows(words, size, overlap, i);
      var rest := Windows(words, size, overlap, i + stride);
      assert ws == [words[i..i + size]] + rest;
      assert ws[|ws| - 1] == rest[|rest| - 1];
      LastWindowFlush(words, size, overlap, i + stride);
    }
  }

  lemma {:induction false} FlushIff(n: nat, size: nat, stride: nat)
    requires 0 < stride <= size
    ensures Flush(n, size, stride) <==> n >= size && IsMultiple(n - size, stride)
  {
    hide IsMultiple;
    if n > size {
      FlushIff(n - stride, size, stride);
      if n - stride >= size { MultipleStep(n - size, stride); } else { NoMultiple(n - size, stride); }
    } else {
      MultipleZero(stride);
    }
  }

  predicate IsMultiple(a: int, m: int)
    requires m > 0
  {
    a % m == 0
  }

  lemma MultipleZero(m: int)
    requires m > 0
    ensures IsMultiple(0, m)
  {
  }

  lemma NoMultiple(a: int, m: int)
    requires 0 < a < m
    ensures !IsMultiple(a, m)
  {
  }

  lemma MultipleStep(a: int, m: int)
    requires m > 0
    ensures IsMultiple(a - m, m) <==> IsMultiple(a, m)
  {
    ModStep(a, m);
  }

  // The last window repeats words of the one before it and adds none, exactly
  // when there is an overlap and full windows end flush with the text.
  lemma LastWindowIsOverlapIff(words: seq<string>, size: nat, overlap: nat)
    requires ValidConfig(size, overlap) && words != []
    ensures var ws := Windows(words, size, overlap, 0);
      (|ws| > 1 && |ws[|ws| - 1]| <= overlap)
      <==> (overlap > 0 && |words| >= size && (|words| - size) % (size - overlap) == 0)
  {
    LastWindowFlush(words, size, overlap, 0);
    FlushIff(|words|, size, size - overlap);
    hide Windows, Flush;
  }

  lemma ModStep(a: int, m: int)
    requires m > 0
    ensures (a - m) % m == a % m
  {
    var d := a / m - 1 - (a - m) / m;
    assert d * m == (a - m) % m - a % m;
    MulSign(d, m);
  }

  lemma MulSign(d: int, m: int)
    requires m > 0
    ensures (d > 0 ==> d * m >= m) && (d < 0 ==> d * m <= -m)
  {
  }
}
