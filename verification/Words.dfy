// Splitting text on whitespace, and joining words with single spaces.
module Words {

  // The characters str.split() treats as whitespace.
  predicate IsSpace(c: char) {
    || '\U{0009}' <= c <= '\U{000D}' || '\U{001C}' <= c <= '\U{0020}'
    || c == '\U{0085}' || c == '\U{00A0}' || c == '\U{1680}' || '\U{2000}' <= c <= '\U{200A}'
    || c == '\U{2028}' || c == '\U{2029}' || c == '\U{202F}' || c == '\U{205F}' || c == '\U{3000}'
  }

  predicate IsWord(w: string) {
    w != "" && forall c <- w :: !IsSpace(c)
  }

  // The length of the run of non-space characters at the front.
  function WordLength(s: string): (n: nat)
    ensures n <= |s| && (forall i | 0 <= i < n :: !IsSpace(s[i])) && (n < |s| ==> IsSpace(s[n]))
  {
    if s == "" || IsSpace(s[0]) then 0 else 1 + WordLength(s[1..])
  }

  function Split(s: string): (words: seq<string>)
    ensures forall w <- words :: IsWord(w)
  {
    if s == "" then []
    else if IsSpace(s[0]) then Split(s[1..])
    else
      var n := WordLength(s);
      [s[..n]] + Split(s[n..])
  }

  function Join(sep: string, words: seq<string>): string {
    if words == [] then "" else if |words| == 1 then words[0] else words[0] + sep + Join(sep, words[1..])
  }

  lemma {:induction false} WordLengthOf(w: string, rest: string)
    requires IsWord(w) && (rest == "" || IsSpace(rest[0]))
    ensures WordLength(w + rest) == |w|
  {
    forall i | 0 <= i < |w| ensures !IsSpace((w + rest)[i]) { assert w[i] in w; }
    assert rest != "" ==> (w + rest)[|w|] == rest[0];
  }

  // A word at the front, up to the end or a space, is the first word.
  lemma SplitWord(w: string, rest: string)
    requires IsWord(w) && (rest == "" || IsSpace(rest[0]))
    ensures Split(w + rest) == [w] + Split(rest)
  {
    WordLengthOf(w, rest);
    assert (w + rest)[..|w|] == w && (w + rest)[|w|..] == rest;
    assert !IsSpace((w + rest)[0]) by { assert w[0] in w; }
    hide WordLength, IsSpace, IsWord;
  }

  lemma SplitSpace(c: char, rest: string)
    requires IsSpace(c)
    ensures Split([c] + rest) == Split(rest)
  {
    assert ([c] + rest)[1..] == rest;
  }

  // Splitting gives back exactly the words that were joined.
  lemma {:induction false} SplitJoin(words: seq<string>)
    requires forall w <- words :: IsWord(w)
    ensures Split(Join(" ", words)) == words
  {
    if words != [] {
      var w := words[0];
      assert w in words;
      if |words| == 1 {
        SplitWord(w, "");
        assert w + "" == w;
      } else {
        var tail := Join(" ", words[1..]);
        assert IsSpace(' ');
        hide IsSpace, IsWord, Split, WordLength;
        SplitJoin(words[1..]);
        SplitSpace(' ', tail);
        SplitWord(w, " " + tail);
        assert Join(" ", words) == w + (" " + tail);
      }
    }
  }

  // No words exactly when stripping leaves nothing.
  lemma {:induction false} SplitEmptyIff(s: string)
    ensures Split(s) == [] <==> forall c <- s :: IsSpace(c)
  {
    if s != "" && IsSpace(s[0]) {
      SplitEmptyIff(s[1..]);
      assert s == [s[0]] + s[1..];
    }
  }

  lemma AcrossWord(w: string, tail: string, sep: char, b: string)
    requires IsWord(w) && IsSpace(sep) && (tail == "" || IsSpace(tail[0]))
    requires Split(tail + [sep] + b) == Split(tail) + Split(b)
    ensures Split(w + tail + [sep] + b) == Split(w + tail) + Split(b)
  {
    hide Split, IsSpace, IsWord;
    var rest := tail + [sep] + b;
    assert rest[0] == if tail == "" then sep else tail[0];
    SplitWord(w, tail);
    SplitWord(w, rest);
    assert w + tail + [sep] + b == w + rest;
    assert [w] + (Split(tail) + Split(b)) == [w] + Split(tail) + Split(b);
  }

  lemma AcrossSpace(c: char, tail: string, sep: char, b: string)
    requires IsSpace(c) && Split(tail + [sep] + b) == Split(tail) + Split(b)
    ensures Split([c] + tail + [sep] + b) == Split([c] + tail) + Split(b)
  {
    hide Split, IsSpace;
    SplitSpace(c, tail);
    SplitSpace(c, tail + [sep] + b);
    assert [c] + tail + [sep] + b == [c] + (tail + [sep] + b);
  }

  // Whitespace between two texts keeps their words apart.
  lemma {:induction false} SplitAcross(a: string, sep: char, b: string)
    requires IsSpace(sep)
    ensures Split(a + [sep] + b) == Split(a) + Split(b)
  {
    hide IsSpace, IsWord, WordLength;
    if a == "" {
      SplitSpace(sep, b);
      assert a + [sep] + b == [sep] + b;
    } else if IsSpace(a[0]) {
      hide Split;
      SplitAcross(a[1..], sep, b);
      AcrossSpace(a[0], a[1..], sep, b);
      assert a == [a[0]] + a[1..];
    } else {
      hide Split;
      FirstWord(a);
      var n := WordLength(a);
      SplitAcross(a[n..], sep, b);
      AcrossWord(a[..n], a[n..], sep, b);
      assert a == a[..n] + a[n..];
    }
  }

  lemma FirstWord(s: string)
    requires s != "" && !IsSpace(s[0])
    ensures var n := WordLength(s);
      && 0 < n && IsWord(s[..n]) && (s[n..] == "" || IsSpace(s[n..][0]))
      && Split(s) == [s[..n]] + Split(s[n..])
  {
  }
}
