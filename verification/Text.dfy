/** Characters, names, stripping and splitting of text. */
module Text {

  /** Blanks and line ends, as Python knows them. */
  predicate IsSpace(c: char) {
    || c == ' ' || '\t' <= c <= '\r' || '\U{1C}' <= c <= '\U{1F}' || c == '\U{85}' || c == '\U{A0}'
    || c == '\U{1680}' || '\U{2000}' <= c <= '\U{200A}' || c == '\U{2028}' || c == '\U{2029}'
    || c == '\U{202F}' || c == '\U{205F}' || c == '\U{3000}'
  }

  predicate IsDigit(c: char) { '0' <= c <= '9' }

  predicate Distinct(names: seq<string>) {
    forall i, j | 0 <= i < j < |names| :: names[i] != names[j]
  }

  function Strip(s: string): string {
    if s != [] && IsSpace(s[0]) then Strip(s[1..])
    else if s != [] && IsSpace(s[|s| - 1]) then Strip(s[..|s| - 1])
    else s
  }

  /** Stripping takes blanks off both ends, and nothing else. */
  lemma {:induction false} StripTakesBlanks(a: string, s: string, b: string)
    requires (forall c <- a :: IsSpace(c)) && (forall c <- b :: IsSpace(c))
    requires s == "" || (!IsSpace(s[0]) && !IsSpace(s[|s| - 1]))
    ensures Strip(a + s + b) == s
    decreases |a| + |b|
  {
    hide IsSpace;
    var t := a + s + b;
    if a != "" {
      assert a[0] in a && t[0] == a[0] && t[1..] == a[1..] + s + b;
      assert forall c <- a[1..] :: c in a;
      StripTakesBlanks(a[1..], s, b);
    } else if b != "" {
      var n := |b| - 1;
      assert b[n] in b && t[|t| - 1] == b[n];
      assert forall c <- b[..n] :: c in b;
      if s == "" {
        assert b[0] in b && t[0] == b[0] && t[1..] == b[1..] + s + "";
        assert forall c <- b[1..] :: c in b;
        StripTakesBlanks(b[1..], s, "");
      } else {
        assert t[0] == s[0] && t[..|t| - 1] == a + s + b[..n];
        StripTakesBlanks(a, s, b[..n]);
      }
    } else {
      assert t == s;
    }
  }

  lemma {:induction false} OnlyBlanksVanish(s: string)
    requires Strip(s) == ""
    ensures forall c <- s :: IsSpace(c)
    decreases |s|
  {
    hide IsSpace;
    if s != "" {
      var n := |s| - 1;
      if IsSpace(s[0]) {
        OnlyBlanksVanish(s[1..]);
        assert s == [s[0]] + s[1..];
      } else if n > 0 {
        assert s[..n][0] == s[0];
        OnlyBlanksVanish(s[..n]);
      }
    }
  }

  predicate IsWord(w: string) {
    w != "" && forall c <- w :: !IsSpace(c)
  }

  /** The length of the word at the beginning of `s`. */
  function WordLength(s: string): (n: nat)
    ensures n <= |s| && (forall c <- s[..n] :: !IsSpace(c)) && (n < |s| ==> IsSpace(s[n]))
  {
    if s == "" || IsSpace(s[0]) then 0 else 1 + WordLength(s[1..])
  }

  function Split(s: string): (words: seq<string>)
    ensures forall w <- words :: IsWord(w)
    decreases |s|
  {
    if s == "" then []
    else if IsSpace(s[0]) then Split(s[1..])
    else
      var n := WordLength(s);
      [s[..n]] + Split(s[n..])
  }

  function Join(words: seq<string>): string {
    if words == [] then ""
    else if |words| == 1 then words[0]
    else words[0] + " " + Join(words[1..])
  }

  lemma {:induction false} LengthOfWord(w: string, t: string)
    requires IsWord(w) && (t == "" || IsSpace(t[0]))
    ensures WordLength(w + t) == |w|
    decreases |w|
  {
    hide IsSpace;
    assert w[0] in w;
    assert (w + t)[1..] == w[1..] + t;
    if |w| > 1 {
      assert forall c <- w[1..] :: c in w;
      LengthOfWord(w[1..], t);
    } else {
      assert w[1..] + t == t;
    }
  }

  lemma SplitFirst(w: string, t: string)
    requires IsWord(w) && (t == "" || IsSpace(t[0]))
    ensures Split(w + t) == [w] + Split(t)
  {
    hide IsSpace;
    LengthOfWord(w, t);
    assert w[0] in w && (w + t)[0] == w[0];
    assert (w + t)[..|w|] == w && (w + t)[|w|..] == t;
  }

  lemma SplitAfterBlank(t: string)
    ensures Split(" " + t) == Split(t)
  {
    assert (" " + t)[1..] == t;
  }

  lemma SplitFirstOfMore(w: string, t: string)
    requires IsWord(w)
    ensures Split(w + " " + t) == [w] + Split(t)
  {
    hide Split, IsWord;
    assert IsSpace((" " + t)[0]);
    SplitFirst(w, " " + t);
    SplitAfterBlank(t);
    assert w + " " + t == w + (" " + t);
  }

  /** Splitting undoes joining. */
  lemma {:induction false} SplitJoin(words: seq<string>)
    requires forall w <- words :: IsWord(w)
    ensures Split(Join(words)) == words
  {
    hide Split, IsWord;
    if words == [] {
      NothingToSplit();
    } else {
      var w, rest := words[0], words[1..];
      assert words == [w] + rest;
      if rest == [] {
        SplitFirst(w, "");
        NothingToSplit();
        assert w + "" == w;
      } else {
        assert forall v <- rest :: v in words;
        SplitJoin(rest);
        SplitFirstOfMore(w, Join(rest));
      }
    }
  }

  lemma NothingToSplit()
    ensures Split("") == []
  {
  }

  lemma {:induction false} JoinSnoc(words: seq<string>, w: string)
    requires words != []
    ensures Join(words + [w]) == Join(words) + " " + w
  {
    if |words| == 1 {
      assert (words + [w])[1..] == [w];
    } else {
      assert (words + [w])[1..] == words[1..] + [w];
      JoinSnoc(words[1..], w);
      assert words[0] + " " + (Join(words[1..]) + " " + w) == words[0] + " " + Join(words[1..]) + " " + w;
    }
  }

  lemma SplitStep(s: string)
    requires s != ""
    ensures IsSpace(s[0]) ==> Split(s) == Split(s[1..])
    ensures !IsSpace(s[0]) ==>
              var n := WordLength(s); n > 0 && Split(s) == [s[..n]] + Split(s[n..])
  {
    hide IsSpace, IsWord;
  }

  /** A blank anywhere divides the words before it from those after it. */
  lemma {:induction false} SplitAtBlank(a: string, c: char, b: string)
    requires IsSpace(c)
    ensures Split(a + [c] + b) == Split(a) + Split(b)
    decreases |a|
  {
    hide IsSpace, IsWord, Split, WordLength;
    var t := a + [c] + b;
    SplitStep(t);
    if a == "" {
      NothingToSplit();
      assert t[0] == c && t[1..] == b;
    } else {
      SplitStep(a);
      assert t[0] == a[0];
      if IsSpace(a[0]) {
        assert t[1..] == a[1..] + [c] + b;
        SplitAtBlank(a[1..], c, b);
      } else {
        var n := WordLength(a);
        WordEnds(a, [c] + b);
        assert t == a + ([c] + b);
        assert t[..n] == a[..n] && t[n..] == a[n..] + [c] + b;
        SplitAtBlank(a[n..], c, b);
      }
    }
  }

  lemma {:induction false} WordEnds(a: string, b: string)
    requires b != "" && IsSpace(b[0])
    ensures WordLength(a + b) == WordLength(a)
    decreases |a|
  {
    hide IsSpace;
    if a == "" {
      assert a + b == b;
    } else {
      assert (a + b)[0] == a[0] && (a + b)[1..] == a[1..] + b;
      WordEnds(a[1..], b);
    }
  }
}
