/** Wrapping a long paragraph of a table cell into lines. */
module Wrap {
  import opened Text

  const MAX_CHARS := 100

  function AllWords(lines: seq<string>): seq<string> {
    if lines == [] then [] else AllWords(lines[..|lines| - 1]) + Split(lines[|lines| - 1])
  }

  /** A line was closed because the next word did not fit; on the first line one more
      character is taken for used than is. */
  predicate NextDidNotFit(lines: seq<string>, i: nat)
    requires i + 1 < |lines|
  {
    Split(lines[i + 1]) != [] &&
    |lines[i]| + 1 + |Split(lines[i + 1])[0]| > MAX_CHARS - if i == 0 then 1 else 0
  }

  predicate ShortOrSingle(line: string) {
    |line| <= MAX_CHARS || |Split(line)| == 1
  }

  /** The lines hold the words of the paragraph, in order and none lost or broken; a line is
      short enough or a single word; no line was closed too early. */
  method WrapParagraph(para: string) returns (lines: seq<string>)
    ensures AllWords(lines) == Split(para)
    ensures forall l <- lines :: ShortOrSingle(l)
    ensures forall i: nat | i + 1 < |lines| :: NextDidNotFit(lines, i)
  {
    hide AllWords, Join, Split, NextDidNotFit, ShortOrSingle, Wrapping;
    var words := Split(para);
    lines := [];
    var current: seq<string> := [];
    var length: nat := 0;
    NothingWrapped(words);
    for i := 0 to |words|
      invariant Wrapping(words, i, lines, current, length)
      invariant current == [] ==> i == 0
    {
      var word := words[i];
      assert word in words;
      if current != [] && length + |word| + 1 > MAX_CHARS {
        LineClosed(words, i, lines, current, length);
        lines := lines + [Join(current)];
        current := [word];
        length := |word|;
      } else {
        LineExtended(words, i, lines, current, length);
        current := current + [word];
        length := length + |word| + if current != [] then 1 else 0;
      }
    }
    if current != [] {
      LastLineClosed(words, lines, current, length);
      lines := lines + [Join(current)];
    } else {
      NothingToWrap(words, lines, length);
    }
  }

  /** The state of the loop before word `i`. */
  predicate Wrapping(words: seq<string>, i: nat, lines: seq<string>, current: seq<string>, length: nat) {
    && i <= |words| && AllWords(lines) + current == words[..i]
    && (current == [] ==> i == 0 && lines == [] && length == 0)
    && (forall w <- current :: IsWord(w))
    && (current != [] ==> length == |Join(current)| + if lines == [] then 1 else 0)
    && (|current| <= 1 || length <= MAX_CHARS)
    && (forall l <- lines :: ShortOrSingle(l))
    && (forall j: nat | j + 1 < |lines| :: NextDidNotFit(lines, j))
    && (lines != [] ==> Closes(lines, current))
  }

  lemma NothingWrapped(words: seq<string>)
    ensures Wrapping(words, 0, [], [], 0)
  {
  }

  lemma NothingToWrap(words: seq<string>, lines: seq<string>, length: nat)
    requires Wrapping(words, |words|, lines, [], length)
    ensures AllWords(lines) == words && lines == []
  {
  }

  lemma LineExtended(words: seq<string>, i: nat, lines: seq<string>, current: seq<string>, length: nat)
    requires Wrapping(words, i, lines, current, length) && i < |words| && IsWord(words[i])
    requires current == [] || length + |words[i]| + 1 <= MAX_CHARS
    ensures Wrapping(words, i + 1, lines, current + [words[i]], length + |words[i]| + 1)
  {
    hide NextDidNotFit, ShortOrSingle, AllWords;
    if current != [] {
      JoinSnoc(current, words[i]);
    }
    hide Join;
    assert words[..i + 1] == words[..i] + [words[i]];
    assert AllWords(lines) + (current + [words[i]]) == AllWords(lines) + current + [words[i]];
  }

  lemma LineClosed(words: seq<string>, i: nat, lines: seq<string>, current: seq<string>, length: nat)
    requires Wrapping(words, i, lines, current, length) && i < |words| && IsWord(words[i])
    requires current != [] && length + |words[i]| + 1 > MAX_CHARS
    ensures Wrapping(words, i + 1, lines + [Join(current)], [words[i]], |words[i]|)
  {
    hide NextDidNotFit, ShortOrSingle, AllWords;
    SplitJoin(current);
    CloseLine(lines, current);
    assert words[..i + 1] == words[..i] + [words[i]];
  }

  lemma LastLineClosed(words: seq<string>, lines: seq<string>, current: seq<string>, length: nat)
    requires Wrapping(words, |words|, lines, current, length) && current != []
    ensures var longer := lines + [Join(current)];
            && AllWords(longer) == words
            && (forall l <- longer :: ShortOrSingle(l))
            && (forall j: nat | j + 1 < |longer| :: NextDidNotFit(longer, j))
  {
    hide NextDidNotFit, ShortOrSingle, AllWords;
    SplitJoin(current);
    CloseLine(lines, current);
    assert words[..|words|] == words;
  }

  /** The last line was closed because the first word of `current` did not fit. */
  predicate Closes(lines: seq<string>, current: seq<string>)
    requires lines != []
  {
    current != [] &&
    |lines[|lines| - 1]| + 1 + |current[0]| > MAX_CHARS - if |lines| == 1 then 1 else 0
  }

  lemma CloseLine(lines: seq<string>, current: seq<string>)
    requires current != [] && Split(Join(current)) == current
    requires |current| == 1 || |Join(current)| <= MAX_CHARS
    requires forall l <- lines :: ShortOrSingle(l)
    requires forall j: nat | j + 1 < |lines| :: NextDidNotFit(lines, j)
    requires lines != [] ==> Closes(lines, current)
    ensures var longer := lines + [Join(current)];
            && AllWords(longer) == AllWords(lines) + current
            && (forall l <- longer :: ShortOrSingle(l))
            && (forall j: nat | j + 1 < |longer| :: NextDidNotFit(longer, j))
  {
    var longer := lines + [Join(current)];
    assert longer[..|lines|] == lines;
    forall j: nat | j + 1 < |longer| ensures NextDidNotFit(longer, j) {
      if j + 1 < |lines| {
        assert NextDidNotFit(lines, j);
      }
    }
  }
}
