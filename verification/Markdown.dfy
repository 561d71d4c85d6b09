/** The line scanner of the document generator: a text is cut into blocks of lines. */
module Markdown {
  import opened Text

  datatype Kind = Blank | Rule | Heading1 | Heading2 | Heading3 | Bullets | Numbered | Table | Code | Paragraph

  /** The lines from `start` up to, not including, `end`. */
  datatype Block = Block(kind: Kind, start: nat, end: nat)

  predicate StartsWith(s: string, p: string) { p <= s }

  function DigitCount(s: string): (n: nat)
    ensures n <= |s|
  {
    if s != "" && IsDigit(s[0]) then 1 + DigitCount(s[1..]) else 0
  }

  predicate IsBlank(line: string) { Strip(line) == "" }

  predicate IsRule(line: string) { Strip(line) == "---" || Strip(line) == "___" }

  predicate IsHeading(line: string) {
    StartsWith(Strip(line), "# ") || StartsWith(Strip(line), "## ") || StartsWith(Strip(line), "### ")
  }

  predicate IsBullet(line: string) { StartsWith(Strip(line), "- ") || StartsWith(Strip(line), "* ") }

  /** Digits, a dot and a space. */
  predicate IsNumbered(line: string) {
    var s := Strip(line);
    var n := DigitCount(s);
    n > 0 && n + 1 < |s| && s[n] == '.' && IsSpace(s[n + 1])
  }

  predicate IsRow(line: string) { !IsBlank(line) && '|' in line }

  predicate IsFence(line: string) { StartsWith(Strip(line), "```") }

  predicate IsSpecial(line: string) {
    || StartsWith(Strip(line), "#")
    || IsBullet(line) || IsNumbered(line) || IsRule(line) || IsFence(line)
    || '|' in Strip(line)
  }

  predicate Continues(line: string) { !IsBlank(line) && !IsSpecial(line) }

  predicate IsNoFence(line: string) { !IsFence(line) }

  /** The first line from `i` on that `p` does not hold of. */
  function RunEnd(lines: seq<string>, i: nat, p: string -> bool): (e: nat)
    requires i <= |lines|
    ensures i <= e <= |lines|
    ensures forall j | i <= j < e :: p(lines[j])
    ensures e < |lines| ==> !p(lines[e])
    decreases |lines| - i
  {
    if i < |lines| && p(lines[i]) then RunEnd(lines, i + 1, p) else i
  }

  /** The block that starts at line `i`. A lone table row is no table: the scanner goes back
      and reads it as what it would be otherwise. */
  function BlockAt(lines: seq<string>, i: nat): (b: Block)
    requires i < |lines|
    ensures b.start == i && i < b.end <= |lines|
  {
    var line := Strip(lines[i]);
    if line == "" then Block(Blank, i, i + 1)
    else if IsRule(lines[i]) then Block(Rule, i, i + 1)
    else if StartsWith(line, "# ") && !StartsWith(line, "## ") then Block(Heading1, i, i + 1)
    else if StartsWith(line, "## ") && !StartsWith(line, "### ") then Block(Heading2, i, i + 1)
    else if StartsWith(line, "### ") then Block(Heading3, i, i + 1)
    else if IsBullet(lines[i]) then Block(Bullets, i, RunEnd(lines, i + 1, IsBullet))
    else if IsNumbered(lines[i]) then Block(Numbered, i, RunEnd(lines, i + 1, IsNumbered))
    else if StartsWith(line, "|") && RunEnd(lines, i, IsRow) >= i + 2 then Block(Table, i, RunEnd(lines, i, IsRow))
    else if IsFence(lines[i]) then
      var e := RunEnd(lines, i + 1, IsNoFence);
      Block(Code, i, if e < |lines| then e + 1 else e)
    else Block(Paragraph, i, RunEnd(lines, i + 1, Continues))
  }

  function Blocks(lines: seq<string>, i: nat): seq<Block>
    requires i <= |lines|
    decreases |lines| - i
  {
    if i == |lines| then [] else [BlockAt(lines, i)] + Blocks(lines, BlockAt(lines, i).end)
  }

  /** The blocks lie end to end from line `i` to line `n`. */
  predicate Tiles(blocks: seq<Block>, i: nat, n: nat) {
    if blocks == [] then i == n
    else blocks[0].start == i && blocks[0].start < blocks[0].end <= n && Tiles(blocks[1..], blocks[0].end, n)
  }

  function LinesOf(lines: seq<string>, blocks: seq<Block>): seq<string>
    requires forall b <- blocks :: b.start <= b.end <= |lines|
  {
    if blocks == [] then [] else lines[blocks[0].start..blocks[0].end] + LinesOf(lines, blocks[1..])
  }

  /** Every line is in exactly one block. */
  lemma {:induction false} BlocksTile(lines: seq<string>, i: nat)
    requires i <= |lines|
    ensures Tiles(Blocks(lines, i), i, |lines|)
    ensures forall b <- Blocks(lines, i) :: b.start <= b.end <= |lines|
    ensures LinesOf(lines, Blocks(lines, i)) == lines[i..]
    decreases |lines| - i
  {
    if i < |lines| {
      var b := BlockAt(lines, i);
      BlocksTile(lines, b.end);
      assert lines[i..] == lines[i..b.end] + lines[b.end..];
    }
  }

  predicate AllLines(lines: seq<string>, from: nat, end: nat, p: string -> bool)
    requires end <= |lines|
  {
    forall j | from <= j < end :: p(lines[j])
  }

  predicate StopsAt(lines: seq<string>, end: nat, p: string -> bool) {
    end < |lines| ==> !p(lines[end])
  }

  /** What a block of each kind is, apart from how it was found. */
  predicate IsBlock(lines: seq<string>, b: Block)
    requires b.start < b.end <= |lines|
  {
    var first := lines[b.start];
    match b.kind
    case Blank => b.end == b.start + 1 && IsBlank(first)
    case Rule => b.end == b.start + 1 && IsRule(first)
    case Heading1 => b.end == b.start + 1 && StartsWith(Strip(first), "# ")
    case Heading2 => b.end == b.start + 1 && StartsWith(Strip(first), "## ")
    case Heading3 => b.end == b.start + 1 && StartsWith(Strip(first), "### ")
    case Bullets => AllLines(lines, b.start, b.end, IsBullet) && StopsAt(lines, b.end, IsBullet)
    case Numbered => AllLines(lines, b.start, b.end, IsNumbered) && StopsAt(lines, b.end, IsNumbered)
    case Table => b.end >= b.start + 2 && AllLines(lines, b.start, b.end, IsRow) && StopsAt(lines, b.end, IsRow)
                  && StartsWith(Strip(first), "|")
    case Code => IsFence(first) && AllLines(lines, b.start + 1, b.end - 1, IsNoFence)
                 && ((b.end > b.start + 1 && IsFence(lines[b.end - 1])) ||
                     (b.end == |lines| && AllLines(lines, b.start + 1, b.end, IsNoFence)))
    case Paragraph => AllLines(lines, b.start + 1, b.end, Continues) && StopsAt(lines, b.end, Continues)
                      && !IsBlank(first) && !IsRule(first) && !IsHeading(first)
                      && !IsBullet(first) && !IsNumbered(first) && !IsFence(first)
                      && (StartsWith(Strip(first), "|") && b.start + 1 < |lines| ==> !IsRow(lines[b.start + 1]))
  }

  /** Every block is of its kind: runs are as long as they can be, code goes up to its closing
      fence or the end of the text, nothing special is swallowed by a paragraph. */
  lemma {:induction false} BlocksAreOfTheirKind(lines: seq<string>, i: nat)
    requires i <= |lines|
    ensures forall b <- Blocks(lines, i) :: b.start < b.end <= |lines| && IsBlock(lines, b)
    decreases |lines| - i
  {
    if i < |lines| {
      BlockIsOfItsKind(lines, i);
      BlocksAreOfTheirKind(lines, BlockAt(lines, i).end);
    }
  }

  lemma BlockIsOfItsKind(lines: seq<string>, i: nat)
    requires i < |lines|
    ensures IsBlock(lines, BlockAt(lines, i))
  {
    hide Strip, IsNumbered, DigitCount, IsRow, IsBullet, IsRule, IsFence, StartsWith, Continues;
    if StartsWith(Strip(lines[i]), "|") {
      BarStartsARow(lines, i);
    }
    if BlockAt(lines, i).kind.Code? {
      CodeIsFenced(lines, i);
    }
  }

  lemma CodeIsFenced(lines: seq<string>, i: nat)
    requires i < |lines| && IsFence(lines[i]) && BlockAt(lines, i).kind.Code?
    ensures IsBlock(lines, BlockAt(lines, i))
  {
    hide Strip, IsNumbered, DigitCount, IsRow, IsBullet, IsRule, IsFence, StartsWith, Continues;
  }

  lemma BarStartsARow(lines: seq<string>, i: nat)
    requires i < |lines| && StartsWith(Strip(lines[i]), "|")
    ensures IsRow(lines[i])
    ensures RunEnd(lines, i, IsRow) == RunEnd(lines, i + 1, IsRow)
  {
    hide Strip;
    assert Strip(lines[i])[0] == '|';
    StrippedFrom(lines[i]);
  }

  /** There is one way only to cut the text into blocks of their kinds, the scanner's. */
  lemma {:induction false} OneWayToCut(lines: seq<string>, blocks: seq<Block>, i: nat)
    requires i <= |lines| && Tiles(blocks, i, |lines|)
    requires forall b <- blocks :: b.start < b.end <= |lines| && IsBlock(lines, b)
    ensures blocks == Blocks(lines, i)
  {
    if blocks != [] {
      BlockIsDetermined(lines, blocks[0]);
      OneWayToCut(lines, blocks[1..], blocks[0].end);
      assert blocks == [blocks[0]] + blocks[1..];
    }
  }

  lemma BlockIsDetermined(lines: seq<string>, b: Block)
    requires b.start < b.end <= |lines| && IsBlock(lines, b)
    ensures b == BlockAt(lines, b.start)
  {
    hide Strip, IsNumbered, DigitCount, IsRow, IsBullet, IsRule, IsFence, StartsWith, Continues;
    var first := lines[b.start];
    KindsExcludeEachOther(first);
    if b.kind.Bullets? {
      RunIsDetermined(lines, b.start + 1, b.end, IsBullet);
    } else if b.kind.Numbered? {
      RunIsDetermined(lines, b.start + 1, b.end, IsNumbered);
    } else if b.kind.Table? {
      RunIsDetermined(lines, b.start, b.end, IsRow);
    } else if b.kind.Code? {
      RunIsDetermined(lines, b.start + 1,
                      if b.end > b.start + 1 && IsFence(lines[b.end - 1]) then b.end - 1 else b.end, IsNoFence);
    } else if b.kind.Paragraph? {
      RunIsDetermined(lines, b.start + 1, b.end, Continues);
      if StartsWith(Strip(first), "|") {
        BarStartsARow(lines, b.start);
      }
    }
  }

  lemma RunIsDetermined(lines: seq<string>, i: nat, end: nat, p: string -> bool)
    requires i <= end <= |lines|
    requires AllLines(lines, i, end, p) && StopsAt(lines, end, p)
    ensures RunEnd(lines, i, p) == end
    decreases end - i
  {
  }

  function KindOf(line: string): Kind {
    if IsBlank(line) then Blank
    else if IsRule(line) then Rule
    else if StartsWith(Strip(line), "# ") then Heading1
    else if StartsWith(Strip(line), "## ") then Heading2
    else if StartsWith(Strip(line), "### ") then Heading3
    else if IsBullet(line) then Bullets
    else if IsNumbered(line) then Numbered
    else if StartsWith(Strip(line), "|") then Table
    else if IsFence(line) then Code
    else Paragraph
  }

  /** Every line that would start a block of another kind is special, so that no paragraph
      swallows one. */
  lemma ParagraphsSwallowNothing(line: string)
    ensures Continues(line) ==> KindOf(line) == Paragraph
  {
    hide Strip, IsNumbered;
    var s := Strip(line);
    if s != "" {
      FirstTwo(s, "# ");
      FirstTwo(s, "## ");
      FirstTwo(s, "### ");
      if StartsWith(s, "|") {
        assert s[0] == '|';
      }
      if IsRule(line) {
        assert IsSpecial(line);
      }
    }
  }

  /** A row of a table is a line with a bar somewhere. */
  lemma RowsHaveBars(line: string)
    ensures IsRow(line) <==> exists c <- line :: c == '|'
  {
    hide Strip;
    assert !IsSpace('|');
    if '|' in line && IsBlank(line) {
      OnlyBlanksVanish(line);
    }
  }

  lemma StartOf(p: string, rest: string)
    requires p != "" && !IsSpace(p[0]) && rest != "" && !IsSpace(rest[|rest| - 1])
    ensures Strip(p + rest) == p + rest && StartsWith(p + rest, p)
  {
    hide Strip;
    var line := p + rest;
    assert line[0] == p[0] && line[|line| - 1] == rest[|rest| - 1];
    StripTakesBlanks("", line, "");
    assert "" + line + "" == line;
  }

  lemma StripsToItself(line: string)
    requires line == "" || (!IsSpace(line[0]) && !IsSpace(line[|line| - 1]))
    ensures Strip(line) == line
  {
    StripTakesBlanks("", line, "");
    assert "" + line + "" == line;
  }

  /** Headings, bullets, table rows and code by what their first line starts with. */
  lemma KindsByStarts(rest: string)
    requires rest != "" && !IsSpace(rest[|rest| - 1])
    ensures KindOf("# " + rest) == Heading1 && KindOf("## " + rest) == Heading2 && KindOf("### " + rest) == Heading3
    ensures KindOf("- " + rest) == Bullets && KindOf("* " + rest) == Bullets
    ensures KindOf("|" + rest) == Table && KindOf("```" + rest) == Code
  {
    hide Strip, KindOf, StartsWith, IsNumbered;
    forall p | p in ["# ", "## ", "### ", "- ", "* ", "|", "```"]
      ensures Strip(p + rest) == p + rest && StartsWith(p + rest, p)
    {
      StartOf(p, rest);
    }
    forall p | p in ["# ", "## ", "### ", "- ", "* ", "|", "```"] {
      KindsExcludeEachOther(p + rest);
    }
    assert IsFence("```" + rest) && IsBullet("- " + rest) && IsBullet("* " + rest);
  }

  /** Numbered items: digits, a dot and a blank. */
  lemma NumberedByStart(rest: string)
    requires rest != "" && !IsSpace(rest[|rest| - 1])
    ensures KindOf("12. " + rest) == Numbered
  {
    hide Strip, KindOf;
    var line := "12. " + rest;
    StartOf("12. ", rest);
    assert line[0] == '1' && line[1] == '2' && line[2] == '.' && line[3] == ' ';
    assert line[1..][0] == '2' && line[1..][1..][0] == '.';
    assert DigitCount(line[1..][1..]) == 0 && DigitCount(line[1..]) == 1 && DigitCount(line) == 2;
    KindsExcludeEachOther(line);
  }

  /** Blanks, rules and plain text. */
  lemma KindsOfWholeLines()
    ensures KindOf("") == Blank && KindOf("---") == Rule && KindOf("___") == Rule && KindOf("a") == Paragraph
  {
    hide Strip;
    StripsToItself("");
    StripsToItself("---");
    StripsToItself("___");
    StripsToItself("a");
  }

  /** No line starts two kinds of block. */
  lemma KindsExcludeEachOther(line: string)
    ensures IsRule(line) ==> KindOf(line) == Rule
    ensures StartsWith(Strip(line), "# ") ==> KindOf(line) == Heading1
    ensures StartsWith(Strip(line), "## ") ==> KindOf(line) == Heading2
    ensures StartsWith(Strip(line), "### ") ==> KindOf(line) == Heading3
    ensures IsBullet(line) ==> KindOf(line) == Bullets
    ensures IsNumbered(line) ==> KindOf(line) == Numbered
    ensures StartsWith(Strip(line), "|") ==> KindOf(line) == Table
    ensures IsFence(line) ==> KindOf(line) == Code
  {
    hide Strip;
    var s := Strip(line);
    if s != "" {
      FirstTwo(s, "# ");
      FirstTwo(s, "## ");
      FirstTwo(s, "### ");
      FirstTwo(s, "- ");
      FirstTwo(s, "* ");
      FirstTwo(s, "```");
    }
  }

  lemma FirstTwo(s: string, p: string)
    requires |p| >= 2
    ensures StartsWith(s, p) ==> |s| >= |p| && s[0] == p[0] && s[1] == p[1]
    ensures StartsWith(s, p) && |p| >= 3 ==> s[2] == p[2]
  {
  }

  lemma {:induction false} StrippedFrom(s: string)
    ensures forall c <- Strip(s) :: c in s
    decreases |s|
  {
    if s != [] && IsSpace(s[0]) {
      StrippedFrom(s[1..]);
    } else if s != [] && IsSpace(s[|s| - 1]) {
      StrippedFrom(s[..|s| - 1]);
    }
  }

  method ParseMarkdown(lines: seq<string>) returns (blocks: seq<Block>)
    ensures blocks == Blocks(lines, 0)
  {
    hide IsNumbered, Strip, DigitCount;
    blocks := [];
    var i := 0;
    while i < |lines|
      invariant 0 <= i <= |lines|
      invariant blocks + Blocks(lines, i) == Blocks(lines, 0)
      decreases |lines| - i
    {
      var next := ParseBlock(lines, i);
      assert Blocks(lines, i) == [next] + Blocks(lines, next.end);
      assert blocks + ([next] + Blocks(lines, next.end)) == blocks + [next] + Blocks(lines, next.end);
      blocks := blocks + [next];
      i := next.end;
    }
  }

  /** One turn of the outer loop. */
  method ParseBlock(lines: seq<string>, from: nat) returns (b: Block)
    requires from < |lines|
    ensures b == BlockAt(lines, from)
  {
    hide IsNumbered, Strip, DigitCount;
    var i := from;
    var line := Strip(lines[i]);
    if line == "" {
      return Block(Blank, from, from + 1);
    }
    if IsRule(lines[i]) {
      return Block(Rule, from, from + 1);
    }
    if StartsWith(line, "# ") && !StartsWith(line, "## ") {
      return Block(Heading1, from, from + 1);
    }
    if StartsWith(line, "## ") && !StartsWith(line, "### ") {
      return Block(Heading2, from, from + 1);
    }
    if StartsWith(line, "### ") {
      return Block(Heading3, from, from + 1);
    }
    if IsBullet(lines[i]) {
      i := SkipWhile(lines, i + 1, IsBullet);
      return Block(Bullets, from, i);
    }
    if IsNumbered(lines[i]) {
      i := SkipWhile(lines, i + 1, IsNumbered);
      return Block(Numbered, from, i);
    }
    if StartsWith(line, "|") {
      i := SkipWhile(lines, i, IsRow);
      var rows := i - from;
      if rows >= 2 {
        return Block(Table, from, i);
      }
      i := i - rows;
    }
    if IsFence(lines[i]) {
      i := SkipWhile(lines, i + 1, IsNoFence);
      if i < |lines| {
        i := i + 1;
      }
      return Block(Code, from, i);
    }
    i := SkipWhile(lines, i + 1, Continues);
    return Block(Paragraph, from, i);
  }

  method SkipWhile(lines: seq<string>, from: nat, p: string -> bool) returns (i: nat)
    requires from <= |lines|
    ensures i == RunEnd(lines, from, p)
  {
    i := from;
    while i < |lines| && p(lines[i])
      invariant from <= i <= |lines| && RunEnd(lines, i, p) == RunEnd(lines, from, p)
    {
      i := i + 1;
    }
  }
}
