// Word wrapping and pagination, in the fold form of the shared PDF writer and
// in the loop form of the Final Report writer.
module PdfLayout {
  import opened PdfText

  // ---------------------------------------------------------------- wrapping

  /** One step of pdfWrap's reduce: extend the last line, or start a new one. */
  function AddWord(lines: seq<string>, word: string, max: int): (r: seq<string>)
    requires lines != []
    ensures r != []
  {
    var current := lines[|lines| - 1];
    var candidate := if current == "" then word else current + " " + word;
    if |candidate| > max && current != "" then lines + [word]
    else lines[..|lines| - 1] + [candidate]
  }

  function Fold(words: seq<string>, max: int): (lines: seq<string>)
    ensures lines != []
  {
    if words == [] then [""]
    else AddWord(Fold(words[..|words| - 1], max), words[|words| - 1], max)
  }

  function Wrap(text: string, max: int): (lines: seq<string>)
    ensures lines != []
  {
    if SafeText(text) == "" then [""] else Fold(Split(SafeText(text)), max)
  }

  lemma WordsOf(text: string)
    ensures SafeText(text) != "" ==> AllWords(Split(SafeText(text)))
    ensures Join(Split(SafeText(text))) == SafeText(text)
  {
    SafeTextIsClean(text);
    SplitOfClean(SafeText(text));
    JoinOfSplit(SafeText(text));
  }

  /** The loop form, finalReportPdfWrap: it computes the same lines as the fold. */
  method WrapByLoop(text: string, max: int) returns (lines: seq<string>)
    ensures lines == Wrap(text, max)
  {
    var clean := SafeText(text);
    if clean == "" {
      return [""];
    }
    var words := Split(clean);
    WordsOf(text);
    lines := [];
    var current := "";
    for i := 0 to |words|
      invariant i == 0 ==> current == "" && lines == []
      invariant i > 0 ==> current != "" && lines + [current] == Fold(words[..i], max)
    {
      var word := words[i];
      assert IsWord(word);
      assert words[..i + 1][..i] == words[..i];
      ghost var before := lines + [current];
      assert before[..|lines|] == lines;
      var test := if current != "" then current + " " + word else word;
      if |test| > max && current != "" {
        lines := lines + [current];
        current := word;
      } else {
        current := test;
      }
    }
    assert words[..|words|] == words;
    if current != "" {
      lines := lines + [current];
    }
  }

  predicate IsTextLine(line: string) {
    IsClean(line) && line != ""
  }

  predicate AllTextLines(lines: seq<string>) {
    forall i :: 0 <= i < |lines| ==> IsTextLine(lines[i])
  }

  lemma {:induction false} FoldGivesTextLines(words: seq<string>, max: int)
    requires AllWords(words) && words != []
    ensures AllTextLines(Fold(words, max))
  {
    var n := |words| - 1;
    assert IsWord(words[n]);
    if n > 0 {
      assert AllWords(words[..n]);
      FoldGivesTextLines(words[..n], max);
      var current := Fold(words[..n], max)[|Fold(words[..n], max)| - 1];
      assert IsTextLine(current);
      assert IsTextLine(current + " " + words[n]);
    }
  }

  /** Every wrapped line is clean, and only a blank text gives a blank line. */
  lemma WrapGivesCleanLines(text: string, max: int)
    ensures SafeText(text) == "" ==> Wrap(text, max) == [""]
    ensures SafeText(text) != "" ==> AllTextLines(Wrap(text, max))
  {
    if SafeText(text) != "" {
      WordsOf(text);
      FoldGivesTextLines(Split(SafeText(text)), max);
    }
  }

  // A split of a word sequence into lines, each line given by its words.

  function Flatten(groups: seq<seq<string>>): seq<string> {
    if groups == [] then [] else Flatten(groups[..|groups| - 1]) + groups[|groups| - 1]
  }

  function Lines(groups: seq<seq<string>>): (lines: seq<string>)
    ensures |lines| == |groups|
  {
    seq(|groups|, i requires 0 <= i < |groups| => Join(groups[i]))
  }

  /** A line may exceed the limit only when it is a single word. */
  predicate Fits(group: seq<string>, max: int) {
    group != [] && (|Join(group)| <= max || |group| == 1)
  }

  predicate IsSplit(groups: seq<seq<string>>, words: seq<string>, max: int) {
    && Flatten(groups) == words
    && forall i :: 0 <= i < |groups| ==> Fits(groups[i], max)
  }

  /** AddWord, by words instead of by text. */
  function Grow(groups: seq<seq<string>>, word: string, max: int): (r: seq<seq<string>>)
    requires groups != []
    ensures r != []
  {
    var last := groups[|groups| - 1];
    if |Join(last + [word])| > max then groups + [[word]]
    else groups[..|groups| - 1] + [last + [word]]
  }

  /** The greedy split, by words instead of by text. */
  function Greedy(words: seq<string>, max: int): (groups: seq<seq<string>>)
    requires words != []
    ensures groups != []
  {
    if |words| == 1 then [words]
    else Grow(Greedy(words[..|words| - 1], max), words[|words| - 1], max)
  }

  lemma {:induction false} JoinOfSnoc(group: seq<string>, word: string)
    requires group != []
    ensures Join(group + [word]) == Join(group) + " " + word
  {
    if |group| > 1 {
      JoinOfSnoc(group[1..], word);
      assert (group + [word])[1..] == group[1..] + [word];
    }
  }

  lemma JoinOfOne(group: seq<string>)
    requires |group| == 1
    ensures Join(group) == group[0]
  {
  }

  lemma {:induction false} JoinOfWords(group: seq<string>)
    requires AllWords(group) && group != []
    ensures Join(group) != ""
  {
    assert IsWord(group[0]);
  }

  predicate AllGroups(groups: seq<seq<string>>) {
    forall i :: 0 <= i < |groups| ==> groups[i] != [] && AllWords(groups[i])
  }

  lemma GrowIsAddWord(groups: seq<seq<string>>, word: string, max: int)
    requires groups != [] && AllGroups(groups) && IsWord(word)
    ensures Lines(Grow(groups, word, max)) == AddWord(Lines(groups), word, max)
    ensures AllGroups(Grow(groups, word, max))
  {
    var last := groups[|groups| - 1];
    JoinOfSnoc(last, word);
    JoinOfWords(last);
  }

  lemma {:induction false} GreedyIsFold(words: seq<string>, max: int)
    requires AllWords(words) && words != []
    ensures Lines(Greedy(words, max)) == Fold(words, max)
    ensures AllGroups(Greedy(words, max))
  {
    hide Grow, Join;
    var n := |words| - 1;
    assert IsWord(words[n]);
    if n == 0 {
      JoinOfOne(words);
      assert Fold(words[..0], max) == [""];
    } else {
      hide AddWord;
      assert AllWords(words[..n]);
      GreedyIsFold(words[..n], max);
      GrowIsAddWord(Greedy(words[..n], max), words[n], max);
    }
  }

  lemma FlattenOfSnoc(groups: seq<seq<string>>, group: seq<string>)
    ensures Flatten(groups + [group]) == Flatten(groups) + group
  {
    assert (groups + [group])[..|groups|] == groups;
  }

  lemma GrowKeepsSplit(groups: seq<seq<string>>, words: seq<string>, word: string, max: int)
    requires groups != [] && IsSplit(groups, words, max)
    ensures IsSplit(Grow(groups, word, max), words + [word], max)
  {
    var k := |groups| - 1;
    if |Join(groups[k] + [word])| > max {
      FlattenOfSnoc(groups, [word]);
    } else {
      FlattenOfSnoc(groups[..k], groups[k] + [word]);
      assert Flatten(groups[..k]) + (groups[k] + [word]) == Flatten(groups) + [word];
    }
  }

  lemma {:induction false} GreedyIsSplit(words: seq<string>, max: int)
    requires words != []
    ensures IsSplit(Greedy(words, max), words, max)
  {
    var n := |words| - 1;
    if n == 0 {
      FlattenOfSnoc([], words);
      assert [] + [words] == [words];
    } else {
      GreedyIsSplit(words[..n], max);
      GrowKeepsSplit(Greedy(words[..n], max), words[..n], words[n], max);
      assert words == words[..n] + [words[n]];
    }
  }

  /**
   * No valid split uses fewer lines than the greedy one, and one with as many
   * lines has a last line at least as long.
   */
  lemma {:induction false} GreedyIsOptimal(groups: seq<seq<string>>, words: seq<string>, max: int)
    requires AllWords(words) && words != [] && IsSplit(groups, words, max)
    ensures groups != [] && |Greedy(words, max)| <= |groups|
    ensures |Greedy(words, max)| == |groups| ==>
              |Join(Greedy(words, max)[|groups| - 1])| <= |Join(groups[|groups| - 1])|
    decreases |words|
  {
    var n := |words| - 1;
    var word := words[n];
    FlattenNonEmpty(groups, words, max);
    if n == 0 {
      SingleWordSplit(groups, words, max);
    } else {
      var shorter := DropLastWord(groups, words, max);
      assert AllWords(words[..n]);
      GreedyIsOptimal(shorter, words[..n], max);
      var before := Greedy(words[..n], max);
      JoinOfSnoc(before[|before| - 1], word);
    }
  }

  /** A split without its last word, and the length of its last line then. */
  lemma DropLastWord(groups: seq<seq<string>>, words: seq<string>, max: int) returns (shorter: seq<seq<string>>)
    requires |words| > 1 && IsSplit(groups, words, max) && groups != []
    ensures IsSplit(shorter, words[..|words| - 1], max) && shorter != []
    ensures var last := groups[|groups| - 1];
            var word := words[|words| - 1];
            if |last| == 1 then |shorter| == |groups| - 1 && last == [word]
            else
              && |shorter| == |groups|
              && |Join(last)| == |Join(shorter[|shorter| - 1])| + 1 + |word|
              && |Join(last)| <= max
  {
    var n := |words| - 1;
    var k := |groups| - 1;
    var last := groups[k];
    assert Fits(last, max);
    var m := |last| - 1;
    assert words == Flatten(groups[..k]) + last;
    assert last[m] == words[n];
    assert last == last[..m] + [words[n]];
    if m == 0 {
      shorter := groups[..k];
      assert words[..n] == Flatten(shorter);
      assert shorter != [] by {
        assert Flatten([]) == [];
      }
    } else {
      shorter := groups[..k] + [last[..m]];
      FlattenOfSnoc(groups[..k], last[..m]);
      assert words[..n] == Flatten(groups[..k]) + last[..m];
      JoinOfSnoc(last[..m], words[n]);
    }
  }

  lemma FlattenNonEmpty(groups: seq<seq<string>>, words: seq<string>, max: int)
    requires IsSplit(groups, words, max)
    ensures groups != [] <==> words != []
  {
    if groups != [] {
      assert Fits(groups[|groups| - 1], max);
    }
  }

  lemma {:induction false} FlattenAtLeast(groups: seq<seq<string>>)
    requires forall i :: 0 <= i < |groups| ==> groups[i] != []
    ensures |Flatten(groups)| >= |groups|
  {
    if groups != [] {
      FlattenAtLeast(groups[..|groups| - 1]);
    }
  }

  lemma SingleWordSplit(groups: seq<seq<string>>, words: seq<string>, max: int)
    requires |words| == 1 && IsSplit(groups, words, max)
    ensures groups == [words]
  {
    FlattenAtLeast(groups);
    FlattenNonEmpty(groups, words, max);
    assert groups[..0] == [];
    assert Flatten(groups) == Flatten(groups[..0]) + groups[0] == groups[0];
  }

  /** The wrapped lines are a valid split of the text's words, joined with blanks. */
  lemma WrapIsValid(text: string, max: int)
    requires SafeText(text) != ""
    ensures var words := Split(SafeText(text));
            && words != []
            && IsSplit(Greedy(words, max), words, max)
            && Wrap(text, max) == Lines(Greedy(words, max))
  {
    WordsOf(text);
    GreedyIsFold(Split(SafeText(text)), max);
    GreedyIsSplit(Split(SafeText(text)), max);
  }

  /** Greedy wrapping uses the fewest lines of any valid split of the text. */
  lemma WrapIsOptimal(text: string, max: int, groups: seq<seq<string>>)
    requires SafeText(text) != "" && IsSplit(groups, Split(SafeText(text)), max)
    ensures |Wrap(text, max)| <= |groups|
  {
    WordsOf(text);
    WrapIsValid(text, max);
    GreedyIsOptimal(groups, Split(SafeText(text)), max);
  }

  lemma JoinOfExtended(head: seq<string>, last: string, more: string)
    ensures Join(head + [last + more]) == Join(head + [last]) + more
  {
    hide Join;
    if head == [] {
      JoinOfOne(head + [last]);
      JoinOfOne(head + [last + more]);
    } else {
      JoinOfSnoc(head, last);
      JoinOfSnoc(head, last + more);
      var h := Join(head) + " ";
      assert h + (last + more) == (h + last) + more;
    }
  }

  lemma AppendedBlank(a: string, word: string)
    ensures a + " " + word == a + (" " + word)
  {
  }

  lemma JoinOfAddWord(lines: seq<string>, word: string, max: int)
    requires lines != [] && lines[|lines| - 1] != ""
    ensures Join(AddWord(lines, word, max)) == Join(lines) + " " + word
  {
    hide Join;
    var k := |lines| - 1;
    var current := lines[k];
    AppendedBlank(current, word);
    AppendedBlank(Join(lines), word);
    if |current + " " + word| > max {
      JoinOfSnoc(lines, word);
    } else {
      JoinOfExtended(lines[..k], current, " " + word);
      assert lines == lines[..k] + [current];
    }
  }

  lemma {:induction false} JoinOfFold(words: seq<string>, max: int)
    requires AllWords(words) && words != []
    ensures Join(Fold(words, max)) == Join(words)
  {
    hide Join;
    var n := |words| - 1;
    var word := words[n];
    assert IsWord(word);
    if n == 0 {
      assert Fold(words[..0], max) == [""];
      assert Fold(words, max) == [word] == words;
    } else {
      assert AllWords(words[..n]);
      JoinOfFold(words[..n], max);
      FoldGivesTextLines(words[..n], max);
      var lines := Fold(words[..n], max);
      assert IsTextLine(lines[|lines| - 1]);
      JoinOfAddWord(lines, word, max);
      JoinOfSnoc(words[..n], word);
      assert words == words[..n] + [word];
    }
  }

  /** Joining the lines with blanks gives the cleaned text back. */
  lemma WrapKeepsText(text: string, max: int)
    ensures Join(Wrap(text, max)) == SafeText(text)
  {
    if SafeText(text) != "" {
      WordsOf(text);
      JoinOfFold(Split(SafeText(text)), max);
    }
  }

  // ---------------------------------------------------------------- pages

  const WIDTH: int := 96
  const PAGE: nat := 43

  /** The printable lines: every source line wrapped, in order. */
  function WrapAll(lines: seq<string>): (printable: seq<string>)
    ensures lines != [] ==> printable != []
  {
    if lines == [] then [] else WrapAll(lines[..|lines| - 1]) + Wrap(lines[|lines| - 1], WIDTH)
  }

  function Pages(lines: seq<string>): seq<seq<string>> {
    if lines == [] then []
    else if |lines| <= PAGE then [lines]
    else [lines[..PAGE]] + Pages(lines[PAGE..])
  }

  function Concat(pages: seq<seq<string>>): seq<string> {
    if pages == [] then [] else pages[0] + Concat(pages[1..])
  }

  /** A page list is full when only its last page may be short, and none is empty. */
  predicate IsPaging(pages: seq<seq<string>>, lines: seq<string>) {
    && Concat(pages) == lines
    && (forall i :: 0 <= i < |pages| - 1 ==> |pages[i]| == PAGE)
    && (pages != [] ==> 1 <= |pages[|pages| - 1]| <= PAGE)
  }

  lemma {:induction false} PagesArePaging(lines: seq<string>)
    ensures IsPaging(Pages(lines), lines)
  {
    if lines != [] && |lines| > PAGE {
      PagesArePaging(lines[PAGE..]);
      var rest := Pages(lines[PAGE..]);
      assert ([lines[..PAGE]] + rest)[1..] == rest;
      assert lines == lines[..PAGE] + lines[PAGE..];
      assert rest != [] by {
        assert lines[PAGE..] != [];
      }
      assert forall i :: 1 <= i < |Pages(lines)| ==> Pages(lines)[i] == rest[i - 1];
    } else if lines != [] {
      assert Concat([lines][1..]) == [];
    }
  }

  /** The page list is determined by its shape, so both writers paginate alike. */
  lemma {:induction false} PagingIsUnique(pages: seq<seq<string>>, lines: seq<string>)
    requires IsPaging(pages, lines)
    ensures pages == Pages(lines)
    decreases |pages|
  {
    if pages != [] {
      var rest := pages[1..];
      assert lines == pages[0] + Concat(rest);
      assert |lines| >= 1 by {
        if |pages| > 1 {
          assert |pages[0]| == PAGE;
        }
      }
      if |pages| == 1 {
        assert lines == pages[0];
      } else {
        assert lines[PAGE..] == Concat(rest);
        assert lines[..PAGE] == pages[0];
        assert IsPaging(rest, Concat(rest));
        PagingIsUnique(rest, Concat(rest));
        assert Concat(rest) != [] by {
          PagingNonEmpty(rest, Concat(rest));
        }
      }
    }
  }

  lemma PagingNonEmpty(pages: seq<seq<string>>, lines: seq<string>)
    requires IsPaging(pages, lines) && pages != []
    ensures lines != []
  {
    assert lines == pages[0] + Concat(pages[1..]);
    if |pages| > 1 {
      assert |pages[0]| == PAGE;
    }
  }

  /** while (printable.length) pages.push(printable.splice(0, 43)) */
  method PaginateBySplice(lines: seq<string>) returns (pages: seq<seq<string>>)
    ensures pages == Pages(lines)
  {
    var printable := lines;
    pages := [];
    while printable != []
      invariant pages + Pages(printable) == Pages(lines)
      decreases |printable|
    {
      var k := if |printable| < 43 then |printable| else 43;
      assert k == |printable| ==> printable[..k] == printable;
      assert Pages(printable) == [printable[..k]] + Pages(printable[k..]);
      pages := pages + [printable[..k]];
      printable := printable[k..];
    }
  }

  /** The Final Report writer closes a page when it already holds 43 lines. */
  method PaginateByCounting(lines: seq<string>) returns (pages: seq<seq<string>>)
    ensures pages == Pages(lines)
  {
    pages := [];
    var current: seq<string> := [];
    for i := 0 to |lines|
      invariant |current| <= PAGE
      invariant i > 0 ==> current != []
      invariant i == 0 ==> pages == [] && current == []
      invariant forall j :: 0 <= j < |pages| ==> |pages[j]| == PAGE
      invariant Concat(pages) + current == lines[..i]
    {
      if |current| >= 43 {
        ConcatOfSnoc(pages, current);
        pages := pages + [current];
        current := [];
      }
      assert lines[..i + 1] == lines[..i] + [lines[i]];
      current := current + [lines[i]];
    }
    assert lines[..|lines|] == lines;
    if current != [] {
      ConcatOfSnoc(pages, current);
      pages := pages + [current];
    }
    PagingIsUnique(pages, lines);
  }

  lemma {:induction false} ConcatOfSnoc(pages: seq<seq<string>>, page: seq<string>)
    ensures Concat(pages + [page]) == Concat(pages) + page
  {
    if pages == [] {
      assert pages + [page] == [page];
      assert Concat([page][1..]) == [];
    } else {
      ConcatOfSnoc(pages[1..], page);
      assert (pages + [page])[1..] == pages[1..] + [page];
    }
  }
}
