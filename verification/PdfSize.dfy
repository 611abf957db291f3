// How long a written file gets: source lines short enough always fit the table
// of ten-digit offsets, and source lines long enough never do.
module PdfSize {
  import opened Wrappers
  import Decimal
  import Text
  import opened PdfText
  import opened PdfLayout
  import opened PdfSyntax
  import opened PdfDocument
  import opened PdfReader
  import opened PdfRoundTrip

  // ---------------------------------------------------------------- lengths of cleaned text

  lemma {:induction false} CollapseShortens(s: string)
    ensures |Collapse(s)| <= |s|
  {
    if s != [] {
      CollapseShortens(s[1..]);
    }
  }

  lemma {:induction false} TrimShortens(s: string)
    ensures |Text.Trim(s)| <= |s|
    decreases |s|
  {
    if s != [] && Text.IsSpace(s[0]) {
      TrimShortens(s[1..]);
    } else if s != [] && Text.IsSpace(s[|s| - 1]) {
      TrimShortens(s[..|s| - 1]);
    }
  }

  lemma SafeTextShortens(s: string)
    ensures |SafeText(s)| <= |s|
  {
    CollapseShortens(PlainText(s));
    TrimShortens(Collapse(PlainText(s)));
  }

  lemma {:induction false} EscapeOnceLength(s: string)
    ensures |s| <= |EscapeOnce(s)| <= 2 * |s|
  {
    if s != [] {
      EscapeOnceLength(s[1..]);
    }
  }

  lemma EscapeLength(s: string)
    requires IsClean(s)
    ensures |s| <= |Escape(s)| <= 2 * |s|
  {
    hide SafeText, ReplaceChar, EscapeOnce;
    CleanIffFixed(s);
    ChainIsOnePass(s);
    EscapeOnceLength(s);
  }

  // ---------------------------------------------------------------- sums over lines

  function Sum(lines: seq<string>, weight: string -> nat): nat {
    if lines == [] then 0 else Sum(lines[..|lines| - 1], weight) + weight(lines[|lines| - 1])
  }

  lemma {:induction false} SumOfConcat(a: seq<string>, b: seq<string>, weight: string -> nat)
    ensures Sum(a + b, weight) == Sum(a, weight) + Sum(b, weight)
  {
    if b == [] {
      assert a + b == a;
    } else {
      SumOfConcat(a, b[..|b| - 1], weight);
      assert (a + b)[..|a + b| - 1] == a + b[..|b| - 1];
    }
  }

  /** The least a line adds to a content stream. */
  function Least(line: string): nat {
    if line == "" then 0 else |line| + 1
  }

  /** The most a line adds to a content stream. */
  function Most(line: string): nat {
    if line == "" then 45 else 47 * |line|
  }

  function Whole(line: string): nat {
    |line| + 1
  }

  /** The lines and characters there are to print, together. */
  function Size(lines: seq<string>): nat {
    Sum(lines, Whole)
  }

  function Cleaned(line: string): nat {
    |SafeText(line)|
  }

  /** All the text there is to print, after cleaning. */
  function CleanSize(lines: seq<string>): nat {
    Sum(lines, Cleaned)
  }

  // ---------------------------------------------------------------- wrapped lines

  lemma {:induction false} JoinedLength(lines: seq<string>)
    requires AllTextLines(lines) && lines != []
    ensures |Join(lines)| < Sum(lines, Least)
    ensures Sum(lines, Most) <= 47 * |Join(lines)| && |lines| <= |Join(lines)|
  {
    var n := |lines| - 1;
    assert IsTextLine(lines[n]);
    if n == 0 {
      JoinOfOne(lines);
      assert Sum(lines[..0], Least) == 0 && Sum(lines[..0], Most) == 0;
    } else {
      assert AllTextLines(lines[..n]);
      JoinedLength(lines[..n]);
      JoinOfSnoc(lines[..n], lines[n]);
      assert lines == lines[..n] + [lines[n]];
    }
  }

  lemma WrapLengths(text: string)
    ensures |SafeText(text)| <= Sum(Wrap(text, WIDTH), Least)
    ensures Sum(Wrap(text, WIDTH), Most) <= 47 * (|text| + 1) && |Wrap(text, WIDTH)| <= |text| + 1
  {
    hide SafeText, Join;
    SafeTextShortens(text);
    WrapGivesCleanLines(text, WIDTH);
    WrapKeepsText(text, WIDTH);
    if SafeText(text) != "" {
      JoinedLength(Wrap(text, WIDTH));
    } else {
      assert Wrap(text, WIDTH) == [""];
      assert Sum([""][..0], Most) == 0;
    }
  }

  lemma {:induction false} WrapAllLengths(lines: seq<string>)
    ensures CleanSize(lines) <= Sum(WrapAll(lines), Least)
    ensures Sum(WrapAll(lines), Most) <= 47 * Size(lines) && |WrapAll(lines)| <= Size(lines)
  {
    hide Wrap, SafeText;
    if lines != [] {
      var n := |lines| - 1;
      WrapAllLengths(lines[..n]);
      WrapLengths(lines[n]);
      SumOfConcat(WrapAll(lines[..n]), Wrap(lines[n], WIDTH), Least);
      SumOfConcat(WrapAll(lines[..n]), Wrap(lines[n], WIDTH), Most);
    }
  }

  // ---------------------------------------------------------------- content streams

  lemma PrintLength(n: nat, w: nat)
    requires w > 0 && n < Decimal.Pow10(w)
    ensures |Decimal.Print(n)| <= w
  {
    Decimal.PrintFits(n, w);
  }

  lemma Thousand()
    ensures Decimal.Pow10(3) == 1000
  {
    assert Decimal.Pow10(1) == 10 && Decimal.Pow10(2) == 100;
  }

  lemma TenDigits()
    ensures Decimal.Pow10(10) == 10_000_000_000
  {
    Thousand();
    assert Decimal.Pow10(5) == 100 * Decimal.Pow10(3);
    assert Decimal.Pow10(7) == 100 * Decimal.Pow10(5);
    assert Decimal.Pow10(9) == 100 * Decimal.Pow10(7);
  }

  lemma CommandLength(show: Show)
    requires IsClean(show.text) && |show.size| <= 3 && -1000 < show.y < 1000
    ensures |show.text| + 1 <= |Command(show)| <= 2 * |show.text| + 45
  {
    hide Escape, IsClean;
    EscapeLength(show.text);
    Thousand();
    PrintLength(if show.y < 0 then -show.y else show.y, 3);
  }

  lemma {:induction false} PenStaysNear(w: Writer, firstPage: bool, page: seq<string>, k: nat)
    requires k <= |page|
    ensures 792 - 24 * k <= Walk(w, firstPage, page, k).1 <= 792
  {
    hide IsHeading;
    if k > 0 {
      PenStaysNear(w, firstPage, page, k - 1);
    }
  }

  lemma SumOfPrefix(page: seq<string>, k: nat, weight: string -> nat)
    requires 0 < k <= |page|
    ensures Sum(page[..k], weight) == Sum(page[..k - 1], weight) + weight(page[k - 1])
  {
    assert page[..k][..k - 1] == page[..k - 1];
  }

  /** What the k-th line adds to the commands drawn. */
  lemma StepLength(w: Writer, firstPage: bool, page: seq<string>, k: nat)
    requires 0 < k <= |page| <= PAGE && IsClean(page[k - 1])
    ensures var before, after := |Commands(Walk(w, firstPage, page, k - 1).0)|, |Commands(Walk(w, firstPage, page, k).0)|;
            before + Least(page[k - 1]) <= after <= before + Most(page[k - 1])
  {
    hide Command, IsHeading, IsClean;
    var line := page[k - 1];
    if line != "" {
      PenStaysNear(w, firstPage, page, k - 1);
      var (size, leading) := Style(w, firstPage, k - 1, line);
      var (shows, y) := Walk(w, firstPage, page, k - 1);
      CommandLength(Show(size, y, line));
      CommandsOfSnoc(shows, Show(size, y, line));
    }
  }

  lemma {:induction false} WalkLength(w: Writer, firstPage: bool, page: seq<string>, k: nat)
    requires k <= |page| <= PAGE && AllClean(page)
    ensures var drawn := |Commands(Walk(w, firstPage, page, k).0)|;
            Sum(page[..k], Least) <= drawn <= Sum(page[..k], Most)
  {
    if k > 0 {
      hide Walk, Commands, Sum, Least, Most;
      WalkLength(w, firstPage, page, k - 1);
      StepLength(w, firstPage, page, k);
      SumOfPrefix(page, k, Least);
      SumOfPrefix(page, k, Most);
    }
  }

  function Length(content: string): nat {
    |content|
  }

  function Total(contents: seq<string>): nat {
    Sum(contents, Length)
  }

  lemma {:induction false} ContentsLength(w: Writer, pages: seq<seq<string>>, n: nat)
    requires n <= |pages| && forall p :: 0 <= p < |pages| ==> AllClean(pages[p]) && |pages[p]| <= PAGE
    ensures Sum(Concat(pages[..n]), Least) <= Total(Contents(w, pages)[..n]) <= Sum(Concat(pages[..n]), Most)
  {
    hide PageShows, Commands, AllClean;
    if n > 0 {
      ContentsLength(w, pages, n - 1);
      var page := pages[n - 1];
      PageLength(w, n - 1 == 0, page);
      ConcatOfSnoc(pages[..n - 1], page);
      assert pages[..n] == pages[..n - 1] + [page];
      SumOfConcat(Concat(pages[..n - 1]), page, Least);
      SumOfConcat(Concat(pages[..n - 1]), page, Most);
      assert Contents(w, pages)[..n][..n - 1] == Contents(w, pages)[..n - 1];
    }
  }

  lemma PageLength(w: Writer, firstPage: bool, page: seq<string>)
    requires |page| <= PAGE && AllClean(page)
    ensures Sum(page, Least) <= |Commands(PageShows(w, firstPage, page))| <= Sum(page, Most)
  {
    WalkLength(w, firstPage, page, |page|);
    assert page[..|page|] == page;
  }

  // ---------------------------------------------------------------- the file

  /** The texts of page p's two objects, which follow one another in the file. */
  lemma {:induction false} PrefixOfPage(contents: seq<string>, p: nat)
    requires p < |contents|
    ensures var objects := Bodies(contents);
            |Prefix(objects, 5 + 2 * p)| == |Prefix(objects, 3 + 2 * p)|
              + |ObjectText(4 + 2 * p, StreamBody(contents[p]))| + |ObjectText(5 + 2 * p, PageBody(3, 4 + 2 * p))|
    ensures Offset(Bodies(contents), 5 + 2 * p) ==
            |Prefix(Bodies(contents), 3 + 2 * p)| + |ObjectText(4 + 2 * p, StreamBody(contents[p]))|
  {
    hide ObjectText, StreamBody, PageBody, Body;
    BodiesOfPage(contents, p);
    var objects := Bodies(contents);
    assert Prefix(objects, 5 + 2 * p) == Prefix(objects, 4 + 2 * p) + ObjectText(5 + 2 * p, objects[4 + 2 * p]);
    assert Prefix(objects, 4 + 2 * p) == Prefix(objects, 3 + 2 * p) + ObjectText(4 + 2 * p, objects[3 + 2 * p]);
  }

  lemma StreamLength(number: nat, content: string)
    ensures |content| <= |ObjectText(number, StreamBody(content))|
    ensures number < Decimal.Pow10(10) && |content| < Decimal.Pow10(10) ==>
              |ObjectText(number, StreamBody(content))| <= |content| + 70
  {
    if number < Decimal.Pow10(10) && |content| < Decimal.Pow10(10) {
      PrintLength(number, 10);
      PrintLength(|content|, 10);
    }
  }

  lemma PageObjectLength(number: nat)
    requires 0 < number < Decimal.Pow10(10)
    ensures |ObjectText(number, PageBody(3, number - 1))| <= 180
  {
    PrintLength(number, 10);
    PrintLength(number - 1, 10);
    Thousand();
    PrintLength(3, 3);
  }

  /** The streams of the first n pages stand before the table, and before the last page object. */
  lemma {:induction false} StreamsAreWritten(contents: seq<string>, n: nat)
    requires n <= |contents|
    ensures Total(contents[..n]) <= |Prefix(Bodies(contents), 3 + 2 * n)|
    ensures n > 0 ==> Total(contents[..n]) <= Offset(Bodies(contents), 3 + 2 * n)
  {
    hide Prefix, Offset, ObjectText, StreamBody, PageBody, Body;
    if n > 0 {
      StreamsAreWritten(contents, n - 1);
      PrefixOfPage(contents, n - 1);
      StreamLength(2 + 2 * n, contents[n - 1]);
      assert contents[..n][..n - 1] == contents[..n - 1];
    }
  }

  lemma {:induction false} JoinedReferences(refs: seq<string>)
    requires forall i :: 0 <= i < |refs| ==> |refs[i]| <= 14
    ensures |Join(refs)| <= 15 * |refs|
  {
    if |refs| > 1 {
      JoinedReferences(refs[1..]);
    }
  }

  lemma PagesBodyLength(n: nat)
    requires 5 + 2 * n < Decimal.Pow10(10)
    ensures |PagesBody(PageReferences(n))| <= 15 * n + 60
  {
    var refs := PageReferences(n);
    forall i | 0 <= i < n
      ensures |refs[i]| <= 14
    {
      PrintLength(5 + 2 * i, 10);
    }
    JoinedReferences(refs);
    PrintLength(n, 10);
  }

  lemma ShortObject(number: nat, body: string)
    requires number < 10
    ensures |ObjectText(number, body)| == |body| + 16
  {
    assert |Decimal.Print(number)| == 1;
  }

  lemma OpeningLength(contents: seq<string>)
    requires 5 + 2 * |contents| < Decimal.Pow10(10)
    ensures |Prefix(Bodies(contents), 3)| <= 15 * |contents| + 300
  {
    hide ObjectText, PagesBody;
    var objects := Bodies(contents);
    ShortObject(1, CATALOG);
    ShortObject(2, PagesBody(PageReferences(|contents|)));
    ShortObject(3, FONT);
    PagesBodyLength(|contents|);
    assert |CATALOG| <= 40 && |FONT| <= 80 && |HEADER| == 9;
    assert |Prefix(objects, 1)| == |HEADER| + |ObjectText(1, objects[0])|;
    assert |Prefix(objects, 2)| == |Prefix(objects, 1)| + |ObjectText(2, objects[1])|;
    assert |Prefix(objects, 3)| == |Prefix(objects, 2)| + |ObjectText(3, objects[2])|;
  }

  lemma {:induction false} PrefixLength(contents: seq<string>, n: nat)
    requires n <= |contents| && 5 + 2 * |contents| < Decimal.Pow10(10)
    requires forall p :: 0 <= p < |contents| ==> |contents[p]| < Decimal.Pow10(10)
    ensures |Prefix(Bodies(contents), 3 + 2 * n)| <= 15 * |contents| + 300 + 250 * n + Total(contents[..n])
  {
    hide Prefix, ObjectText, StreamBody, PageBody, Body, Decimal.Pow10;
    if n == 0 {
      OpeningLength(contents);
    } else {
      PrefixLength(contents, n - 1);
      PrefixOfPage(contents, n - 1);
      StreamLength(2 + 2 * n, contents[n - 1]);
      PageObjectLength(3 + 2 * n);
      assert contents[..n][..n - 1] == contents[..n - 1];
    }
  }

  lemma {:induction false} PartOfTotal(contents: seq<string>, p: nat)
    requires p < |contents|
    ensures |contents[p]| <= Total(contents)
  {
    var n := |contents| - 1;
    if p < n {
      PartOfTotal(contents[..n], p);
    }
  }

  lemma {:induction false} PageCountBound(lines: seq<string>)
    ensures |Pages(lines)| <= |lines|
  {
    if |lines| > PAGE {
      PageCountBound(lines[PAGE..]);
    }
  }

  lemma {:induction false} PagesAreShort(lines: seq<string>)
    ensures forall p :: 0 <= p < |Pages(lines)| ==> |Pages(lines)[p]| <= PAGE
  {
    if |lines| > PAGE {
      PagesAreShort(lines[PAGE..]);
    }
  }

  /** What a writer's content streams amount to, and how many there are. */
  lemma StreamTotals(w: Writer, lines: seq<string>)
    ensures var source, contents := SourceLines(w, lines), Contents(w, PagesOf(w, lines));
            && CleanSize(source) <= Total(contents) <= 47 * Size(source)
            && |contents| <= Size(source)
  {
    hide Wrap, WrapAll, Pages, SourceLines, Contents, AllClean;
    var source := SourceLines(w, lines);
    var printable := WrapAll(source);
    var pages := Pages(printable);
    WrapAllLengths(source);
    WrapAllIsClean(source);
    PagesAreClean(printable);
    PagesAreShort(printable);
    PagesArePaging(printable);
    PageCountBound(printable);
    ContentsLength(w, pages, |pages|);
    assert pages[..|pages|] == pages;
    assert Contents(w, pages)[..|pages|] == Contents(w, pages);
  }

  lemma DefaultSize(w: Writer, lines: seq<string>)
    ensures Size(SourceLines(w, lines)) <= Size(lines) + 27
  {
    if SourceLines(w, lines) != lines {
      SizeOfOne("AviaSurveil360 Demo Report");
      assert |"AviaSurveil360 Demo Report"| == 26;
    }
  }

  lemma SizeOfOne(line: string)
    ensures Size([line]) == |line| + 1
  {
    assert [line][..|[line]| - 1] == [];
    assert Sum([line], Whole) == Sum([], Whole) + Whole(line);
  }

  /** What a caller can check beforehand: up to thirty million lines and characters together always fit the table. */
  lemma ShortLinesFit(w: Writer, lines: seq<string>)
    requires Size(lines) <= 30_000_000
    ensures TableFits(Bodies(Contents(w, PagesOf(w, lines))))
  {
    hide Contents, PagesOf, Bodies, Prefix, Offset, Size, SourceLines;
    var contents := Contents(w, PagesOf(w, lines));
    DefaultSize(w, lines);
    StreamTotals(w, lines);
    TenDigits();
    forall p | 0 <= p < |contents|
      ensures |contents[p]| < Decimal.Pow10(10)
    {
      PartOfTotal(contents, p);
    }
    PrefixLength(contents, |contents|);
    assert contents[..|contents|] == contents;
    OffsetWithin(Bodies(contents));
  }

  lemma OffsetWithin(objects: seq<string>)
    ensures objects != [] ==> Offset(objects, |objects|) <= |Prefix(objects, |objects|)|
  {
  }

  /** So documents of that size read back, page by page. */
  lemma ShortDocumentReadsBack(w: Writer, lines: seq<string>)
    requires Size(lines) <= 30_000_000
    ensures ReadDocument(Document(w, lines)) == Some(Seen(Layout(w, PagesOf(w, lines))))
  {
    hide ReadDocument, Document, Seen, Layout, PagesOf, TableFits, Size;
    ShortLinesFit(w, lines);
    ReadBack(w, lines);
  }

  /** Ten thousand million cleaned characters or more, on however few lines, cannot be read back. */
  lemma LongDocumentIsUnreadable(w: Writer, lines: seq<string>)
    requires CleanSize(lines) >= Decimal.Pow10(10)
    ensures ReadXref(Document(w, lines)) == None
  {
    hide Contents, Pages, WrapAll, Bodies, Prefix, Offset, File, ReadXref;
    var contents := Contents(w, PagesOf(w, lines));
    TenDigits();
    assert lines != [];
    StreamTotals(w, lines);
    StreamsAreWritten(contents, |contents|);
    assert contents[..|contents|] == contents;
    TooLargeToRead(Bodies(contents));
  }
}
