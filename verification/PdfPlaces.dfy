// Where both writers put every line, in which size, told from the page alone:
// down from 792 by what each earlier line of the page takes.
module PdfPlaces {
  import opened Wrappers
  import Decimal
  import opened PdfText
  import opened PdfLayout
  import opened PdfDocument
  import opened PdfContent
  import opened PdfReader
  import opened PdfRoundTrip

  // ---------------------------------------------------------------- what a line takes

  /** A numbered heading, "12.", or one of the two unnumbered ones. */
  predicate StartsSection(line: string) {
    || (exists k :: 1 <= k < |line| && Decimal.AllDigits(line[..k]) && line[k] == '.')
    || line == "Final Report" || line == "Report Signatures"
  }

  predicate IsTitle(page: nat, index: nat) {
    page == 0 && index == 0
  }

  /** How far the pen falls over a line: 8 for a blank one, 24 for the title, 20 for a Final Report heading, else 14. */
  function Takes(w: Writer, page: nat, index: nat, line: string): nat {
    if line == "" then 8
    else if IsTitle(page, index) then 24
    else if w == FinalReport && StartsSection(line) then 20
    else 14
  }

  function TakenBefore(w: Writer, page: nat, lines: seq<string>, index: nat): nat
    requires index <= |lines|
  {
    if index == 0 then 0 else TakenBefore(w, page, lines, index - 1) + Takes(w, page, index - 1, lines[index - 1])
  }

  function FontSize(w: Writer, page: nat, index: nat, line: string): string {
    if IsTitle(page, index) then "18"
    else if w == Shared then "10"
    else if StartsSection(line) then "13"
    else "9.5"
  }

  /** The piece of text a non-blank line appears as. */
  function Placed(w: Writer, page: nat, lines: seq<string>, index: nat): Drawn
    requires index < |lines|
  {
    Drawn("F1", FontSize(w, page, index, lines[index]), 54, 792 - TakenBefore(w, page, lines, index), lines[index])
  }

  /** Everything the first k lines of a page appear as. */
  function AllPlaced(w: Writer, page: nat, lines: seq<string>, k: nat): seq<Drawn>
    requires k <= |lines|
  {
    if k == 0 then []
    else AllPlaced(w, page, lines, k - 1) + (if lines[k - 1] == "" then [] else [Placed(w, page, lines, k - 1)])
  }

  // ---------------------------------------------------------------- the writers do that

  lemma NumberedStartsSection(line: string)
    ensures IsHeading(line) <==> StartsSection(line)
  {
    var k := Decimal.DigitRun(line);
    if j :| 1 <= j < |line| && Decimal.AllDigits(line[..j]) && line[j] == '.' {
      if j < k {
        assert line[..k][j] == line[j];
      } else if k < j {
        assert line[..j][k] == line[k];
      }
    }
  }

  lemma {:induction false} WalkIsPlaced(w: Writer, page: nat, lines: seq<string>, k: nat)
    requires k <= |lines|
    ensures AllDrawn(Walk(w, page == 0, lines, k).0) == AllPlaced(w, page, lines, k)
    ensures Walk(w, page == 0, lines, k).1 == 792 - TakenBefore(w, page, lines, k)
  {
    hide StartsSection, IsHeading;
    if k > 0 {
      WalkIsPlaced(w, page, lines, k - 1);
      NumberedStartsSection(lines[k - 1]);
      var before, after := Walk(w, page == 0, lines, k - 1).0, Walk(w, page == 0, lines, k).0;
      assert lines[k - 1] != "" ==> AllDrawn(after) == AllDrawn(before) + [AsDrawn(after[|before|])];
    }
  }

  /** What a viewer sees of a page list. */
  function PlacedPages(w: Writer, pages: seq<seq<string>>): (drawings: seq<seq<Drawn>>)
    ensures |drawings| == |pages|
  {
    seq(|pages|, p requires 0 <= p < |pages| => AllPlaced(w, p, pages[p], |pages[p]|))
  }

  /**
   * Both writers, all lines within the offset limit: a reader of the file sees on
   * every page exactly its non-blank lines, each in its size and at its place.
   */
  lemma ReadBackPlaces(w: Writer, lines: seq<string>)
    requires TableFits(Bodies(Contents(w, PagesOf(w, lines))))
    ensures ReadDocument(Document(w, lines)) == Some(PlacedPages(w, Pages(WrapAll(SourceLines(w, lines)))))
  {
    hide ReadDocument, Document, Pages, WrapAll, TableFits, Bodies, Walk, AllPlaced, AllDrawn;
    ReadBack(w, lines);
    var pages := PagesOf(w, lines);
    forall p | 0 <= p < |pages|
      ensures Seen(Layout(w, pages))[p] == PlacedPages(w, pages)[p]
    {
      WalkIsPlaced(w, p, pages[p], |pages[p]|);
    }
    assert Seen(Layout(w, pages)) == PlacedPages(w, pages);
  }

  // ---------------------------------------------------------------- no line over another

  /** The pen before line k of a page. */
  function PenAt(w: Writer, page: nat, lines: seq<string>, k: nat): int
    requires k <= |lines|
  {
    792 - TakenBefore(w, page, lines, k)
  }

  lemma PenFalls(w: Writer, page: nat, lines: seq<string>, k: nat)
    requires 0 < k <= |lines|
    ensures PenAt(w, page, lines, k) <= PenAt(w, page, lines, k - 1) - (if lines[k - 1] == "" then 8 else 14)
    ensures lines[k - 1] != "" ==> Placed(w, page, lines, k - 1).y == PenAt(w, page, lines, k - 1)
  {
  }

  /** Every line of the first k is above what the next one will be. */
  lemma {:induction false} PlacedAbove(w: Writer, page: nat, lines: seq<string>, k: nat)
    requires k <= |lines|
    ensures forall i :: 0 <= i < |AllPlaced(w, page, lines, k)| ==> AllPlaced(w, page, lines, k)[i].y >= PenAt(w, page, lines, k) + 14
    ensures forall i, j :: 0 <= i < j < |AllPlaced(w, page, lines, k)| ==>
              AllPlaced(w, page, lines, k)[i].y >= AllPlaced(w, page, lines, k)[j].y + 14
  {
    hide PenAt, Placed;
    if k > 0 {
      PlacedAbove(w, page, lines, k - 1);
      PenFalls(w, page, lines, k);
    }
  }

  /** In both writers each drawn line stands at least 14 below the one before it, so none is printed over another. */
  lemma LinesAreApart(w: Writer, page: nat, lines: seq<string>, i: nat, j: nat)
    requires i < j < |AllPlaced(w, page, lines, |lines|)|
    ensures AllPlaced(w, page, lines, |lines|)[j].y + 14 <= AllPlaced(w, page, lines, |lines|)[i].y
  {
    PlacedAbove(w, page, lines, |lines|);
  }
}
