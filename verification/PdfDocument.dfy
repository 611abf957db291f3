// The two PDF writers: page layout, object numbering, stream lengths and the
// byte-offset cross-reference table, as they are assembled string by string.
module PdfDocument {
  import Decimal
  import opened PdfText
  import opened PdfLayout

  // ---------------------------------------------------------------- layout

  /** One text-showing command of a content stream. */
  datatype Show = Show(size: string, y: int, text: string)

  /** The shared writer (manager-workspaces.js) and the Final Report writer (app.js). */
  datatype Writer = Shared | FinalReport

  /** /^\d+\./ */
  predicate IsNumbered(line: string) {
    var k := Decimal.DigitRun(line);
    0 < k < |line| && line[k] == '.'
  }

  predicate IsHeading(line: string) {
    IsNumbered(line) || line == "Final Report" || line == "Report Signatures"
  }

  /** Font size and leading of the line at `index` of a page. */
  function Style(w: Writer, firstPage: bool, index: nat, line: string): (string, nat) {
    if firstPage && index == 0 then ("18", 24)
    else if w == Shared then ("10", 14)
    else if IsHeading(line) then ("13", 20)
    else ("9.5", 14)
  }

  /** Commands drawn, and the pen height left, after the first k lines of a page. */
  function Walk(w: Writer, firstPage: bool, page: seq<string>, k: nat): (seq<Show>, int)
    requires k <= |page|
  {
    if k == 0 then ([], 792)
    else
      var (shows, y) := Walk(w, firstPage, page, k - 1);
      var line := page[k - 1];
      if line == "" then (shows, y - 8)
      else
        var (size, leading) := Style(w, firstPage, k - 1, line);
        (shows + [Show(size, y, line)], y - leading)
  }

  function PageShows(w: Writer, firstPage: bool, page: seq<string>): seq<Show> {
    Walk(w, firstPage, page, |page|).0
  }

  function Command(show: Show): string {
    "BT /F1 " + show.size + " Tf 54 " + Decimal.PrintInt(show.y) + " Td (" + Escape(show.text) + ") Tj ET\n"
  }

  function Commands(shows: seq<Show>): string {
    if shows == [] then "" else Commands(shows[..|shows| - 1]) + Command(shows[|shows| - 1])
  }

  lemma CommandsOfSnoc(shows: seq<Show>, show: Show)
    ensures Commands(shows + [show]) == Commands(shows) + Command(show)
  {
    assert (shows + [show])[..|shows|] == shows;
  }

  /** The content streams of a page list. */
  function Contents(w: Writer, pages: seq<seq<string>>): (contents: seq<string>)
    ensures |contents| == |pages|
  {
    seq(|pages|, i requires 0 <= i < |pages| => Commands(PageShows(w, i == 0, pages[i])))
  }

  /** Layout of one page, line by line with a falling pen, as both writers run it. */
  method LayOutPage(w: Writer, firstPage: bool, page: seq<string>) returns (content: string)
    ensures content == Commands(PageShows(w, firstPage, page))
  {
    hide Command;
    var y := 792;
    content := "";
    for k := 0 to |page|
      invariant content == Commands(Walk(w, firstPage, page, k).0)
      invariant y == Walk(w, firstPage, page, k).1
    {
      var line := page[k];
      if line == "" {
        y := y - 8;
      } else {
        var (size, leading) := Style(w, firstPage, k, line);
        CommandsOfSnoc(Walk(w, firstPage, page, k).0, Show(size, y, line));
        content := content + Command(Show(size, y, line));
        y := y - leading;
      }
    }
  }

  // ---------------------------------------------------------------- objects

  // The bodies are written entry by entry, to keep the dictionary structure visible.

  const CATALOG := "<< " + "/Type /Catalog " + "/Pages 2 0 R " + ">>"
  const FONT := "<< " + "/Type /Font " + "/Subtype /Type1 " + "/BaseFont /Helvetica " + ">>"

  function StreamBody(content: string): string {
    "<< " + ("/Length " + Decimal.Print(|content|) + " ") + ">>" + "\nstream\n" + content + "endstream"
  }

  function PageBody(font: nat, content: nat): string {
    "<< " + "/Type /Page " + "/Parent 2 0 R " + "/MediaBox [0 0 612 842] "
    + ("/Resources << /Font << /F1 " + (Decimal.Print(font) + " 0 R") + " >> >> ")
    + ("/Contents " + (Decimal.Print(content) + " 0 R") + " ") + ">>"
  }

  function PagesBody(references: seq<string>): string {
    "<< " + "/Type /Pages " + ("/Kids [" + Join(references) + "] ") + ("/Count " + Decimal.Print(|references|) + " ") + ">>"
  }

  /** Page p's content stream is object 4 + 2p and its page object 5 + 2p. */
  function PageReferences(n: nat): (refs: seq<string>)
    ensures |refs| == n
  {
    seq(n, p requires 0 <= p < n => Decimal.Print(5 + 2 * p) + " 0 R")
  }

  /** The body of the object at position i, which carries the number i + 1. */
  function Body(contents: seq<string>, i: nat): string
    requires i < 3 + 2 * |contents|
  {
    if i == 0 then CATALOG
    else if i == 1 then PagesBody(PageReferences(|contents|))
    else if i == 2 then FONT
    else if i % 2 == 1 then StreamBody(contents[(i - 3) / 2])
    else PageBody(3, i)
  }

  function Bodies(contents: seq<string>): (objects: seq<string>)
    ensures |objects| == 3 + 2 * |contents|
  {
    seq(3 + 2 * |contents|, i requires 0 <= i < 3 + 2 * |contents| => Body(contents, i))
  }

  lemma BodiesOfPage(contents: seq<string>, p: nat)
    requires p < |contents|
    ensures Body(contents, 3 + 2 * p) == StreamBody(contents[p])
    ensures Body(contents, 4 + 2 * p) == PageBody(3, 4 + 2 * p)
  {
    hide StreamBody, PageBody, PagesBody, PageReferences;
    assert (3 + 2 * p) % 2 == 1 && (4 + 2 * p) % 2 == 0;
    assert (3 + 2 * p - 3) / 2 == p;
  }

  /** Pushes the objects page by page; the page tree, object 2, is filled in last. */
  method PushObjects(contents: seq<string>) returns (objects: seq<string>)
    ensures objects == Bodies(contents)
  {
    hide StreamBody, PageBody, PagesBody;
    objects := [CATALOG, ""];
    objects := objects + [FONT];
    var fontObject := |objects|;
    var references: seq<string> := [];
    for p := 0 to |contents|
      invariant |objects| == 3 + 2 * p
      invariant objects[0] == CATALOG && objects[2] == FONT
      invariant forall i :: 3 <= i < |objects| ==> objects[i] == Body(contents, i)
      invariant references == PageReferences(p)
    {
      BodiesOfPage(contents, p);
      objects := objects + [StreamBody(contents[p])];
      var contentObject := |objects|;
      objects := objects + [PageBody(fontObject, contentObject)];
      var pageObject := |objects|;
      references := references + [Decimal.Print(pageObject) + " 0 R"];
    }
    objects := objects[1 := PagesBody(references)];
  }

  // ---------------------------------------------------------------- file

  const HEADER := "%PDF-1.4\n"
  const FREE := "0000000000 65535 f \n"

  function ObjectText(number: nat, body: string): string {
    Decimal.Print(number) + " 0 obj\n" + body + "\nendobj\n"
  }

  /** The file up to and including the first k objects. */
  function Prefix(objects: seq<string>, k: nat): string
    requires k <= |objects|
  {
    if k == 0 then HEADER else Prefix(objects, k - 1) + ObjectText(k, objects[k - 1])
  }

  /** The byte offset of object i. */
  function Offset(objects: seq<string>, i: nat): nat
    requires 1 <= i <= |objects|
  {
    |Prefix(objects, i - 1)|
  }

  function TableEntry(offset: nat): string {
    Decimal.PadStart(Decimal.Print(offset), 10) + " 00000 n \n"
  }

  function Table(objects: seq<string>, k: nat): string
    requires k <= |objects|
  {
    if k == 0 then "" else Table(objects, k - 1) + TableEntry(Offset(objects, k))
  }

  function Trailer(objects: seq<string>): string {
    "trailer\n" + ("<< " + ("/Size " + Decimal.Print(|objects| + 1) + " ") + "/Root 1 0 R " + ">>") + "\nstartxref\n"
    + Decimal.Print(|Prefix(objects, |objects|)|) + "\n%%EOF"
  }

  function File(objects: seq<string>): string {
    Prefix(objects, |objects|)
    + ("xref\n0 " + Decimal.Print(|objects| + 1) + "\n" + FREE)
    + Table(objects, |objects|)
    + Trailer(objects)
  }

  /** Concatenates the objects, recording each offset, then the table and the trailer. */
  method Serialize(objects: seq<string>) returns (pdf: string)
    ensures pdf == File(objects)
  {
    hide ObjectText, TableEntry;
    pdf := HEADER;
    var offsets := [0];
    for index := 0 to |objects|
      invariant pdf == Prefix(objects, index)
      invariant |offsets| == index + 1
      invariant forall i :: 1 <= i <= index ==> offsets[i] == Offset(objects, i)
    {
      offsets := offsets + [|pdf|];
      pdf := pdf + ObjectText(index + 1, objects[index]);
    }
    var xref := |pdf|;
    pdf := pdf + ("xref\n0 " + Decimal.Print(|objects| + 1) + "\n" + FREE);
    ghost var start := pdf;
    for i := 1 to |objects| + 1
      invariant pdf == start + Table(objects, i - 1)
    {
      pdf := pdf + TableEntry(offsets[i]);
    }
    pdf := pdf + ("trailer\n" + ("<< " + ("/Size " + Decimal.Print(|objects| + 1) + " ") + "/Root 1 0 R " + ">>") + "\nstartxref\n"
    + Decimal.Print(xref) + "\n%%EOF");
  }

  /** The lines a writer prints: the shared one has a default for an empty list. */
  function SourceLines(w: Writer, lines: seq<string>): seq<string> {
    if w == Shared && lines == [] then ["AviaSurveil360 Demo Report"] else lines
  }

  function Document(w: Writer, lines: seq<string>): string {
    File(Bodies(Contents(w, Pages(WrapAll(SourceLines(w, lines))))))
  }

  method ContentStreams(w: Writer, pages: seq<seq<string>>) returns (contents: seq<string>)
    ensures contents == Contents(w, pages)
  {
    hide PageShows, Commands;
    contents := [];
    for p := 0 to |pages|
      invariant contents == Contents(w, pages)[..p]
    {
      var content := LayOutPage(w, p == 0, pages[p]);
      contents := contents + [content];
    }
  }

  /** buildAviaPdfDocument */
  method BuildAviaPdf(lines: seq<string>) returns (pdf: string)
    ensures pdf == Document(Shared, lines)
  {
    var source := if lines != [] then lines else ["AviaSurveil360 Demo Report"];
    var printable := [];
    for i := 0 to |source|
      invariant printable == WrapAll(source[..i])
    {
      assert source[..i + 1][..i] == source[..i];
      printable := printable + Wrap(source[i], 96);
    }
    assert source[..|source|] == source;
    var pages := PaginateBySplice(printable);
    var contents := ContentStreams(Shared, pages);
    var objects := PushObjects(contents);
    pdf := Serialize(objects);
  }

  /** buildFinalReportPdfDocument */
  method BuildFinalReportPdf(lines: seq<string>) returns (pdf: string)
    ensures pdf == Document(FinalReport, lines)
  {
    var printable := [];
    for i := 0 to |lines|
      invariant printable == WrapAll(lines[..i])
    {
      assert lines[..i + 1][..i] == lines[..i];
      var wrapped := WrapByLoop(lines[i], 96);
      printable := printable + wrapped;
    }
    assert lines[..|lines|] == lines;
    var pages := PaginateByCounting(printable);
    var contents := ContentStreams(FinalReport, pages);
    var objects := PushObjects(contents);
    pdf := Serialize(objects);
  }

  // ---------------------------------------------------------------- pen heights

  lemma {:induction false} PenBound(firstPage: bool, page: seq<string>, k: nat)
    requires k <= |page|
    ensures var (shows, y) := Walk(Shared, firstPage, page, k);
            && 792 - 14 * k - 10 <= y <= 792 - 8 * k
            && (k == 0 ==> y == 792)
            && (forall i :: 0 <= i < |shows| ==> 792 - 14 * (k - 1) - 10 <= shows[i].y <= 792 && y < shows[i].y)
            && (forall i, j :: 0 <= i < j < |shows| ==> shows[i].y > shows[j].y)
  {
    if k > 0 {
      PenBound(firstPage, page, k - 1);
    }
  }

  /** In the shared writer the pen falls strictly and stays on the sheet. */
  lemma DrawnOnTheSheet(firstPage: bool, page: seq<string>)
    requires |page| <= PAGE
    ensures var shows := PageShows(Shared, firstPage, page);
            && (forall i :: 0 <= i < |shows| ==> 194 <= shows[i].y <= 792)
            && (forall i, j :: 0 <= i < j < |shows| ==> shows[i].y > shows[j].y)
  {
    PenBound(firstPage, page, |page|);
  }
}
