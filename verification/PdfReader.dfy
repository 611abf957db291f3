// A reader for the files the PDF writers emit, following ISO 32000-1: startxref
// (7.5.5), the cross-reference table (7.5.4), indirect objects (7.3.10), streams
// by /Length (7.3.8), the page tree (7.7.3) and the fonts of its resources. It is
// written without reference to the writers' object numbers or texts.
module PdfReader {
  import opened Wrappers
  import Decimal
  import opened PdfText
  import opened PdfSyntax
  import opened PdfContent

  // ---------------------------------------------------------------- file structure

  datatype Xref = Xref(offsets: seq<nat>, trailer: Value)

  /** Drops p from the end of s, if it is there. */
  function StripEnd(s: string, p: string): Option<string> {
    if |p| <= |s| && s[|s| - |p|..] == p then Some(s[..|s| - |p|]) else None
  }

  /** Start of the longest suffix of digits. */
  function LastDigits(s: string): (k: nat)
    ensures k <= |s| && Decimal.AllDigits(s[k..])
  {
    if s == [] || !Decimal.IsDigit(s[|s| - 1]) then |s|
    else
      var k := LastDigits(s[..|s| - 1]);
      assert s[k..] == s[..|s| - 1][k..] + [s[|s| - 1]];
      k
  }

  function StartXref(pdf: string): Option<nat> {
    var a :- StripEnd(pdf, "\n%%EOF");
    var k := LastDigits(a);
    var _ :- StripEnd(a[..k], "startxref\n");
    if k == |a| then None else Some(Decimal.Value(a[k..]))
  }

  /** The i-th stretch of twenty bytes. */
  function EntryAt(s: string, i: nat): (e: string)
    requires 20 * i + 20 <= |s|
    ensures |e| == 20
  {
    s[20 * i..20 * i + 20]
  }

  /** Ten digits, then the generation, the kind and a two-byte line end. */
  predicate IsEntry(e: string)
    requires |e| == 20
  {
    Decimal.AllDigits(e[..10]) && (e[10..] == " 00000 n \n" || e[10..] == " 65535 f \n")
  }

  function ReadTable(s: string, n: nat): Option<(seq<nat>, string)> {
    if |s| < 20 * n || exists i :: 0 <= i < n && !IsEntry(EntryAt(s, i)) then None
    else
      Some((seq(n, i requires 0 <= i < n => assert IsEntry(EntryAt(s, i)); Decimal.Value(EntryAt(s, i)[..10])),
            s[20 * n..]))
  }

  function ReadXref(pdf: string): Option<Xref> {
    var _ :- Expect(pdf, "%PDF-1.4\n");
    var start :- StartXref(pdf);
    if start > |pdf| then None
    else
      var a :- Expect(pdf[start..], "xref\n0 ");
      var (n, b) :- Decimal.ReadNat(a);
      var c :- Expect(b, "\n");
      var (offsets, d) :- ReadTable(c, n);
      var e :- Expect(d, "trailer\n");
      var (trailer, _) :- Read(e);
      if Get(trailer, "Size") == Some(Num(n)) then Some(Xref(offsets, trailer)) else None
  }

  /** Seeks to the object's offset: its value and the text after it. */
  function ReadObject(pdf: string, x: Xref, number: nat): Option<(Value, string)> {
    if number >= |x.offsets| || x.offsets[number] > |pdf| then None
    else
      var (n, a) :- Decimal.ReadNat(pdf[x.offsets[number]..]);
      var b :- Expect(a, " 0 obj\n");
      var (v, c) :- Read(b);
      var rest :- Expect(c, "\n");
      if n == number then Some((v, rest)) else None
  }

  function ReadDictionary(pdf: string, x: Xref, number: nat, kind: string): Option<Value> {
    var (v, rest) :- ReadObject(pdf, x, number);
    if "endobj\n" <= rest && Get(v, "Type") == Some(Name(kind)) then Some(v) else None
  }

  function ReadStream(pdf: string, x: Xref, number: nat): Option<string> {
    var (v, rest) :- ReadObject(pdf, x, number);
    var data :- Expect(rest, "stream\n");
    match Get(v, "Length")
    case Some(Num(k)) =>
      if k <= |data| && "endstream\nendobj\n" <= data[k..] then Some(data[..k]) else None
    case _ => None
  }

  /** A reference stored under `key`, followed only as far as its object number. */
  function GetRef(v: Value, key: string): Option<nat> {
    match Get(v, key)
    case Some(Ref(obj)) => Some(obj)
    case _ => None
  }

  /** A font as content may call it, and the standard Type 1 font behind the name. */
  datatype Font = Font(name: string, base: string)

  /** A page: its sheet, the fonts its content may use, and its content stream. */
  datatype Page = Page(sheet: seq<Value>, fonts: seq<Font>, content: string)

  /** The standard font an object names. */
  function ReadBaseFont(pdf: string, x: Xref, number: nat): Option<string> {
    var font :- ReadDictionary(pdf, x, number, "Font");
    match Get(font, "BaseFont")
    case Some(Name(base)) => if Get(font, "Subtype") == Some(Name("Type1")) then Some(base) else None
    case _ => None
  }

  /** The names in a font dictionary, each of which leads to a font object. */
  function ReadFonts(pdf: string, x: Xref, entries: seq<Entry>): Option<seq<Font>> {
    if entries == [] then Some([])
    else if !entries[0].value.Ref? then None
    else
      var base :- ReadBaseFont(pdf, x, entries[0].value.obj);
      var more :- ReadFonts(pdf, x, entries[1..]);
      Some([Font(entries[0].key, base)] + more)
  }

  /** The four corners of a page's sheet. */
  function ReadSheet(page: Value): Option<seq<Value>> {
    match Get(page, "MediaBox")
    case Some(Arr(sheet)) => if |sheet| == 4 then Some(sheet) else None
    case _ => None
  }

  function ReadPage(pdf: string, x: Xref, parent: nat, kid: Value): Option<Page> {
    if !kid.Ref? then None
    else
      var page :- ReadDictionary(pdf, x, kid.obj, "Page");
      var resources :- Get(page, "Resources");
      var fonts :- Get(resources, "Font");
      if !fonts.Dict? || Get(page, "Parent") != Some(Ref(parent)) then None
      else
        var sheet :- ReadSheet(page);
        var names :- ReadFonts(pdf, x, fonts.entries);
        var contents :- GetRef(page, "Contents");
        var content :- ReadStream(pdf, x, contents);
        Some(Page(sheet, names, content))
  }

  function ReadKids(pdf: string, x: Xref, parent: nat, kids: seq<Value>): Option<seq<Page>> {
    if kids == [] then Some([])
    else
      var page :- ReadPage(pdf, x, parent, kids[0]);
      var pages :- ReadKids(pdf, x, parent, kids[1..]);
      Some([page] + pages)
  }

  /** Catalog, page tree, pages with their fonts and content streams. */
  function ReadPages(pdf: string): Option<seq<Page>> {
    var x :- ReadXref(pdf);
    var root :- GetRef(x.trailer, "Root");
    var catalog :- ReadDictionary(pdf, x, root, "Catalog");
    var tree :- GetRef(catalog, "Pages");
    var pages :- ReadDictionary(pdf, x, tree, "Pages");
    match Get(pages, "Kids")
    case Some(Arr(kids)) =>
      if Get(pages, "Count") == Some(Num(|kids|)) then ReadKids(pdf, x, tree, kids) else None
    case _ => None
  }

  /** What a page draws; every font it selects must be among its resources. */
  function ReadDrawing(page: Page): Option<seq<Drawn>> {
    var drawing :- ReadContent(page.content);
    if forall i :: 0 <= i < |drawing| ==> exists k :: 0 <= k < |page.fonts| && page.fonts[k].name == drawing[i].font then Some(drawing)
    else None
  }

  function ReadDrawings(pages: seq<Page>): Option<seq<seq<Drawn>>> {
    if pages == [] then Some([])
    else
      var drawing :- ReadDrawing(pages[0]);
      var more :- ReadDrawings(pages[1..]);
      Some([drawing] + more)
  }

  /** What a viewer shows: for every page, the pieces of text it draws, in order. */
  function ReadDocument(pdf: string): Option<seq<seq<Drawn>>> {
    var pages :- ReadPages(pdf);
    ReadDrawings(pages)
  }
}
