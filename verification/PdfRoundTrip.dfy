// The reader undoes the writers: content streams, object offsets, the
// cross-reference table, the page tree and the drawn text.
module PdfRoundTrip {
  import opened Wrappers
  import Decimal
  import opened PdfText
  import opened PdfLayout
  import opened PdfSyntax
  import opened PdfContent
  import opened PdfDocument
  import opened PdfReader

  // ---------------------------------------------------------------- content streams

  /** What a command draws, as a viewer sees it. */
  function AsDrawn(show: Show): Drawn {
    Drawn("F1", show.size, 54, show.y, show.text)
  }

  function AllDrawn(shows: seq<Show>): (drawing: seq<Drawn>)
    ensures |drawing| == |shows|
  {
    seq(|shows|, i requires 0 <= i < |shows| => AsDrawn(shows[i]))
  }

  predicate IsDrawable(show: Show) {
    IsNameText(show.size) && IsNumberChar(show.size[0]) && IsClean(show.text)
  }

  function CommandTokens(show: Show): seq<Token> {
    [Operator("BT"), NameToken("F1"), NumberToken(show.size), Operator("Tf"),
     NumberToken("54"), NumberToken(Decimal.PrintInt(show.y)), Operator("Td"),
     TextToken(SafeText(show.text)), Operator("Tj"), Operator("ET")]
  }

  lemma ShapeOfCommand(show: Show, rest: string)
    ensures Command(show) + rest ==
            "BT" + (" " + ("/" + "F1" + (" " + (show.size + (" " + ("Tf" + (" " + ("54" + (" "
            + (Decimal.PrintInt(show.y) + (" " + ("Td" + (" " + ("(" + Escape(show.text) + ")" + (" " + ("Tj" + (" " + ("ET" + ("\n" + rest)))))))))))))))))))
  {
    hide Escape, Decimal.PrintInt;
    var text, y := Escape(show.text), Decimal.PrintInt(show.y);
    var s3 := ") Tj ET\n" + rest;
    var s2 := " Td (" + (text + s3);
    var s1 := " Tf 54 " + (y + s2);
    Regroup7("BT /F1 ", show.size, " Tf 54 ", y, " Td (", text, ") Tj ET\n", rest);
    FontShape(show.size + s1);
    PlaceShape(y + s2);
    TextShape(text, rest);
  }

  lemma Regroup7(a: string, b: string, c: string, d: string, e: string, f: string, g: string, rest: string)
    ensures a + b + c + d + e + f + g + rest == a + (b + (c + (d + (e + (f + (g + rest))))))
  {
  }

  lemma FontShape(rest: string)
    ensures "BT /F1 " + rest == "BT" + (" " + ("/" + "F1" + (" " + rest)))
  {
  }

  lemma PlaceShape(rest: string)
    ensures " Tf 54 " + rest == " " + ("Tf" + (" " + ("54" + (" " + rest))))
  {
  }

  lemma TextShape(text: string, rest: string)
    ensures " Td (" + (text + (") Tj ET\n" + rest)) ==
            " " + ("Td" + (" " + ("(" + text + ")" + (" " + ("Tj" + (" " + ("ET" + ("\n" + rest))))))))
  {
    assert " Td (" == " " + ("Td" + (" " + "("));
    assert ") Tj ET\n" == ")" + (" " + ("Tj" + (" " + ("ET" + "\n"))));
  }

  /** The tokens of a command, then those of what follows it. */
  lemma LexCommand(show: Show, rest: string, tokens: seq<Token>)
    requires IsDrawable(show) && Lexes(rest, tokens)
    ensures Lexes(Command(show) + rest, CommandTokens(show) + tokens)
  {
    hide Lexes, Command, Escape, SafeText, Decimal.PrintInt;
    OperatorNames();
    PrintedIsNumber(show.y);
    var y, text := Decimal.PrintInt(show.y), SafeText(show.text);
    var t9 := [Operator("ET")] + tokens;
    var t8 := [Operator("Tj")] + t9;
    var t7 := [TextToken(text)] + t8;
    var t6 := [Operator("Td")] + t7;
    var t5 := [NumberToken(y)] + t6;
    var t4 := [NumberToken("54")] + t5;
    var t3 := [Operator("Tf")] + t4;
    var t2 := [NumberToken(show.size)] + t3;
    var t1 := [NameToken("F1")] + t2;
    var s9 := "\n" + rest;
    var s8 := " " + ("ET" + s9);
    var s7 := " " + ("Tj" + s8);
    var s6 := " " + ("(" + Escape(show.text) + ")" + s7);
    var s5 := " " + ("Td" + s6);
    var s4 := " " + (y + s5);
    var s3 := " " + ("54" + s4);
    var s2 := " " + ("Tf" + s3);
    var s1 := " " + (show.size + s2);
    var s0 := " " + ("/" + "F1" + s1);
    Blank('\n', rest, tokens);
    LexOperator("ET", s9, tokens);
    Blank(' ', "ET" + s9, t9);
    LexOperator("Tj", s8, t9);
    Blank(' ', "Tj" + s8, t8);
    LexText(show.text, s7, t8);
    Blank(' ', "(" + Escape(show.text) + ")" + s7, t7);
    LexOperator("Td", s6, t7);
    Blank(' ', "Td" + s6, t6);
    LexNumber(y, s5, t6);
    Blank(' ', y + s5, t5);
    LexNumber("54", s4, t5);
    Blank(' ', "54" + s4, t4);
    LexOperator("Tf", s3, t4);
    Blank(' ', "Tf" + s3, t3);
    LexNumber(show.size, s2, t3);
    Blank(' ', show.size + s2, t2);
    LexName("F1", s1, t2);
    Blank(' ', "/" + "F1" + s1, t1);
    LexOperator("BT", s0, t1);
    ShapeOfCommand(show, rest);
    assert CommandTokens(show) + tokens == [Operator("BT")] + t1;
  }

  lemma OperatorNames()
    ensures IsNameText("BT") && IsNameText("ET") && IsNameText("Tf") && IsNameText("Td") && IsNameText("Tj")
    ensures IsNameText("F1") && IsNameText("54")
  {
  }

  lemma Operand(g: Graphics, operands: seq<Token>, token: Token, tokens: seq<Token>)
    requires !token.Operator?
    ensures Execute(g, operands, [token] + tokens) == Execute(g, operands + [token], tokens)
  {
    assert ([token] + tokens)[1..] == tokens;
  }

  lemma Operation(g: Graphics, operands: seq<Token>, name: string, tokens: seq<Token>, next: Graphics)
    requires name != "Tj" && Changed(g, operands, name) == Some(next)
    ensures Execute(g, operands, [Operator(name)] + tokens) == Execute(next, [], tokens)
  {
    assert ([Operator(name)] + tokens)[1..] == tokens;
  }

  lemma Drawing(g: Graphics, operands: seq<Token>, tokens: seq<Token>, drawn: Drawn)
    requires Shown(g, operands) == Some(drawn) && Execute(g, [], tokens).Some?
    ensures Execute(g, operands, [Operator("Tj")] + tokens) == Some([drawn] + Execute(g, [], tokens).value)
  {
    assert ([Operator("Tj")] + tokens)[1..] == tokens;
  }

  /** The state in which a command's text is drawn, and the one it leaves. */
  function AtText(show: Show): Graphics {
    Graphics(true, "F1", show.size, 54, show.y)
  }

  function AfterCommand(show: Show): Graphics {
    AtText(show).(inText := false)
  }

  /** BT, Tf and Td bring any state outside a text object to the place of the text. */
  lemma ExecuteOpening(g: Graphics, show: Show, tokens: seq<Token>)
    requires !g.inText
    ensures Execute(g, [], [Operator("BT")] + ([NameToken("F1")] + ([NumberToken(show.size)] + ([Operator("Tf")]
            + ([NumberToken("54")] + ([NumberToken(Decimal.PrintInt(show.y))] + ([Operator("Td")] + tokens)))))))
            == Execute(AtText(show), [], tokens)
  {
    hide Execute, Decimal.PrintInt, IntOf;
    IntOfPrinted(show.y);
    FiftyFour();
    var y := Decimal.PrintInt(show.y);
    var t6 := [Operator("Td")] + tokens;
    var t5 := [NumberToken(y)] + t6;
    var t4 := [NumberToken("54")] + t5;
    var t3 := [Operator("Tf")] + t4;
    var t2 := [NumberToken(show.size)] + t3;
    var begun := g.(inText := true, x := 0, y := 0);
    var fonted := begun.(font := "F1", size := show.size);
    Operation(g, [], "BT", [NameToken("F1")] + t2, begun);
    TwoOperands(begun, NameToken("F1"), NumberToken(show.size), t3);
    Operation(begun, [NameToken("F1"), NumberToken(show.size)], "Tf", t4, fonted);
    TwoOperands(fonted, NumberToken("54"), NumberToken(y), t6);
    Operation(fonted, [NumberToken("54"), NumberToken(y)], "Td", tokens, AtText(show));
  }

  lemma TwoOperands(g: Graphics, a: Token, b: Token, tokens: seq<Token>)
    requires !a.Operator? && !b.Operator?
    ensures Execute(g, [], [a] + ([b] + tokens)) == Execute(g, [a, b], tokens)
  {
    hide Execute;
    Operand(g, [], a, [b] + tokens);
    Operand(g, [a], b, tokens);
    assert [] + [a] == [a] && [a] + [b] == [a, b];
  }

  /** Tj and ET draw the text and leave the text object. */
  lemma ExecuteText(show: Show, tokens: seq<Token>)
    requires Execute(AfterCommand(show), [], tokens).Some?
    ensures Execute(AtText(show), [], [TextToken(show.text)] + ([Operator("Tj")] + ([Operator("ET")] + tokens)))
            == Some([AsDrawn(show)] + Execute(AfterCommand(show), [], tokens).value)
  {
    hide Execute;
    var t9 := [Operator("ET")] + tokens;
    Operand(AtText(show), [], TextToken(show.text), [Operator("Tj")] + t9);
    assert [] + [TextToken(show.text)] == [TextToken(show.text)];
    Operation(AtText(show), [], "ET", tokens, AfterCommand(show));
    Drawing(AtText(show), [TextToken(show.text)], t9, AsDrawn(show));
  }

  lemma ExecuteCommand(g: Graphics, show: Show, tokens: seq<Token>)
    requires !g.inText && IsClean(show.text) && Execute(AfterCommand(show), [], tokens).Some?
    ensures Execute(g, [], CommandTokens(show) + tokens) == Some([AsDrawn(show)] + Execute(AfterCommand(show), [], tokens).value)
  {
    hide Execute, SafeText, Decimal.PrintInt;
    CleanIffFixed(show.text);
    var text := [TextToken(show.text)] + ([Operator("Tj")] + ([Operator("ET")] + tokens));
    assert CommandTokens(show) + tokens ==
           [Operator("BT")] + ([NameToken("F1")] + ([NumberToken(show.size)] + ([Operator("Tf")]
           + ([NumberToken("54")] + ([NumberToken(Decimal.PrintInt(show.y))] + ([Operator("Td")] + text))))));
    ExecuteOpening(g, show, text);
    ExecuteText(show, tokens);
  }

  lemma FiftyFour()
    ensures IntOf("54") == Some(54)
  {
    IntOfPrinted(54);
    assert Decimal.Print(54) == Decimal.Print(5) + [Decimal.Digit(4)];
    assert Decimal.PrintInt(54) == "54";
  }

  lemma {:induction false} CommandsOfCons(shows: seq<Show>)
    requires shows != []
    ensures Commands(shows) == Command(shows[0]) + Commands(shows[1..])
  {
    hide Command;
    var n := |shows| - 1;
    if n == 0 {
      assert shows[..0] == [] && shows[1..] == [];
    } else {
      CommandsOfCons(shows[..n]);
      assert shows[1..][..n - 1] == shows[..n][1..];
    }
  }

  function TokensOf(shows: seq<Show>): seq<Token> {
    if shows == [] then [] else CommandTokens(shows[0]) + TokensOf(shows[1..])
  }

  lemma {:induction false} LexCommands(shows: seq<Show>)
    requires forall i :: 0 <= i < |shows| ==> IsDrawable(shows[i])
    ensures Lexes(Commands(shows), TokensOf(shows))
  {
    hide Command, CommandTokens, IsDrawable;
    if shows != [] {
      hide Lexes;
      CommandsOfCons(shows);
      LexCommands(shows[1..]);
      LexCommand(shows[0], Commands(shows[1..]), TokensOf(shows[1..]));
    }
  }

  lemma {:induction false} ExecuteCommands(g: Graphics, shows: seq<Show>)
    requires !g.inText && forall i :: 0 <= i < |shows| ==> IsDrawable(shows[i])
    ensures Execute(g, [], TokensOf(shows)) == Some(AllDrawn(shows))
    decreases |shows|
  {
    hide CommandTokens;
    if shows != [] {
      assert IsDrawable(shows[0]);
      hide Execute, IsDrawable;
      ExecuteCommands(AfterCommand(shows[0]), shows[1..]);
      ExecuteCommand(g, shows[0], TokensOf(shows[1..]));
      assert [AsDrawn(shows[0])] + AllDrawn(shows[1..]) == AllDrawn(shows);
    }
  }

  /** Reading a content stream gives back exactly the commands drawn: font, size, place and text. */
  lemma ReadCommands(shows: seq<Show>)
    requires forall i :: 0 <= i < |shows| ==> IsDrawable(shows[i])
    ensures ReadContent(Commands(shows)) == Some(AllDrawn(shows))
  {
    hide Execute, ReadTokens, IsDrawable;
    LexCommands(shows);
    ExecuteCommands(START, shows);
  }

  // ---------------------------------------------------------------- offsets

  /** Object i's text stands at its recorded offset, whatever the objects contain. */
  lemma {:induction false} TextAtOffset(objects: seq<string>, i: nat, k: nat, tail: string)
    requires 1 <= i <= k <= |objects|
    ensures Offset(objects, i) <= |Prefix(objects, k) + tail|
    ensures ObjectText(i, objects[i - 1]) <= (Prefix(objects, k) + tail)[Offset(objects, i)..]
    decreases k
  {
    hide ObjectText;
    if i < k {
      TextAtOffset(objects, i, k - 1, ObjectText(k, objects[k - 1]) + tail);
      assert Prefix(objects, k - 1) + (ObjectText(k, objects[k - 1]) + tail) == Prefix(objects, k) + tail;
    } else {
      var text := ObjectText(i, objects[i - 1]);
      assert (Prefix(objects, k) + tail)[Offset(objects, i)..] == text + tail;
    }
  }

  lemma {:induction false} OffsetsGrow(objects: seq<string>, i: nat, j: nat)
    requires 1 <= i <= j <= |objects|
    ensures Offset(objects, i) + (j - i) <= Offset(objects, j)
  {
    hide ObjectText;
    if i < j {
      OffsetsGrow(objects, i, j - 1);
      assert |ObjectText(j - 1, objects[j - 2])| > 0 by {
        ObjectTextLength(j - 1, objects[j - 2]);
      }
    }
  }

  lemma ObjectTextLength(number: nat, body: string)
    ensures |ObjectText(number, body)| > 0
  {
  }

  // ---------------------------------------------------------------- cross-reference table

  /** A table entry has twenty bytes exactly when its offset has at most ten digits. */
  lemma EntryIsTwentyBytes(offset: nat)
    ensures |TableEntry(offset)| == 20 <==> offset < Decimal.Pow10(10)
  {
    Decimal.PrintFits(offset, 10);
  }

  /** All offsets of a file have at most ten digits. */
  predicate TableFits(objects: seq<string>) {
    objects != [] ==> Offset(objects, |objects|) < Decimal.Pow10(10)
  }

  /** The whole table has twenty bytes an entry exactly when the last offset is below 10^10. */
  lemma TableFitsIff(objects: seq<string>)
    ensures TableFits(objects) <==> forall i :: 1 <= i <= |objects| ==> |TableEntry(Offset(objects, i))| == 20
  {
    hide TableEntry, Offset;
    forall i | 1 <= i <= |objects|
      ensures Offset(objects, i) <= Offset(objects, |objects|)
      ensures |TableEntry(Offset(objects, i))| == 20 <==> Offset(objects, i) < Decimal.Pow10(10)
    {
      OffsetsGrow(objects, i, |objects|);
      EntryIsTwentyBytes(Offset(objects, i));
    }
  }

  /** A table entry that a reader decodes to the given offset. */
  predicate Denotes(e: string, offset: nat) {
    |e| == 20 && IsEntry(e) && Decimal.Value(e[..10]) == offset
  }

  lemma EntryDenotes(offset: nat)
    requires offset < Decimal.Pow10(10)
    ensures Denotes(TableEntry(offset), offset)
  {
    Decimal.PrintFits(offset, 10);
    Decimal.ValueOfPad(offset, 10);
    var e := TableEntry(offset);
    assert e[..10] == Decimal.PadStart(Decimal.Print(offset), 10);
  }

  lemma EntryOfConcat(a: string, b: string, i: nat)
    requires |a| % 20 == 0
    requires 20 * i + 20 <= |a + b|
    ensures EntryAt(a + b, i) == if 20 * i < |a| then EntryAt(a, i) else EntryAt(b, i - |a| / 20)
  {
  }

  lemma {:induction false} TableEntries(objects: seq<string>, k: nat)
    requires k <= |objects| && TableFits(objects)
    ensures |Table(objects, k)| == 20 * k
    ensures forall i :: 0 <= i < k ==> EntryAt(Table(objects, k), i) == TableEntry(Offset(objects, i + 1))
  {
    hide TableEntry, Offset;
    if k > 0 {
      TableEntries(objects, k - 1);
      OffsetsGrow(objects, k, |objects|);
      EntryIsTwentyBytes(Offset(objects, k));
      var before, entry := Table(objects, k - 1), TableEntry(Offset(objects, k));
      forall i | 0 <= i < k
        ensures EntryAt(Table(objects, k), i) == TableEntry(Offset(objects, i + 1))
      {
        EntryOfConcat(before, entry, i);
      }
    }
  }

  /** The offsets a reader must find: 0 for the free entry, then one per object. */
  function Offsets(objects: seq<string>): (r: seq<nat>)
    ensures |r| == |objects| + 1
  {
    seq(|objects| + 1, i requires 0 <= i <= |objects| => if i == 0 then 0 else Offset(objects, i))
  }

  /** Text whose twenty-byte entries decode to the given offsets. */
  predicate Encodes(s: string, offsets: seq<nat>) {
    && |s| == 20 * |offsets|
    && forall i :: 0 <= i < |offsets| ==> Denotes(EntryAt(s, i), offsets[i])
  }

  lemma TableEncodes(objects: seq<string>)
    requires TableFits(objects)
    ensures Encodes(FREE + Table(objects, |objects|), Offsets(objects))
  {
    hide TableEntry, Offset, Table, Denotes, EntryAt;
    var n := |objects|;
    TableEntries(objects, n);
    FreeEntry();
    var s := FREE + Table(objects, n);
    forall i | 0 <= i <= n
      ensures Denotes(EntryAt(s, i), Offsets(objects)[i])
    {
      EntryOfConcat(FREE, Table(objects, n), i);
      if i > 0 {
        OffsetsGrow(objects, i, n);
        EntryDenotes(Offset(objects, i));
      }
    }
  }

  lemma FreeEntry()
    ensures |FREE| == 20 && Denotes(FREE, 0)
    ensures EntryAt(FREE, 0) == FREE
  {
    assert FREE[..10] == Decimal.Zeros(10) + "";
    Decimal.ValueOfZeros(10, "");
  }

  lemma ReadEncoded(s: string, offsets: seq<nat>, rest: string)
    requires Encodes(s, offsets)
    ensures ReadTable(s + rest, |offsets|) == Some((offsets, rest))
  {
    hide IsEntry;
    var n := |offsets|;
    var t := s + rest;
    forall i | 0 <= i < n
      ensures EntryAt(t, i) == EntryAt(s, i) && IsEntry(EntryAt(t, i))
    {
      EntryOfConcat(s, rest, i);
      assert Denotes(EntryAt(s, i), offsets[i]);
    }
    assert t[20 * n..] == rest;
    assert ReadTable(t, n).value.0 == offsets;
  }

  // ---------------------------------------------------------------- bodies as values

  function PrintEntry(e: Entry): string {
    "/" + e.key + " " + Print(e.value) + " "
  }

  lemma EntriesOfCons(e: Entry, more: seq<Entry>)
    ensures PrintEntries([e] + more) == PrintEntry(e) + PrintEntries(more)
  {
    assert ([e] + more)[1..] == more;
  }

  lemma DictShape(entries: seq<Entry>)
    ensures Print(Dict(entries)) == "<< " + PrintEntries(entries) + ">>"
  {
  }

  lemma DictOfOne(a: Entry)
    ensures Print(Dict([a])) == "<< " + PrintEntry(a) + ">>"
  {
    hide Print, PrintEntry;
    EntriesOfCons(a, []);
    assert [a] + [] == [a];
    DictShape([a]);
  }

  lemma DictOfTwo(a: Entry, b: Entry)
    ensures Print(Dict([a, b])) == "<< " + PrintEntry(a) + PrintEntry(b) + ">>"
  {
    hide Print, PrintEntry;
    EntriesOfCons(a, [b]);
    EntriesOfCons(b, []);
    assert [a] + [b] == [a, b] && [b] + [] == [b];
    DictShape([a, b]);
  }

  lemma DictOfThree(a: Entry, b: Entry, c: Entry)
    ensures Print(Dict([a, b, c])) == "<< " + PrintEntry(a) + PrintEntry(b) + PrintEntry(c) + ">>"
  {
    hide Print, PrintEntry;
    EntriesOfCons(a, [b, c]);
    EntriesOfCons(b, [c]);
    EntriesOfCons(c, []);
    assert [a] + [b, c] == [a, b, c] && [b] + [c] == [b, c] && [c] + [] == [c];
    DictShape([a, b, c]);
  }

  lemma DictOfFive(a: Entry, b: Entry, c: Entry, d: Entry, e: Entry)
    ensures Print(Dict([a, b, c, d, e])) == "<< " + PrintEntry(a) + PrintEntry(b) + PrintEntry(c) + PrintEntry(d) + PrintEntry(e) + ">>"
  {
    hide Print, PrintEntry, PrintEntries;
    EntriesOfCons(a, [b, c, d, e]);
    EntriesOfCons(b, [c, d, e]);
    EntriesOfCons(c, [d, e]);
    EntriesOfCons(d, [e]);
    EntriesOfCons(e, []);
    EntriesOfNothing();
    assert [a] + [b, c, d, e] == [a, b, c, d, e] && [b] + [c, d, e] == [b, c, d, e] && [c] + [d, e] == [c, d, e];
    assert [d] + [e] == [d, e] && [e] + [] == [e];
    DictShape([a, b, c, d, e]);
    Regroup("<< ", PrintEntry(a), PrintEntry(b), PrintEntry(c), PrintEntry(d), PrintEntry(e), ">>");
  }

  lemma EntriesOfNothing()
    ensures PrintEntries([]) == ""
  {
  }

  lemma Regroup(o: string, a: string, b: string, c: string, d: string, e: string, z: string)
    ensures o + (a + (b + (c + (d + (e + ""))))) + z == o + a + b + c + d + e + z
  {
  }

  function CatalogValue(): Value {
    Dict([Entry("Type", Name("Catalog")), Entry("Pages", Ref(2))])
  }

  function FontValue(): Value {
    Dict([Entry("Type", Name("Font")), Entry("Subtype", Name("Type1")), Entry("BaseFont", Name("Helvetica"))])
  }

  function TrailerValue(size: nat): Value {
    Dict([Entry("Size", Num(size)), Entry("Root", Ref(1))])
  }

  function LengthValue(n: nat): Value {
    Dict([Entry("Length", Num(n))])
  }

  function PagesValue(kids: seq<Value>): Value {
    Dict([Entry("Type", Name("Pages")), Entry("Kids", Arr(kids)), Entry("Count", Num(|kids|))])
  }

  function ResourcesValue(font: nat): Value {
    Dict([Entry("Font", Dict([Entry("F1", Ref(font))]))])
  }

  function PageEntries(font: nat, content: nat): seq<Entry> {
    [Entry("Type", Name("Page")), Entry("Parent", Ref(2)),
     Entry("MediaBox", Arr([Num(0), Num(0), Num(612), Num(842)])),
     Entry("Resources", ResourcesValue(font)), Entry("Contents", Ref(content))]
  }

  lemma NameEntry(key: string, id: string)
    ensures PrintEntry(Entry(key, Name(id))) == "/" + key + " " + ("/" + id) + " "
  {
  }

  lemma RefEntry(key: string, n: nat)
    ensures PrintEntry(Entry(key, Ref(n))) == "/" + key + " " + (Decimal.Print(n) + " 0 R") + " "
  {
  }

  lemma NumEntry(key: string, n: nat)
    ensures PrintEntry(Entry(key, Num(n))) == "/" + key + " " + Decimal.Print(n) + " "
  {
  }

  lemma ParentEntry()
    ensures PrintEntry(Entry("Pages", Ref(2))) == "/Pages 2 0 R "
    ensures PrintEntry(Entry("Parent", Ref(2))) == "/Parent 2 0 R "
    ensures PrintEntry(Entry("Root", Ref(1))) == "/Root 1 0 R "
  {
    hide PrintEntry, Print;
    RefEntry("Pages", 2);
    RefEntry("Parent", 2);
    RefEntry("Root", 1);
    assert Decimal.Print(2) == "2" && Decimal.Print(1) == "1";
  }

  lemma CatalogIsValue()
    ensures CATALOG == Print(CatalogValue())
  {
    hide PrintEntry, Print;
    DictOfTwo(Entry("Type", Name("Catalog")), Entry("Pages", Ref(2)));
    NameEntry("Type", "Catalog");
    ParentEntry();
    assert "/" + "Type" + " " + ("/" + "Catalog") + " " == "/Type /Catalog ";
  }

  lemma FontIsValue()
    ensures FONT == Print(FontValue())
  {
    hide PrintEntry, Print;
    DictOfThree(Entry("Type", Name("Font")), Entry("Subtype", Name("Type1")), Entry("BaseFont", Name("Helvetica")));
    NameEntry("Type", "Font");
    NameEntry("Subtype", "Type1");
    NameEntry("BaseFont", "Helvetica");
    assert "/" + "Type" + " " + ("/" + "Font") + " " == "/Type /Font ";
    assert "/" + "Subtype" + " " + ("/" + "Type1") + " " == "/Subtype /Type1 ";
    assert "/" + "BaseFont" + " " + ("/" + "Helvetica") + " " == "/BaseFont /Helvetica ";
  }

  lemma TrailerIsValue(size: nat)
    ensures Print(TrailerValue(size)) == "<< " + ("/Size " + Decimal.Print(size) + " ") + "/Root 1 0 R " + ">>"
  {
    hide PrintEntry, Print;
    DictOfTwo(Entry("Size", Num(size)), Entry("Root", Ref(1)));
    NumEntry("Size", size);
    ParentEntry();
    assert "/" + "Size" + " " == "/Size ";
  }

  lemma LengthIsValue(n: nat)
    ensures Print(LengthValue(n)) == "<< " + ("/Length " + Decimal.Print(n) + " ") + ">>"
  {
    hide PrintEntry, Print;
    DictOfOne(Entry("Length", Num(n)));
    NumEntry("Length", n);
    assert "/" + "Length" + " " == "/Length ";
  }

  lemma ResourcesEntry(font: nat)
    ensures PrintEntry(Entry("Resources", ResourcesValue(font))) == "/Resources << /Font << /F1 " + (Decimal.Print(font) + " 0 R") + " >> >> "
  {
    hide Print, PrintEntry;
    var f := Decimal.Print(font) + " 0 R";
    var inner := Dict([Entry("F1", Ref(font))]);
    DictOfOne(Entry("F1", Ref(font)));
    RefEntry("F1", font);
    assert Print(inner) == "<< /F1 " + (f + " >>") by {
      assert "<< " + ("/" + "F1" + " ") == "<< /F1 ";
      assert "<< " + (("/" + "F1" + " ") + f + " ") + ">>" == ("<< " + ("/" + "F1" + " ")) + (f + (" " + ">>"));
      assert " " + ">>" == " >>";
    }
    DictOfOne(Entry("Font", inner));
    KeyAndValue("Font", inner);
    KeyAndValue("Resources", ResourcesValue(font));
    assert "/" + "Font" + " " == "/Font ";
    assert "/" + "Resources" + " " == "/Resources ";
    NestedResources(f);
  }

  lemma NestedResources(f: string)
    ensures "/Resources " + ("<< " + ("/Font " + ("<< /F1 " + (f + " >>")) + " ") + ">>") + " " == "/Resources << /Font << /F1 " + f + " >> >> "
  {
    assert "/Resources " + ("<< " + ("/Font " + "<< /F1 ")) == "/Resources << /Font << /F1 ";
    assert " >>" + " " + ">>" + " " == " >> >> ";
  }

  lemma KeyAndValue(key: string, v: Value)
    ensures PrintEntry(Entry(key, v)) == "/" + key + " " + Print(v) + " "
  {
  }

  lemma TailOfCons(v: Value, more: seq<Value>)
    ensures PrintTail([v] + more) == " " + Print(v) + PrintTail(more)
    ensures Inner([v] + more) == Print(v) + PrintTail(more)
  {
    assert ([v] + more)[1..] == more;
  }

  lemma MediaBoxNumbers()
    ensures Print(Num(0)) == "0" && Print(Num(612)) == "612" && Print(Num(842)) == "842"
  {
    assert Decimal.Print(61) == "61" && Decimal.Print(84) == "84";
  }

  lemma MediaBoxItems(zero: Value, width: Value, height: Value)
    ensures Inner([zero, zero, width, height]) ==
            Print(zero) + (" " + Print(zero) + (" " + Print(width) + (" " + Print(height) + "")))
  {
    hide Print, PrintTail, Inner;
    TailOfCons(height, []);
    TailOfCons(width, [height]);
    TailOfCons(zero, [width, height]);
    TailOfCons(zero, [zero, width, height]);
    assert [height] + [] == [height] && [width] + [height] == [width, height];
    assert [zero] + [width, height] == [zero, width, height];
    assert [zero] + [zero, width, height] == [zero, zero, width, height];
    EmptyTail();
  }

  lemma MediaBoxEntry()
    ensures PrintEntry(Entry("MediaBox", Arr([Num(0), Num(0), Num(612), Num(842)]))) == "/MediaBox [0 0 612 842] "
  {
    hide Print, PrintEntry, PrintTail, Inner;
    MediaBoxNumbers();
    MediaBoxItems(Num(0), Num(612), Num(842));
    ArrayShape([Num(0), Num(0), Num(612), Num(842)]);
    KeyAndValue("MediaBox", Arr([Num(0), Num(0), Num(612), Num(842)]));
  }

  lemma EmptyTail()
    ensures PrintTail([]) == ""
  {
  }

  lemma PageIsValue(font: nat, content: nat)
    ensures PageBody(font, content) == Print(Dict(PageEntries(font, content)))
  {
    hide Print, PrintEntry;
    var es := PageEntries(font, content);
    DictOfFive(es[0], es[1], es[2], es[3], es[4]);
    NameEntry("Type", "Page");
    assert "/" + "Type" + " " + ("/" + "Page") + " " == "/Type /Page ";
    ParentEntry();
    MediaBoxEntry();
    ResourcesEntry(font);
    RefEntry("Contents", content);
    assert "/" + "Contents" + " " == "/Contents ";
  }

  function KidRefs(n: nat): (kids: seq<Value>)
    ensures |kids| == n
  {
    seq(n, p requires 0 <= p < n => Ref(5 + 2 * p))
  }

  lemma {:induction false} JoinedReferences(refs: seq<string>, kids: seq<Value>)
    requires |refs| == |kids|
    requires forall i :: 0 <= i < |refs| ==> refs[i] == Print(kids[i])
    ensures Join(refs) == Inner(kids)
    ensures refs != [] ==> " " + Join(refs) == PrintTail(kids)
  {
    hide Print;
    if refs != [] {
      JoinedReferences(refs[1..], kids[1..]);
      if |refs| == 1 {
        assert kids[1..] == [];
      }
    }
  }

  lemma PagesIsValue(n: nat)
    ensures PagesBody(PageReferences(n)) == Print(PagesValue(KidRefs(n)))
  {
    hide Print, PrintEntry;
    var kids := KidRefs(n);
    ReferencesArePrinted(n);
    JoinedReferences(PageReferences(n), kids);
    DictOfThree(Entry("Type", Name("Pages")), Entry("Kids", Arr(kids)), Entry("Count", Num(n)));
    NameEntry("Type", "Pages");
    assert "/" + "Type" + " " + ("/" + "Pages") + " " == "/Type /Pages ";
    KeyAndValue("Kids", Arr(kids));
    ArrayShape(kids);
    var j := Join(PageReferences(n));
    assert "/" + "Kids" + " " + ("[" + j + "]") + " " == "/Kids [" + j + "] ";
    NumEntry("Count", n);
    assert "/" + "Count" + " " == "/Count ";
  }

  lemma ReferencesArePrinted(n: nat)
    ensures forall p :: 0 <= p < n ==> PageReferences(n)[p] == Print(KidRefs(n)[p])
  {
  }

  lemma ArrayShape(items: seq<Value>)
    ensures Print(Arr(items)) == "[" + Inner(items) + "]"
  {
  }

  // ---------------------------------------------------------------- locating the table

  lemma {:induction false} LastDigitsOf(a: string, d: string)
    requires Decimal.AllDigits(d)
    requires a != [] && !Decimal.IsDigit(a[|a| - 1])
    ensures LastDigits(a + d) == |a|
  {
    if d == [] {
      assert a + d == a;
    } else {
      var shorter := d[..|d| - 1];
      LastDigitsOf(a, shorter);
      assert (a + d)[..|a + d| - 1] == a + shorter;
    }
  }

  lemma StripEndHere(s: string, p: string)
    ensures StripEnd(s + p, p) == Some(s)
  {
  }

  lemma StartXrefOf(a: string, d: string)
    requires d != [] && Decimal.AllDigits(d)
    ensures StartXref(a + "startxref\n" + d + "\n%%EOF") == Some(Decimal.Value(d))
  {
    var b := a + "startxref\n";
    StripEndHere(b + d, "\n%%EOF");
    LastDigitsOf(b, d);
    StripEndHere(a, "startxref\n");
    assert (b + d)[..|b|] == b && (b + d)[|b|..] == d;
  }

  /** The trailer up to the keyword startxref. */
  function TrailerText(size: nat): string {
    "trailer\n" + Print(TrailerValue(size)) + "\n"
  }

  lemma TrailerShape(objects: seq<string>)
    ensures Trailer(objects) ==
            TrailerText(|objects| + 1) + "startxref\n" + Decimal.Print(|Prefix(objects, |objects|)|) + "\n%%EOF"
  {
    hide Print, TrailerValue, Prefix;
    TrailerIsValue(|objects| + 1);
    assert "\nstartxref\n" == "\n" + "startxref\n";
  }

  /** The file from its cross-reference table on. */
  function TableText(objects: seq<string>): string {
    "xref\n0 " + (Decimal.Print(|objects| + 1) + ("\n" + ((FREE + Table(objects, |objects|)) + Trailer(objects))))
  }

  lemma FileShape(objects: seq<string>)
    ensures File(objects) == Prefix(objects, |objects|) + TableText(objects)
  {
    hide Prefix, Table, Trailer, FREE;
    var n := |objects|;
    RegroupFile(Prefix(objects, n), Decimal.Print(n + 1), FREE, Table(objects, n), Trailer(objects));
  }

  lemma RegroupFile(p: string, n: string, f: string, t: string, r: string)
    ensures p + ("xref\n0 " + n + "\n" + f) + t + r == p + ("xref\n0 " + (n + ("\n" + ((f + t) + r))))
  {
  }

  lemma StartOfFile(objects: seq<string>)
    ensures StartXref(File(objects)) == Some(|Prefix(objects, |objects|)|)
  {
    hide Prefix, Table, Trailer, TrailerText, StartXref;
    var n := |Prefix(objects, |objects|)|;
    TrailerShape(objects);
    var front := Prefix(objects, |objects|) + ("xref\n0 " + Decimal.Print(|objects| + 1) + "\n" + FREE) + Table(objects, |objects|);
    var text := TrailerText(|objects| + 1);
    Decimal.ValueOfPrint(n);
    StartXrefOf(front + text, Decimal.Print(n));
    EndOfFile(front, text, Decimal.Print(n));
  }

  lemma EndOfFile(front: string, text: string, d: string)
    ensures front + (text + "startxref\n" + d + "\n%%EOF") == (front + text) + "startxref\n" + d + "\n%%EOF"
  {
  }

  lemma ReadTrailer(objects: seq<string>)
    ensures var e := Expect(Trailer(objects), "trailer\n");
            && e.Some?
            && Read(e.value).Some?
            && Read(e.value).value.0 == TrailerValue(|objects| + 1)
  {
    hide Print, Read, Prefix, Decimal.Print;
    TrailerShape(objects);
    var rest := "\n" + ("startxref\n" + Decimal.Print(|Prefix(objects, |objects|)|) + "\n%%EOF");
    var v := TrailerValue(|objects| + 1);
    assert Trailer(objects) == "trailer\n" + (Print(v) + rest);
    ExpectHere("trailer\n", Print(v) + rest);
    ReadPrint(v, rest);
  }

  lemma TrailerKeys(size: nat)
    ensures Get(TrailerValue(size), "Size") == Some(Num(size))
    ensures GetRef(TrailerValue(size), "Root") == Some(1)
  {
    hide Find;
    assert "Root"[0] != "Size"[0];
    FindFirst(TrailerValue(size).entries, 0);
    FindFirst(TrailerValue(size).entries, 1);
  }

  lemma {:induction false} HeaderComesFirst(objects: seq<string>, k: nat)
    requires k <= |objects|
    ensures "%PDF-1.4\n" <= Prefix(objects, k)
  {
    hide ObjectText;
    if k > 0 {
      HeaderComesFirst(objects, k - 1);
    }
  }

  lemma FileHasHeader(objects: seq<string>)
    ensures Expect(File(objects), "%PDF-1.4\n").Some?
  {
    hide Prefix, Table, Trailer;
    HeaderComesFirst(objects, |objects|);
  }

  /** Following startxref, the reader finds exactly the recorded offsets. */
  lemma ReadXrefOfFile(objects: seq<string>)
    requires TableFits(objects)
    ensures ReadXref(File(objects)) == Some(Xref(Offsets(objects), TrailerValue(|objects| + 1)))
  {
    hide File, StartXref, Prefix, Table, Trailer, Offsets, ReadTable, Read, Get, TrailerValue, FREE;
    var pdf := File(objects);
    var n := |objects| + 1;
    FileHasHeader(objects);
    StartOfFile(objects);
    FileShape(objects);
    assert pdf[|Prefix(objects, |objects|)|..] == TableText(objects);
    var entries := FREE + Table(objects, |objects|);
    var c := entries + Trailer(objects);
    ExpectHere("xref\n0 ", Decimal.Print(n) + ("\n" + c));
    Decimal.ReadPrinted(n, "\n" + c);
    ExpectHere("\n", c);
    TableEncodes(objects);
    ReadEncoded(entries, Offsets(objects), Trailer(objects));
    ReadTrailer(objects);
    TrailerKeys(n);
  }

  /** A file of fewer than 10^10 bytes always fits. */
  lemma SmallFileFits(objects: seq<string>)
    requires |File(objects)| < Decimal.Pow10(10)
    ensures TableFits(objects)
  {
    hide Prefix, Table, Trailer, TableText, File;
    FileShape(objects);
    if objects != [] {
      TextAtOffset(objects, |objects|, |objects|, TableText(objects));
    }
  }

  lemma {:induction false} TableIsLong(objects: seq<string>, k: nat)
    requires k <= |objects|
    ensures |Table(objects, k)| >= 20 * k && 't' !in Table(objects, k)
    ensures k > 0 && Offset(objects, k) >= Decimal.Pow10(10) ==> |Table(objects, k)| > 20 * k
  {
    hide Offset;
    if k > 0 {
      TableIsLong(objects, k - 1);
      EntryIsTwentyBytes(Offset(objects, k));
      EntryIsLong(Offset(objects, k));
    }
  }

  lemma EntryIsLong(offset: nat)
    ensures |TableEntry(offset)| >= 20 && 't' !in TableEntry(offset)
  {
    var digits := Decimal.PadStart(Decimal.Print(offset), 10);
    assert Decimal.AllDigits(digits);
    assert 't' !in digits;
  }

  /** With an offset of eleven digits the entries overrun their twenty bytes each. */
  lemma TableOverruns(objects: seq<string>)
    requires !TableFits(objects)
    ensures var c := (FREE + Table(objects, |objects|)) + Trailer(objects);
            |c| > 20 * (|objects| + 1) && c[20 * (|objects| + 1)] != 't'
  {
    hide Prefix, Table, Trailer, Offset, FREE, Denotes, EntryAt;
    var n := |objects|;
    TableIsLong(objects, n);
    FreeEntry();
    var c := (FREE + Table(objects, n)) + Trailer(objects);
    assert c[20 * (n + 1)] == Table(objects, n)[20 * n];
  }

  lemma NoTrailerHere(c: string, n: nat)
    requires |c| > 20 * n && c[20 * n] != 't'
    ensures ReadTable(c, n).Some? ==> Expect(ReadTable(c, n).value.1, "trailer\n") == None
  {
    hide IsEntry, EntryAt;
    var d := c[20 * n..];
    assert d[0] == c[20 * n];
  }

  /** Past the tenth digit the table has no twenty-byte shape and the file cannot be read. */
  lemma TooLargeToRead(objects: seq<string>)
    requires !TableFits(objects)
    ensures ReadXref(File(objects)) == None
  {
    hide File, StartXref, Prefix, Table, Trailer, Offset, Read, Get, FREE, ReadTable, TableFits;
    var pdf := File(objects);
    var n := |objects| + 1;
    StartOfFile(objects);
    FileShape(objects);
    assert pdf[|Prefix(objects, |objects|)|..] == TableText(objects);
    var c := (FREE + Table(objects, |objects|)) + Trailer(objects);
    ExpectHere("xref\n0 ", Decimal.Print(n) + ("\n" + c));
    Decimal.ReadPrinted(n, "\n" + c);
    ExpectHere("\n", c);
    TableOverruns(objects);
    NoTrailerHere(c, n);
  }

  /** The exact condition under which the cross-reference table can be read. */
  lemma ReadableIffTableFits(objects: seq<string>)
    ensures ReadXref(File(objects)).Some? <==> TableFits(objects)
  {
    hide ReadXref, File, TableFits;
    if TableFits(objects) {
      ReadXrefOfFile(objects);
    } else {
      TooLargeToRead(objects);
    }
  }

  /** Every offset of the table leads to `i 0 obj` and object i's own body. */
  predicate Indexed(pdf: string, x: Xref, objects: seq<string>) {
    && |x.offsets| == |objects| + 1
    && forall i :: 1 <= i <= |objects| ==> x.offsets[i] <= |pdf| && ObjectText(i, objects[i - 1]) <= pdf[x.offsets[i]..]
  }

  lemma FileIsIndexed(objects: seq<string>)
    requires TableFits(objects)
    ensures var x := Xref(Offsets(objects), TrailerValue(|objects| + 1));
            ReadXref(File(objects)) == Some(x) && Indexed(File(objects), x, objects)
  {
    hide ReadXref, File, Indexed, Offsets, TrailerValue;
    ReadXrefOfFile(objects);
    OffsetsAreRight(objects);
  }

  lemma OffsetsAreRight(objects: seq<string>)
    ensures Indexed(File(objects), Xref(Offsets(objects), TrailerValue(|objects| + 1)), objects)
  {
    hide File, ObjectText, Prefix, Table, Trailer, Offset, TableText, TrailerValue;
    FileShape(objects);
    forall i | 1 <= i <= |objects|
      ensures Offsets(objects)[i] <= |File(objects)| && ObjectText(i, objects[i - 1]) <= File(objects)[Offsets(objects)[i]..]
    {
      TextAtOffset(objects, i, |objects|, TableText(objects));
    }
  }

  // ---------------------------------------------------------------- objects and the page tree

  lemma ObjectShape(number: nat, printed: string, after: string)
    ensures ObjectText(number, printed + after) == Decimal.Print(number) + (" 0 obj\n" + (printed + (after + "\nendobj\n")))
  {
  }

  /** An object that starts with a printed value is read as that value, up to its line end. */
  lemma ReadObjectAt(pdf: string, x: Xref, number: nat, v: Value, after: string)
    requires WellFormed(v) && 0 < number < |x.offsets| && x.offsets[number] <= |pdf|
    requires Decimal.Print(number) + (" 0 obj\n" + (Print(v) + ("\n" + after))) == pdf[x.offsets[number]..]
    ensures ReadObject(pdf, x, number) == Some((v, after))
  {
    hide Print, Read, WellFormed;
    var c := "\n" + after;
    var b := Print(v) + c;
    Decimal.ReadPrinted(number, " 0 obj\n" + b);
    ExpectHere(" 0 obj\n", b);
    ReadPrint(v, c);
    ExpectHere("\n", after);
  }

  lemma PrefixRest(p: string, s: string)
    requires p <= s
    ensures s == p + s[|p|..]
  {
  }

  lemma ReadDictionaryAt(pdf: string, x: Xref, objects: seq<string>, number: nat, v: Value, kind: string)
    requires Indexed(pdf, x, objects) && 1 <= number <= |objects|
    requires objects[number - 1] == Print(v) && WellFormed(v) && Get(v, "Type") == Some(Name(kind))
    ensures ReadDictionary(pdf, x, number, kind) == Some(v)
  {
    hide Print, Read, WellFormed, Get, ReadObject, ObjectText;
    var s := pdf[x.offsets[number]..];
    var text := ObjectText(number, objects[number - 1]);
    PrefixRest(text, s);
    var rest := s[|text|..];
    ObjectShape(number, Print(v), "");
    assert Print(v) + "" == objects[number - 1];
    EndOfObject(Decimal.Print(number), Print(v), rest);
    ReadObjectAt(pdf, x, number, v, "endobj\n" + rest);
  }

  lemma EndOfObject(number: string, printed: string, rest: string)
    ensures (number + (" 0 obj\n" + (printed + ("" + "\nendobj\n")))) + rest ==
            number + (" 0 obj\n" + (printed + ("\n" + ("endobj\n" + rest))))
  {
    assert "\nendobj\n" == "\n" + "endobj\n";
  }

  /** A stream is cut by its /Length alone, whatever bytes it holds. */
  lemma ReadStreamAt(pdf: string, x: Xref, objects: seq<string>, number: nat, content: string)
    requires Indexed(pdf, x, objects) && 1 <= number <= |objects|
    requires objects[number - 1] == StreamBody(content)
    ensures ReadStream(pdf, x, number) == Some(content)
  {
    hide Print, Read, WellFormed, Get, ReadObject, ObjectText, StreamBody;
    var v := LengthValue(|content|);
    var s := pdf[x.offsets[number]..];
    var text := ObjectText(number, objects[number - 1]);
    PrefixRest(text, s);
    var rest := s[|text|..];
    var data := content + ("endstream\nendobj\n" + rest);
    StreamShape(content);
    ObjectShape(number, Print(v), "\nstream\n" + content + "endstream");
    EndOfStream(Decimal.Print(number), Print(v), content, rest);
    LengthKey(|content|);
    ReadObjectAt(pdf, x, number, v, "stream\n" + data);
    ExpectHere("stream\n", data);
    assert data[..|content|] == content && data[|content|..] == "endstream\nendobj\n" + rest;
  }

  lemma StreamShape(content: string)
    ensures StreamBody(content) == Print(LengthValue(|content|)) + ("\nstream\n" + content + "endstream")
  {
    hide Print, LengthValue;
    LengthIsValue(|content|);
  }

  lemma LengthKey(n: nat)
    ensures WellFormed(LengthValue(n)) && Get(LengthValue(n), "Length") == Some(Num(n))
  {
  }

  lemma EndOfStream(number: string, printed: string, content: string, rest: string)
    ensures (number + (" 0 obj\n" + (printed + (("\nstream\n" + content + "endstream") + "\nendobj\n")))) + rest ==
            number + (" 0 obj\n" + (printed + ("\n" + ("stream\n" + (content + ("endstream\nendobj\n" + rest))))))
  {
    assert "\nstream\n" == "\n" + "stream\n";
    assert "endstream" + "\nendobj\n" == "endstream\nendobj\n";
  }

  /** The first entry with a key is the one found. */
  lemma {:induction false} FindFirst(entries: seq<Entry>, k: nat)
    requires k < |entries| && forall j :: 0 <= j < k ==> entries[j].key != entries[k].key
    ensures Find(entries, entries[k].key) == Some(entries[k].value)
  {
    if k > 0 {
      FindFirst(entries[1..], k - 1);
    }
  }

  lemma NamesAreRegular()
    ensures IsNameText("Type") && IsNameText("Pages") && IsNameText("Page") && IsNameText("Catalog") && IsNameText("Font")
    ensures IsNameText("Subtype") && IsNameText("Type1") && IsNameText("BaseFont") && IsNameText("Helvetica")
    ensures IsNameText("Kids") && IsNameText("Count") && IsNameText("Parent") && IsNameText("MediaBox")
    ensures IsNameText("Resources") && IsNameText("Contents") && IsNameText("F1") && IsNameText("Length")
    ensures IsNameText("Size") && IsNameText("Root")
  {
    hide IsNameText;
    TypeNames();
    FontNames();
    PageNames();
    OtherNames();
  }

  lemma TypeNames()
    ensures IsNameText("Type") && IsNameText("Pages") && IsNameText("Page") && IsNameText("Catalog") && IsNameText("Font")
  {
  }

  lemma FontNames()
    ensures IsNameText("Subtype") && IsNameText("Type1") && IsNameText("BaseFont") && IsNameText("Helvetica")
  {
  }

  lemma PageNames()
    ensures IsNameText("Kids") && IsNameText("Count") && IsNameText("Parent") && IsNameText("MediaBox")
  {
  }

  lemma OtherNames()
    ensures IsNameText("Resources") && IsNameText("Contents") && IsNameText("F1") && IsNameText("Length")
    ensures IsNameText("Size") && IsNameText("Root")
  {
  }

  lemma CatalogKeys()
    ensures WellFormed(CatalogValue()) && Get(CatalogValue(), "Type") == Some(Name("Catalog"))
    ensures GetRef(CatalogValue(), "Pages") == Some(2)
  {
    hide IsNameText, Find;
    NamesAreRegular();
    var es := CatalogValue().entries;
    assert |"Type"| != |"Pages"|;
    FindFirst(es, 0);
    FindFirst(es, 1);
  }

  lemma FontKeys()
    ensures WellFormed(FontValue()) && Get(FontValue(), "Type") == Some(Name("Font"))
    ensures Get(FontValue(), "Subtype") == Some(Name("Type1")) && Get(FontValue(), "BaseFont") == Some(Name("Helvetica"))
  {
    hide IsNameText, Find;
    NamesAreRegular();
    assert "Subtype"[0] != "Type"[0] && "BaseFont"[0] != "Type"[0] && "BaseFont"[0] != "Subtype"[0];
    FindFirst(FontValue().entries, 0);
    FindFirst(FontValue().entries, 1);
    FindFirst(FontValue().entries, 2);
  }

  lemma PagesKeys(kids: seq<Value>)
    requires forall i :: 0 <= i < |kids| ==> kids[i].Ref?
    ensures var v := PagesValue(kids);
            && WellFormed(v) && Get(v, "Type") == Some(Name("Pages"))
            && Get(v, "Kids") == Some(Arr(kids)) && Get(v, "Count") == Some(Num(|kids|))
  {
    hide IsNameText, Find;
    NamesAreRegular();
    var es := PagesValue(kids).entries;
    assert "Kids"[0] != "Type"[0] && "Count"[0] != "Type"[0] && "Count"[0] != "Kids"[0];
    FindFirst(es, 0);
    FindFirst(es, 1);
    FindFirst(es, 2);
    assert WellFormed(Arr(kids));
  }

  lemma PageKeys(font: nat, content: nat)
    ensures var v := Dict(PageEntries(font, content));
            && WellFormed(v) && Get(v, "Type") == Some(Name("Page")) && Get(v, "Parent") == Some(Ref(2))
            && Get(v, "Resources") == Some(ResourcesValue(font)) && GetRef(v, "Contents") == Some(content)
            && Get(v, "MediaBox") == Some(Arr([Num(0), Num(0), Num(612), Num(842)]))
  {
    hide IsNameText, Find, ResourcesValue;
    NamesAreRegular();
    ResourceKeys(font);
    var es := PageEntries(font, content);
    assert "Parent"[0] != "Type"[0];
    assert "Resources"[0] != "Type"[0] && "Resources"[0] != "Parent"[0] && "Resources"[0] != "MediaBox"[0];
    assert "Contents"[0] != "Type"[0] && "Contents"[0] != "Parent"[0] && "Contents"[0] != "MediaBox"[0] && "Contents"[0] != "Resources"[0];
    FindFirst(es, 0);
    FindFirst(es, 1);
    assert "MediaBox"[0] != "Type"[0] && "MediaBox"[0] != "Parent"[0];
    FindFirst(es, 2);
    FindFirst(es, 3);
    FindFirst(es, 4);
    assert WellFormed(es[2].value);
  }

  lemma ResourceKeys(font: nat)
    ensures WellFormed(ResourcesValue(font))
    ensures Get(ResourcesValue(font), "Font") == Some(Dict([Entry("F1", Ref(font))]))
  {
    hide IsNameText, Find;
    NamesAreRegular();
    var inner := [Entry("F1", Ref(font))];
    FindFirst(inner, 0);
    FindFirst(ResourcesValue(font).entries, 0);
    assert WellFormed(Dict(inner));
  }

  /** A page as the reader sees it: its sheet, one font, and the content stream whole. */
  function PageOf(content: string): PdfReader.Page {
    PdfReader.Page([Num(0), Num(0), Num(612), Num(842)], [PdfReader.Font("F1", "Helvetica")], content)
  }

  function PagesFor(contents: seq<string>): (pages: seq<PdfReader.Page>)
    ensures |pages| == |contents|
  {
    seq(|contents|, i requires 0 <= i < |contents| => PageOf(contents[i]))
  }

  lemma ReadPageAt(pdf: string, x: Xref, contents: seq<string>, p: nat)
    requires Indexed(pdf, x, Bodies(contents)) && p < |contents|
    ensures ReadPage(pdf, x, 2, Ref(5 + 2 * p)) == Some(PageOf(contents[p]))
  {
    hide Indexed, ReadDictionary, ReadStream, Get, GetRef, Print, WellFormed, PageEntries, ResourcesValue, PageBody, StreamBody;
    var objects := Bodies(contents);
    BodiesOfPage(contents, p);
    PageIsValue(3, 4 + 2 * p);
    PageKeys(3, 4 + 2 * p);
    ResourceKeys(3);
    FontKeys();
    FontIsValue();
    ReadDictionaryAt(pdf, x, objects, 5 + 2 * p, Dict(PageEntries(3, 4 + 2 * p)), "Page");
    ReadDictionaryAt(pdf, x, objects, 3, FontValue(), "Font");
    ReadStreamAt(pdf, x, objects, 4 + 2 * p, contents[p]);
    var fonts := [Entry("F1", Ref(3))];
    var helvetica := PdfReader.Font("F1", "Helvetica");
    assert fonts[1..] == [] && [helvetica] + [] == [helvetica];
    assert ReadFonts(pdf, x, fonts[1..]) == Some([]);
    assert ReadFonts(pdf, x, fonts) == Some([helvetica]);
  }

  lemma {:induction false} ReadKidsFrom(pdf: string, x: Xref, contents: seq<string>, p: nat)
    requires Indexed(pdf, x, Bodies(contents)) && p <= |contents|
    ensures ReadKids(pdf, x, 2, KidRefs(|contents|)[p..]) == Some(PagesFor(contents)[p..])
    decreases |contents| - p
  {
    hide Indexed, ReadPage;
    if p < |contents| {
      ReadPageAt(pdf, x, contents, p);
      ReadKidsFrom(pdf, x, contents, p + 1);
      var kids := KidRefs(|contents|)[p..];
      assert kids[0] == Ref(5 + 2 * p) && kids[1..] == KidRefs(|contents|)[p + 1..];
      assert PagesFor(contents)[p..] == [PageOf(contents[p])] + PagesFor(contents)[p + 1..];
    } else {
      assert KidRefs(|contents|)[p..] == [] && PagesFor(contents)[p..] == [];
    }
  }

  /**
   * Any list of content streams, whatever bytes they hold, survives the file:
   * every reference resolves to an object of the right kind and every stream
   * comes back whole and in order, each on a page whose one font resolves too.
   */
  lemma ReadContentsOfFile(contents: seq<string>)
    requires TableFits(Bodies(contents))
    ensures ReadPages(File(Bodies(contents))) == Some(PagesFor(contents))
  {
    hide Indexed, ReadDictionary, ReadKids, ReadXref, Get, GetRef, Print, WellFormed, CatalogValue, PagesValue, TrailerValue, File, PagesBody, CATALOG;
    var objects := Bodies(contents);
    var pdf := File(objects);
    FileIsIndexed(objects);
    TrailerKeys(|objects| + 1);
    var x := Xref(Offsets(objects), TrailerValue(|objects| + 1));
    CatalogKeys();
    CatalogIsValue();
    ReadDictionaryAt(pdf, x, objects, 1, CatalogValue(), "Catalog");
    var kids := KidRefs(|contents|);
    PagesKeys(kids);
    PagesIsValue(|contents|);
    ReadDictionaryAt(pdf, x, objects, 2, PagesValue(kids), "Pages");
    ReadKidsFrom(pdf, x, contents, 0);
    assert kids[0..] == kids && PagesFor(contents)[0..] == PagesFor(contents);
  }

  // ---------------------------------------------------------------- whole documents

  predicate AllClean(lines: seq<string>) {
    forall i :: 0 <= i < |lines| ==> IsClean(lines[i])
  }

  lemma {:induction false} WrapAllIsClean(lines: seq<string>)
    ensures AllClean(WrapAll(lines))
  {
    if lines != [] {
      WrapAllIsClean(lines[..|lines| - 1]);
      var text := lines[|lines| - 1];
      WrapGivesCleanLines(text, WIDTH);
      assert forall i :: 0 <= i < |Wrap(text, WIDTH)| ==> SafeText(text) == "" || IsTextLine(Wrap(text, WIDTH)[i]);
    }
  }

  lemma {:induction false} PagesAreClean(lines: seq<string>)
    requires AllClean(lines)
    ensures forall p :: 0 <= p < |Pages(lines)| ==> AllClean(Pages(lines)[p])
  {
    if |lines| > PAGE {
      PagesAreClean(lines[PAGE..]);
    }
  }

  lemma {:induction false} WalkIsDrawable(w: Writer, firstPage: bool, page: seq<string>, k: nat)
    requires k <= |page| && AllClean(page)
    ensures forall i :: 0 <= i < |Walk(w, firstPage, page, k).0| ==> IsDrawable(Walk(w, firstPage, page, k).0[i])
  {
    hide IsClean, IsHeading;
    if k > 0 {
      WalkIsDrawable(w, firstPage, page, k - 1);
    }
  }

  /** What a reader should see: the drawn commands of every page. */
  function Layout(w: Writer, pages: seq<seq<string>>): (r: seq<seq<Show>>)
    ensures |r| == |pages|
  {
    seq(|pages|, i requires 0 <= i < |pages| => PageShows(w, i == 0, pages[i]))
  }

  /** What a viewer should see of a layout. */
  function Seen(layout: seq<seq<Show>>): (drawings: seq<seq<Drawn>>)
    ensures |drawings| == |layout|
  {
    seq(|layout|, i requires 0 <= i < |layout| => AllDrawn(layout[i]))
  }

  lemma {:induction false} ReadAllContents(contents: seq<string>, layout: seq<seq<Show>>)
    requires |contents| == |layout|
    requires forall i :: 0 <= i < |contents| ==> ReadContent(contents[i]) == Some(AllDrawn(layout[i]))
    ensures ReadDrawings(PagesFor(contents)) == Some(Seen(layout))
  {
    hide ReadContent;
    if contents != [] {
      ReadAllContents(contents[1..], layout[1..]);
      assert PagesFor(contents)[1..] == PagesFor(contents[1..]);
      assert PagesFor(contents)[0].fonts[0].name == "F1";
      assert ReadDrawing(PagesFor(contents)[0]) == Some(AllDrawn(layout[0]));
      assert [AllDrawn(layout[0])] + Seen(layout[1..]) == Seen(layout);
    }
  }

  /** The pages a writer lays out for a list of source lines. */
  function PagesOf(w: Writer, lines: seq<string>): seq<seq<string>> {
    Pages(WrapAll(SourceLines(w, lines)))
  }

  /**
   * Both writers, any lines: while the offsets have ten digits, the reader gives
   * back every page's drawn commands, with sizes, heights and decoded text.
   */
  lemma ReadBack(w: Writer, lines: seq<string>)
    requires TableFits(Bodies(Contents(w, PagesOf(w, lines))))
    ensures ReadDocument(Document(w, lines)) == Some(Seen(Layout(w, PagesOf(w, lines))))
  {
    hide ReadPages, ReadContent, ReadDrawings, Seen, PagesFor, Commands, PageShows, Pages, WrapAll, SourceLines, File, TableFits, Bodies, IsDrawable;
    var pages := PagesOf(w, lines);
    WrapAllIsClean(SourceLines(w, lines));
    PagesAreClean(WrapAll(SourceLines(w, lines)));
    ReadContentsOfFile(Contents(w, pages));
    forall i | 0 <= i < |pages|
      ensures ReadContent(Contents(w, pages)[i]) == Some(AllDrawn(Layout(w, pages)[i]))
    {
      DrawableReads(w, i == 0, pages[i]);
    }
    ReadAllContents(Contents(w, pages), Layout(w, pages));
  }

  lemma DrawableReads(w: Writer, firstPage: bool, page: seq<string>)
    requires AllClean(page)
    ensures ReadContent(Commands(PageShows(w, firstPage, page))) == Some(AllDrawn(PageShows(w, firstPage, page)))
  {
    WalkIsDrawable(w, firstPage, page, |page|);
    ReadCommands(PageShows(w, firstPage, page));
  }

  // The text alone, without sizes and heights.

  function Texts(drawing: seq<Drawn>): seq<string> {
    if drawing == [] then [] else Texts(drawing[..|drawing| - 1]) + [drawing[|drawing| - 1].text]
  }

  function TextsOfPages(layout: seq<seq<Drawn>>): seq<string> {
    if layout == [] then [] else TextsOfPages(layout[..|layout| - 1]) + Texts(layout[|layout| - 1])
  }

  function NonBlank(lines: seq<string>): seq<string> {
    if lines == [] then []
    else NonBlank(lines[..|lines| - 1]) + (if lines[|lines| - 1] == "" then [] else [lines[|lines| - 1]])
  }

  lemma {:induction false} TextsOfWalk(w: Writer, firstPage: bool, page: seq<string>, k: nat)
    requires k <= |page|
    ensures Texts(AllDrawn(Walk(w, firstPage, page, k).0)) == NonBlank(page[..k])
  {
    if k > 0 {
      TextsOfWalk(w, firstPage, page, k - 1);
      assert page[..k][..k - 1] == page[..k - 1];
      var before, after := Walk(w, firstPage, page, k - 1).0, Walk(w, firstPage, page, k).0;
      if page[k - 1] != "" {
        assert AllDrawn(after)[..|before|] == AllDrawn(before);
      }
    }
  }

  lemma {:induction false} NonBlankOfConcat(a: seq<string>, b: seq<string>)
    ensures NonBlank(a + b) == NonBlank(a) + NonBlank(b)
  {
    if b == [] {
      assert a + b == a;
    } else {
      NonBlankOfConcat(a, b[..|b| - 1]);
      assert (a + b)[..|a + b| - 1] == a + b[..|b| - 1];
    }
  }

  lemma {:induction false} TextsOfLayout(w: Writer, pages: seq<seq<string>>, n: nat)
    requires n <= |pages|
    ensures TextsOfPages(Seen(Layout(w, pages))[..n]) == NonBlank(Concat(pages[..n]))
  {
    hide PageShows, Texts, NonBlank;
    if n > 0 {
      TextsOfLayout(w, pages, n - 1);
      var seen := Seen(Layout(w, pages))[..n];
      assert seen[..n - 1] == Seen(Layout(w, pages))[..n - 1];
      TextsOfPage(w, n - 1 == 0, pages[n - 1]);
      ConcatOfSnoc(pages[..n - 1], pages[n - 1]);
      assert pages[..n] == pages[..n - 1] + [pages[n - 1]];
      NonBlankOfConcat(Concat(pages[..n - 1]), pages[n - 1]);
    } else {
      NonBlankOfNothing();
    }
  }

  lemma NonBlankOfNothing()
    ensures NonBlank([]) == []
  {
  }

  lemma TextsOfPage(w: Writer, firstPage: bool, page: seq<string>)
    ensures Texts(AllDrawn(PageShows(w, firstPage, page))) == NonBlank(page)
  {
    TextsOfWalk(w, firstPage, page, |page|);
    assert page[..|page|] == page;
  }

  /** The reader gets back exactly the non-blank wrapped lines, in order. */
  lemma ReadBackText(w: Writer, lines: seq<string>)
    requires TableFits(Bodies(Contents(w, PagesOf(w, lines))))
    ensures var read := ReadDocument(Document(w, lines));
            read.Some? && TextsOfPages(read.value) == NonBlank(WrapAll(SourceLines(w, lines)))
  {
    hide ReadDocument, Document, Layout, Contents, Bodies, TableFits, NonBlank, TextsOfPages, WrapAll;
    ReadBack(w, lines);
    var pages := PagesOf(w, lines);
    PagesArePaging(WrapAll(SourceLines(w, lines)));
    TextsOfLayout(w, pages, |pages|);
    assert pages[..|pages|] == pages;
    assert Seen(Layout(w, pages))[..|pages|] == Seen(Layout(w, pages));
  }

  // ---------------------------------------------------------------- bytes and characters

  /** Text of seven-bit characters, one byte each in the file. */
  predicate Ascii(s: string) {
    forall i :: 0 <= i < |s| ==> s[i] < '\U{80}'
  }

  lemma {:induction false} EscapedIsPrintable(s: string)
    requires Printable(s)
    ensures Printable(EscapeOnce(s))
  {
    if s != [] {
      EscapedIsPrintable(s[1..]);
    }
  }

  lemma CommandIsAscii(show: Show)
    requires IsDrawable(show)
    ensures Ascii(Command(show))
  {
    hide SafeText, ReplaceChar, EscapeOnce;
    ChainIsOnePass(SafeText(show.text));
    CleanIffFixed(show.text);
    EscapedIsPrintable(show.text);
    assert Printable(Escape(show.text));
    assert Ascii(Decimal.PrintInt(show.y));
  }

  lemma {:induction false} CommandsAreAscii(shows: seq<Show>)
    requires forall i :: 0 <= i < |shows| ==> IsDrawable(shows[i])
    ensures Ascii(Commands(shows))
  {
    hide Command, IsDrawable;
    if shows != [] {
      CommandsAreAscii(shows[..|shows| - 1]);
      CommandIsAscii(shows[|shows| - 1]);
    }
  }

  lemma {:induction false} ReferencesAreAscii(refs: seq<string>)
    requires forall i :: 0 <= i < |refs| ==> Ascii(refs[i])
    ensures Ascii(Join(refs))
  {
    if |refs| > 1 {
      ReferencesAreAscii(refs[1..]);
    }
  }

  lemma StreamBodyIsAscii(content: string)
    requires Ascii(content)
    ensures Ascii(StreamBody(content))
  {
    assert Decimal.AllDigits(Decimal.Print(|content|));
  }

  lemma AsciiOfConcat(a: string, b: string)
    requires Ascii(a) && Ascii(b)
    ensures Ascii(a + b)
  {
  }

  lemma PageHeadIsAscii()
    ensures Ascii("<< " + "/Type /Page " + "/Parent 2 0 R " + "/MediaBox [0 0 612 842] ") && Ascii(">>")
  {
  }

  lemma PagePartsAreAscii(font: nat, content: nat)
    ensures Ascii("<< " + "/Type /Page " + "/Parent 2 0 R " + "/MediaBox [0 0 612 842] ")
    ensures Ascii("/Resources << /Font << /F1 " + (Decimal.Print(font) + " 0 R") + " >> >> ")
    ensures Ascii("/Contents " + (Decimal.Print(content) + " 0 R") + " ")
    ensures Ascii(">>")
  {
    PageHeadIsAscii();
    assert Decimal.AllDigits(Decimal.Print(font)) && Decimal.AllDigits(Decimal.Print(content));
  }

  lemma PageBodyIsAscii(font: nat, content: nat)
    ensures Ascii(PageBody(font, content))
  {
    hide Ascii;
    PagePartsAreAscii(font, content);
    var head := "<< " + "/Type /Page " + "/Parent 2 0 R " + "/MediaBox [0 0 612 842] ";
    var resources := "/Resources << /Font << /F1 " + (Decimal.Print(font) + " 0 R") + " >> >> ";
    var contents := "/Contents " + (Decimal.Print(content) + " 0 R") + " ";
    AsciiOfConcat(head, resources);
    AsciiOfConcat(head + resources, contents);
    AsciiOfConcat(head + resources + contents, ">>");
  }

  lemma PagesTextIsAscii(refs: string, count: string)
    requires Ascii(refs) && Ascii(count)
    ensures Ascii("<< " + "/Type /Pages " + ("/Kids [" + refs + "] ") + ("/Count " + count + " ") + ">>")
  {
    hide Ascii;
    assert Ascii("<< " + "/Type /Pages ") && Ascii("/Kids [") && Ascii("] ") && Ascii("/Count ") && Ascii(" ") && Ascii(">>") by {
      ShortTextsAreAscii();
    }
    AsciiOfConcat("/Kids [", refs);
    AsciiOfConcat("/Kids [" + refs, "] ");
    AsciiOfConcat("/Count ", count);
    AsciiOfConcat("/Count " + count, " ");
    var a, b := "/Kids [" + refs + "] ", "/Count " + count + " ";
    AsciiOfConcat("<< " + "/Type /Pages ", a);
    AsciiOfConcat("<< " + "/Type /Pages " + a, b);
    AsciiOfConcat("<< " + "/Type /Pages " + a + b, ">>");
  }

  lemma ShortTextsAreAscii()
    ensures Ascii("<< " + "/Type /Pages ") && Ascii("/Kids [") && Ascii("] ") && Ascii("/Count ") && Ascii(" ") && Ascii(">>")
  {
  }

  lemma PagesBodyIsAscii(n: nat)
    ensures Ascii(PagesBody(PageReferences(n)))
  {
    var refs := PageReferences(n);
    forall i | 0 <= i < n
      ensures Ascii(refs[i])
    {
      assert Decimal.AllDigits(Decimal.Print(5 + 2 * i));
    }
    ReferencesAreAscii(refs);
    assert Decimal.AllDigits(Decimal.Print(n));
    assert Ascii(Decimal.Print(n));
    hide Ascii, Join;
    PagesTextIsAscii(Join(refs), Decimal.Print(n));
  }

  lemma FixedBodiesAreAscii()
    ensures Ascii(CATALOG) && Ascii(FONT)
  {
  }

  lemma BodiesAreAscii(contents: seq<string>)
    requires forall p :: 0 <= p < |contents| ==> Ascii(contents[p])
    ensures forall i :: 0 <= i < |Bodies(contents)| ==> Ascii(Bodies(contents)[i])
  {
    hide Ascii, StreamBody, PageBody, PagesBody;
    FixedBodiesAreAscii();
    PagesBodyIsAscii(|contents|);
    forall i | 0 <= i < |Bodies(contents)|
      ensures Ascii(Bodies(contents)[i])
    {
      if i >= 3 {
        if i % 2 == 1 {
          StreamBodyIsAscii(contents[(i - 3) / 2]);
        } else {
          PageBodyIsAscii(3, i);
        }
      }
    }
  }

  lemma ObjectTextIsAscii(number: nat, body: string)
    requires Ascii(body)
    ensures Ascii(ObjectText(number, body))
  {
    assert Decimal.AllDigits(Decimal.Print(number));
  }

  lemma TableEntryIsAscii(offset: nat)
    ensures Ascii(TableEntry(offset))
  {
    assert Decimal.AllDigits(Decimal.PadStart(Decimal.Print(offset), 10));
  }

  lemma {:induction false} PrefixIsAscii(objects: seq<string>, k: nat)
    requires k <= |objects| && forall i :: 0 <= i < |objects| ==> Ascii(objects[i])
    ensures Ascii(Prefix(objects, k)) && Ascii(Table(objects, k))
  {
    hide ObjectText, TableEntry, Offset;
    if k > 0 {
      PrefixIsAscii(objects, k - 1);
      ObjectTextIsAscii(k, objects[k - 1]);
      TableEntryIsAscii(Offset(objects, k));
    }
  }

  lemma FileIsAscii(objects: seq<string>)
    requires forall i :: 0 <= i < |objects| ==> Ascii(objects[i])
    ensures Ascii(File(objects))
  {
    hide Prefix, Table;
    PrefixIsAscii(objects, |objects|);
    var n, at := Decimal.Print(|objects| + 1), Decimal.Print(|Prefix(objects, |objects|)|);
    assert Decimal.AllDigits(n) && Decimal.AllDigits(at);
    assert Ascii("xref\n0 " + n + "\n" + FREE);
    assert Ascii(Trailer(objects));
  }

  /** Both writers emit seven-bit text only, so character offsets and lengths are byte offsets and lengths. */
  lemma DocumentIsAscii(w: Writer, lines: seq<string>)
    ensures Ascii(Document(w, lines))
  {
    hide Commands, PageShows, Pages, WrapAll, SourceLines, File, Bodies, IsDrawable, Ascii;
    var pages := PagesOf(w, lines);
    WrapAllIsClean(SourceLines(w, lines));
    PagesAreClean(WrapAll(SourceLines(w, lines)));
    forall i | 0 <= i < |pages|
      ensures Ascii(Contents(w, pages)[i])
    {
      PageIsAscii(w, i == 0, pages[i]);
    }
    BodiesAreAscii(Contents(w, pages));
    FileIsAscii(Bodies(Contents(w, pages)));
  }

  lemma PageIsAscii(w: Writer, firstPage: bool, page: seq<string>)
    requires AllClean(page)
    ensures Ascii(Commands(PageShows(w, firstPage, page)))
  {
    WalkIsDrawable(w, firstPage, page, |page|);
    CommandsAreAscii(PageShows(w, firstPage, page));
  }
}
