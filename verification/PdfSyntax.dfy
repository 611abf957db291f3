// The subset of PDF object syntax that the writers emit (ISO 32000-1 section 7.3):
// names, non-negative integers, references of generation 0, arrays and dictionaries.
module PdfSyntax {
  import opened Wrappers
  import Decimal

  datatype Value =
    | Name(id: string)
    | Num(n: nat)
    | Ref(obj: nat)
    | Arr(items: seq<Value>)
    | Dict(entries: seq<Entry>)

  datatype Entry = Entry(key: string, value: Value)

  predicate IsDelimiter(c: char) {
    c == '(' || c == ')' || c == '<' || c == '>' || c == '[' || c == ']' || c == '{' || c == '}' || c == '/' || c == '%'
  }

  predicate IsRegular(c: char) {
    '!' <= c <= '~' && !IsDelimiter(c)
  }

  predicate IsNameText(s: string) {
    s != [] && forall i :: 0 <= i < |s| ==> IsRegular(s[i])
  }

  predicate WellFormed(v: Value) {
    match v
    case Name(id) => IsNameText(id)
    case Num(_) => true
    case Ref(_) => true
    case Arr(items) => forall i :: 0 <= i < |items| ==> WellFormed(items[i])
    case Dict(entries) => forall i :: 0 <= i < |entries| ==> IsNameText(entries[i].key) && WellFormed(entries[i].value)
  }

  // ---------------------------------------------------------------- printing

  function Print(v: Value): string
    decreases v
  {
    match v
    case Name(id) => "/" + id
    case Num(n) => Decimal.Print(n)
    case Ref(obj) => Decimal.Print(obj) + " 0 R"
    case Arr(items) => "[" + Inner(items) + "]"
    case Dict(entries) => "<< " + PrintEntries(entries) + ">>"
  }

  /** The items of an array as they stand between its brackets. */
  function Inner(items: seq<Value>): string
    decreases items, 1
  {
    if items == [] then "" else Print(items[0]) + PrintTail(items[1..])
  }

  function PrintTail(items: seq<Value>): string
    decreases items
  {
    if items == [] then "" else " " + Print(items[0]) + PrintTail(items[1..])
  }

  function PrintEntries(entries: seq<Entry>): string
    decreases entries
  {
    if entries == [] then ""
    else "/" + entries[0].key + " " + Print(entries[0].value) + " " + PrintEntries(entries[1..])
  }

  // ---------------------------------------------------------------- reading

  /** Drops p from the front of s, if it is there. */
  function Expect(s: string, p: string): (r: Option<string>)
    ensures r.Some? ==> s == p + r.value
  {
    if p <= s then Some(s[|p|..]) else None
  }

  function Skip(s: string): (r: string)
    ensures |r| <= |s|
  {
    if s != [] && s[0] == ' ' then Skip(s[1..]) else s
  }

  function NameRun(s: string): (k: nat)
    ensures k <= |s|
  {
    if s != [] && IsRegular(s[0]) then 1 + NameRun(s[1..]) else 0
  }

  /** True when s starts with the rest of a reference after its object number. */
  predicate IsRefTail(s: string) {
    StartsRefTail(s) && (|s| == 4 || !IsRegular(s[4]))
  }

  predicate StartsRefTail(s: string) {
    |s| >= 4 && s[0] == ' ' && s[1] == '0' && s[2] == ' ' && s[3] == 'R'
  }

  function Read(s: string): (r: Option<(Value, string)>)
    ensures r.Some? ==> |r.value.1| < |s|
    decreases |s|, 0
  {
    if s == [] then None
    else if s[0] == '/' then
      var k := NameRun(s[1..]);
      if k == 0 then None else Some((Name(s[1..][..k]), s[1..][k..]))
    else if Decimal.IsDigit(s[0]) then
      var (n, rest) :- Decimal.ReadNat(s);
      if IsRefTail(rest) then Some((Ref(n), rest[4..])) else Some((Num(n), rest))
    else if s[0] == '[' then
      var (items, rest) :- ReadItems(s[1..]);
      Some((Arr(items), rest))
    else if "<<" <= s then
      var (entries, rest) :- ReadEntries(s[2..]);
      Some((Dict(entries), rest))
    else None
  }

  function ReadItems(s: string): (r: Option<(seq<Value>, string)>)
    ensures r.Some? ==> |r.value.1| < |s|
    decreases |s|, 1
  {
    var t := Skip(s);
    if t == [] then None
    else if t[0] == ']' then Some(([], t[1..]))
    else
      var (v, rest) :- Read(t);
      var (vs, end) :- ReadItems(rest);
      Some(([v] + vs, end))
  }

  function ReadEntries(s: string): (r: Option<(seq<Entry>, string)>)
    ensures r.Some? ==> |r.value.1| < |s|
    decreases |s|, 1
  {
    var t := Skip(s);
    if ">>" <= t then Some(([], t[2..]))
    else
      var u :- Expect(t, "/");
      var k := NameRun(u);
      var (v, rest) :- Read(Skip(u[k..]));
      var (es, end) :- ReadEntries(rest);
      Some(([Entry(u[..k], v)] + es, end))
  }

  // ---------------------------------------------------------------- round trip

  lemma ExpectHere(p: string, rest: string)
    ensures Expect(p + rest, p) == Some(rest)
  {
    assert (p + rest)[|p|..] == rest;
  }

  lemma {:induction false} NameRunOf(id: string, rest: string)
    requires forall i :: 0 <= i < |id| ==> IsRegular(id[i])
    requires rest == [] || !IsRegular(rest[0])
    ensures NameRun(id + rest) == |id|
  {
    if id == [] {
      assert id + rest == rest;
    } else {
      NameRunOf(id[1..], rest);
      assert (id + rest)[1..] == id[1..] + rest;
    }
  }

  /** Text that may follow a printed value without being taken for part of it. */
  predicate Ends(rest: string) {
    && (rest == [] || !IsRegular(rest[0]))
    && !StartsRefTail(rest)
  }

  lemma FirstOfPrint(v: Value)
    ensures var s := Print(v);
            s != [] && s[0] != ' ' && s[0] != ']' && s[0] != 'R' && !(">>" <= s)
  {
    match v
    case Num(n) => assert Decimal.IsDigit(Decimal.Print(n)[0]);
    case Ref(n) => assert Decimal.IsDigit(Decimal.Print(n)[0]);
    case _ =>
  }

  /** A printed value is read back, with exactly the text that followed it. */
  lemma {:induction false} ReadPrint(v: Value, rest: string)
    requires WellFormed(v) && Ends(rest)
    ensures Read(Print(v) + rest) == Some((v, rest))
    decreases v, 1
  {
    match v
    case Name(id) => ReadPrintedName(id, rest);
    case Num(n) => ReadPrintedNumber(n, rest);
    case Ref(obj) => ReadPrintedRef(obj, rest);
    case Arr(items) =>
      ReadPrintItems(items, rest);
      ReadPrintedArray(Inner(items) + "]" + rest, items, rest);
      ShapeOfArray(items, rest);
    case Dict(entries) =>
      ReadPrintEntries(entries, rest);
      ReadPrintedDict(PrintEntries(entries) + ">>" + rest, entries, rest);
      ShapeOfDictionary(entries, rest);
  }

  lemma ShapeOfArray(items: seq<Value>, rest: string)
    ensures Print(Arr(items)) + rest == "[" + (Inner(items) + "]" + rest)
  {
  }

  lemma ShapeOfDictionary(entries: seq<Entry>, rest: string)
    ensures Print(Dict(entries)) + rest == "<<" + (" " + (PrintEntries(entries) + ">>" + rest))
  {
  }

  lemma ShapeOfEntries(entries: seq<Entry>, rest: string)
    requires entries != []
    ensures PrintEntries(entries) + ">>" + rest ==
            "/" + (entries[0].key + (" " + (Print(entries[0].value) + (" " + (PrintEntries(entries[1..]) + ">>" + rest)))))
  {
  }

  lemma ShapeOfTail(items: seq<Value>, rest: string)
    requires items != []
    ensures PrintTail(items) + ("]" + rest) == " " + (Inner(items) + "]" + rest)
  {
  }

  lemma BlankBeforeItems(s: string)
    ensures ReadItems(" " + s) == ReadItems(s)
  {
    SkipBlank(s);
  }

  lemma ReadPrintedName(id: string, rest: string)
    requires IsNameText(id) && Ends(rest)
    ensures Read("/" + id + rest) == Some((Name(id), rest))
  {
    NameRunOf(id, rest);
    var s := "/" + id + rest;
    assert s[1..] == id + rest;
    assert s[1..][..|id|] == id && s[1..][|id|..] == rest;
  }

  lemma ReadPrintedArray(inner: string, items: seq<Value>, rest: string)
    requires ReadItems(inner) == Some((items, rest))
    ensures Read("[" + inner) == Some((Arr(items), rest))
  {
    assert ("[" + inner)[1..] == inner;
  }

  lemma ReadPrintedDict(inner: string, entries: seq<Entry>, rest: string)
    requires ReadEntries(inner) == Some((entries, rest))
    ensures Read("<<" + (" " + inner)) == Some((Dict(entries), rest))
  {
    var s := "<<" + (" " + inner);
    assert s[2..] == " " + inner;
    SkipBlank(inner);
    assert ReadEntries(" " + inner) == ReadEntries(inner);
  }

  lemma SkipBlank(s: string)
    ensures Skip(" " + s) == Skip(s)
  {
    assert (" " + s)[1..] == s;
  }

  lemma ReadPrintedNumber(n: nat, rest: string)
    requires Ends(rest)
    ensures Read(Decimal.Print(n) + rest) == Some((Num(n), rest))
  {
    assert rest != [] ==> !Decimal.IsDigit(rest[0]);
    Decimal.ReadPrinted(n, rest);
    assert Decimal.IsDigit((Decimal.Print(n) + rest)[0]);
  }

  lemma ReadPrintedRef(obj: nat, rest: string)
    requires Ends(rest)
    ensures Read(Decimal.Print(obj) + " 0 R" + rest) == Some((Ref(obj), rest))
  {
    var tail := " 0 R" + rest;
    assert Decimal.Print(obj) + " 0 R" + rest == Decimal.Print(obj) + tail;
    Decimal.ReadPrinted(obj, tail);
    assert Decimal.IsDigit((Decimal.Print(obj) + tail)[0]);
    assert tail[4..] == rest;
  }

  lemma {:induction false} ReadPrintItems(items: seq<Value>, rest: string)
    requires forall i :: 0 <= i < |items| ==> WellFormed(items[i])
    ensures ReadItems(Inner(items) + "]" + rest) == Some((items, rest))
    decreases items, 0
  {
    var end := "]" + rest;
    if items == [] {
      assert "" + "]" + rest == end;
    } else {
      var v := items[0];
      var after := PrintTail(items[1..]) + end;
      FirstOfPrint(v);
      assert Inner(items) + "]" + rest == Print(v) + after;
      ReadPrintTail(items[1..], rest);
      EndsAfterItem(items[1..], rest);
      ReadPrint(v, after);
      assert [v] + items[1..] == items;
    }
  }

  lemma EndsAfterItem(items: seq<Value>, rest: string)
    ensures Ends(PrintTail(items) + ("]" + rest))
  {
    if items != [] {
      FirstOfPrint(items[0]);
      var t := Print(items[0]) + (PrintTail(items[1..]) + ("]" + rest));
      assert PrintTail(items) + ("]" + rest) == " " + t;
      NeverRefTail(items[0], items[1..], rest);
    }
  }

  /** What follows a blank inside an array never looks like the tail of a reference. */
  lemma NeverRefTail(v: Value, items: seq<Value>, rest: string)
    ensures var t := Print(v) + (PrintTail(items) + ("]" + rest));
            |t| >= 3 ==> !(t[0] == '0' && t[1] == ' ' && t[2] == 'R')
  {
    var tail := PrintTail(items) + ("]" + rest);
    var t := Print(v) + tail;
    FirstOfPrint(v);
    if v.Num? || v.Ref? {
      var d := Decimal.Print(if v.Num? then v.n else v.obj);
      if |d| > 1 {
        assert Decimal.IsDigit(d[1]) && t[1] == d[1];
      } else if v.Ref? {
        assert t[2] == Print(v)[2] == '0';
      } else if items != [] {
        FirstOfPrint(items[0]);
        assert tail == " " + (Print(items[0]) + (PrintTail(items[1..]) + ("]" + rest)));
        assert t[2] == tail[1] == Print(items[0])[0];
      } else {
        assert t[1] == tail[0] == ']';
      }
    }
  }

  lemma {:induction false} ReadPrintTail(items: seq<Value>, rest: string)
    requires forall i :: 0 <= i < |items| ==> WellFormed(items[i])
    ensures ReadItems(PrintTail(items) + ("]" + rest)) == Some((items, rest))
    decreases items, 2
  {
    if items != [] {
      ReadPrintItems(items, rest);
      ShapeOfTail(items, rest);
      BlankBeforeItems(Inner(items) + "]" + rest);
    } else {
      assert PrintTail(items) + ("]" + rest) == "]" + rest;
    }
  }

  lemma ReadPrintedEntry(key: string, v: Value, printed: string, more: string)
    requires IsNameText(key) && printed != [] && printed[0] != ' '
    requires Read(printed + (" " + more)) == Some((v, " " + more))
    ensures var s := "/" + (key + (" " + (printed + (" " + more))));
            ReadEntries(s) == match ReadEntries(more)
                              case Some(found) => Some(([Entry(key, v)] + found.0, found.1))
                              case None => None
  {
    hide Read, IsNameText;
    var body := printed + (" " + more);
    var u := key + (" " + body);
    KeyIsRegular(key);
    ExpectHere("/", u);
    NameRunOf(key, " " + body);
    assert u[|key|..] == " " + body && u[..|key|] == key;
    SkipBlank(body);
    SkipBlank(more);
    assert ReadEntries(" " + more) == ReadEntries(more);
  }

  lemma KeyIsRegular(key: string)
    requires IsNameText(key)
    ensures key != [] && forall i :: 0 <= i < |key| ==> IsRegular(key[i])
  {
  }

  lemma {:induction false} ReadPrintEntries(entries: seq<Entry>, rest: string)
    requires forall i :: 0 <= i < |entries| ==> IsNameText(entries[i].key) && WellFormed(entries[i].value)
    ensures ReadEntries(PrintEntries(entries) + ">>" + rest) == Some((entries, rest))
    decreases entries
  {
    if entries == [] {
      assert "" + ">>" + rest == ">>" + rest;
    } else {
      var e := entries[0];
      assert IsNameText(e.key) && WellFormed(e.value);
      var more := PrintEntries(entries[1..]) + ">>" + rest;
      FirstOfPrint(e.value);
      assert more[0] == '/' || more[0] == '>';
      ReadPrint(e.value, " " + more);
      ReadPrintEntries(entries[1..], rest);
      ReadPrintedEntry(e.key, e.value, Print(e.value), more);
      ShapeOfEntries(entries, rest);
      assert [e] + entries[1..] == entries;
    }
  }

  // ---------------------------------------------------------------- lookup

  /** The value of a key: the first entry that carries it. */
  function Get(v: Value, key: string): Option<Value> {
    if !v.Dict? then None else Find(v.entries, key)
  }

  function Find(entries: seq<Entry>, key: string): Option<Value> {
    if entries == [] then None
    else if entries[0].key == key then Some(entries[0].value)
    else Find(entries[1..], key)
  }
}
