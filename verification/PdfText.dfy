// Cleaning, splitting and escaping of text for the two PDF writers, and the
// literal-string decoder of ISO 32000-1 section 7.3.4.2 that undoes the escaping.
module PdfText {
  import opened Wrappers
  import Text

  predicate IsPrintable(c: char) {
    ' ' <= c <= '~'
  }

  predicate Printable(s: string) {
    forall i :: 0 <= i < |s| ==> IsPrintable(s[i])
  }

  // ---------------------------------------------------------------- cleaning

  /** The three typographic replacements, then a blank for anything outside 0x20..0x7E. */
  function Plain(c: char): char {
    if c == '\U{2013}' || c == '\U{2014}' then '-'
    else if c == '\U{201C}' || c == '\U{201D}' then '\"'
    else if c == '\U{2018}' || c == '\U{2019}' then '\''
    else if IsPrintable(c) then c
    else ' '
  }

  function PlainText(s: string): (r: string)
    ensures Printable(r) && |r| == |s|
  {
    seq(|s|, i requires 0 <= i < |s| => Plain(s[i]))
  }

  /** replace(/\s+/g, ' ') on text whose only white space is the blank. */
  function Collapse(s: string): string {
    if s == [] then []
    else if s[0] == ' ' && |s| > 1 && s[1] == ' ' then Collapse(s[1..])
    else [s[0]] + Collapse(s[1..])
  }

  function SafeText(s: string): string {
    Text.Trim(Collapse(PlainText(s)))
  }

  predicate NoDoubleBlank(s: string) {
    forall i :: 0 <= i < |s| - 1 ==> s[i] != ' ' || s[i + 1] != ' '
  }

  /** What cleaning promises: printable ASCII, single blanks, none at either end. */
  predicate IsClean(s: string) {
    && Printable(s)
    && NoDoubleBlank(s)
    && (s != [] ==> s[0] != ' ' && s[|s| - 1] != ' ')
  }

  lemma {:induction false} CollapseIsSingle(s: string)
    requires Printable(s)
    ensures Printable(Collapse(s)) && NoDoubleBlank(Collapse(s))
    ensures s != [] ==> Collapse(s) != [] && Collapse(s)[0] == s[0]
  {
    if s != [] {
      CollapseIsSingle(s[1..]);
    }
  }

  lemma {:induction false} TrimIsClean(s: string)
    requires Printable(s) && NoDoubleBlank(s)
    ensures IsClean(Text.Trim(s))
    decreases |s|
  {
    if s == [] {
    } else if s[0] == ' ' {
      TrimIsClean(s[1..]);
    } else if s[|s| - 1] == ' ' {
      TrimIsClean(s[..|s| - 1]);
    }
  }

  lemma SafeTextIsClean(s: string)
    ensures IsClean(SafeText(s))
  {
    CollapseIsSingle(PlainText(s));
    TrimIsClean(Collapse(PlainText(s)));
  }

  lemma {:induction false} CollapseOfSingle(s: string)
    requires NoDoubleBlank(s)
    ensures Collapse(s) == s
  {
    if s != [] {
      CollapseOfSingle(s[1..]);
    }
  }

  /** Cleaning leaves exactly the clean texts alone, so escaping may clean again. */
  lemma CleanIffFixed(s: string)
    ensures IsClean(s) <==> SafeText(s) == s
  {
    SafeTextIsClean(s);
    if IsClean(s) {
      assert PlainText(s) == s;
      CollapseOfSingle(s);
    }
  }

  /** The non-blank characters of a text, in order. */
  function Ink(s: string): string {
    if s == [] then [] else (if s[0] == ' ' then [] else [s[0]]) + Ink(s[1..])
  }

  lemma {:induction false} InkOfConcat(a: string, b: string)
    ensures Ink(a + b) == Ink(a) + Ink(b)
  {
    if a == [] {
      assert a + b == b;
    } else {
      InkOfConcat(a[1..], b);
      assert (a + b)[1..] == a[1..] + b;
      var h := if a[0] == ' ' then [] else [a[0]];
      var x, y := Ink(a[1..]), Ink(b);
      assert Ink(a + b) == h + (x + y);
      assert h + (x + y) == (h + x) + y;
    }
  }

  lemma {:induction false} InkOfCollapse(s: string)
    ensures Ink(Collapse(s)) == Ink(s)
  {
    if s != [] {
      InkOfCollapse(s[1..]);
      InkOfConcat([s[0]], Collapse(s[1..]));
      InkOfConcat([s[0]], s[1..]);
    }
  }

  lemma {:induction false} InkOfTrim(s: string)
    requires Printable(s)
    ensures Ink(Text.Trim(s)) == Ink(s)
    decreases |s|
  {
    if s == [] {
    } else if s[0] == ' ' {
      InkOfTrim(s[1..]);
    } else if s[|s| - 1] == ' ' {
      InkOfTrim(s[..|s| - 1]);
      InkOfConcat(s[..|s| - 1], [' ']);
      assert s == s[..|s| - 1] + [' '];
    }
  }

  predicate IsDash(c: char) {
    c == '\U{2013}' || c == '\U{2014}'
  }

  predicate IsDoubleQuote(c: char) {
    c == '\U{201C}' || c == '\U{201D}'
  }

  predicate IsSingleQuote(c: char) {
    c == '\U{2018}' || c == '\U{2019}'
  }

  /** What a reader can see of an original text: its ASCII characters but the blank, and its dashes and quotes in ASCII. */
  function Visible(s: string): string {
    if s == [] then []
    else
      var rest := Visible(s[1..]);
      if IsDash(s[0]) then "-" + rest
      else if IsDoubleQuote(s[0]) then "\"" + rest
      else if IsSingleQuote(s[0]) then "\'" + rest
      else if '!' <= s[0] <= '~' then [s[0]] + rest
      else rest
  }

  lemma {:induction false} InkOfPlain(s: string)
    ensures Ink(PlainText(s)) == Visible(s)
  {
    if s != [] {
      InkOfPlain(s[1..]);
      assert PlainText(s)[1..] == PlainText(s[1..]);
    }
  }

  /** Cleaning drops or moves no visible character of the original: it only turns and merges blanks. */
  lemma SafeTextKeepsInk(s: string)
    ensures Ink(SafeText(s)) == Visible(s)
  {
    InkOfPlain(s);
    InkOfCollapse(PlainText(s));
    CollapseIsSingle(PlainText(s));
    InkOfTrim(Collapse(PlainText(s)));
  }

  /** The maximal runs of non-blank characters. */
  function Words(s: string): (words: seq<string>)
    ensures s != [] && s[0] != ' ' ==> words != []
  {
    if s == [] then []
    else
      var rest := Words(s[1..]);
      if s[0] == ' ' then rest
      else if |s| > 1 && s[1] != ' ' then [[s[0]] + rest[0]] + rest[1..]
      else [[s[0]]] + rest
  }

  predicate IsVisible(c: char) {
    IsDash(c) || IsDoubleQuote(c) || IsSingleQuote(c) || '!' <= c <= '~'
  }

  /** The words of an original text: its maximal runs of visible characters, as a reader sees them. */
  function VisibleWords(s: string): (words: seq<string>)
    ensures s != [] && IsVisible(s[0]) ==> words != []
  {
    if s == [] then []
    else
      var rest := VisibleWords(s[1..]);
      if !IsVisible(s[0]) then rest
      else if |s| > 1 && IsVisible(s[1]) then [Visible([s[0]]) + rest[0]] + rest[1..]
      else [Visible([s[0]])] + rest
  }

  lemma PlainIsVisible(c: char)
    ensures Plain(c) != ' ' <==> IsVisible(c)
    ensures Visible([c]) == if IsVisible(c) then [Plain(c)] else []
  {
    assert Visible([c][1..]) == [];
  }

  lemma {:induction false} WordsOfPlain(s: string)
    ensures Words(PlainText(s)) == VisibleWords(s)
  {
    if s != [] {
      WordsOfPlain(s[1..]);
      assert PlainText(s)[1..] == PlainText(s[1..]);
      PlainIsVisible(s[0]);
      if |s| > 1 {
        PlainIsVisible(s[1]);
      }
    }
  }

  lemma {:induction false} WordsOfCollapse(s: string)
    requires Printable(s)
    ensures Words(Collapse(s)) == Words(s)
  {
    if s != [] {
      WordsOfCollapse(s[1..]);
      CollapseIsSingle(s[1..]);
    }
  }

  lemma {:induction false} WordsBeforeBlank(s: string)
    ensures Words(s + " ") == Words(s)
  {
    if s != [] {
      WordsBeforeBlank(s[1..]);
      assert (s + " ")[1..] == s[1..] + " ";
    }
  }

  lemma {:induction false} WordsOfTrim(s: string)
    requires Printable(s)
    ensures Words(Text.Trim(s)) == Words(s)
    decreases |s|
  {
    if s == [] {
    } else if s[0] == ' ' {
      WordsOfTrim(s[1..]);
    } else if s[|s| - 1] == ' ' {
      WordsOfTrim(s[..|s| - 1]);
      WordsBeforeBlank(s[..|s| - 1]);
      assert s == s[..|s| - 1] + " ";
    }
  }

  /** Cleaning keeps the words of a text: it neither joins nor splits any. */
  lemma SafeTextKeepsWords(s: string)
    ensures Words(SafeText(s)) == VisibleWords(s)
  {
    WordsOfPlain(s);
    CollapseIsSingle(PlainText(s));
    WordsOfCollapse(PlainText(s));
    WordsOfTrim(Collapse(PlainText(s)));
  }

  // ---------------------------------------------------------------- splitting

  /** split(' ') */
  function Split(s: string): (words: seq<string>)
    ensures |words| > 0
  {
    if s == [] then [[]]
    else
      var rest := Split(s[1..]);
      if s[0] == ' ' then [[]] + rest else [[s[0]] + rest[0]] + rest[1..]
  }

  /** join(' ') */
  function Join(words: seq<string>): string {
    if words == [] then []
    else if |words| == 1 then words[0]
    else words[0] + " " + Join(words[1..])
  }

  predicate IsWord(w: string) {
    w != [] && Printable(w) && forall i :: 0 <= i < |w| ==> w[i] != ' '
  }

  predicate AllWords(words: seq<string>) {
    forall i :: 0 <= i < |words| ==> IsWord(words[i])
  }

  lemma {:induction false} JoinOfSplit(s: string)
    ensures Join(Split(s)) == s
  {
    if s != [] {
      JoinOfSplit(s[1..]);
      var rest := Split(s[1..]);
      if s[0] == ' ' {
        assert ([[]] + rest)[1..] == rest;
      } else {
        assert ([[s[0]] + rest[0]] + rest[1..])[1..] == rest[1..];
      }
    }
  }

  /** A non-empty clean text splits into words only: no piece is empty. */
  lemma {:induction false} SplitOfClean(s: string)
    requires Printable(s) && NoDoubleBlank(s)
    requires s != [] ==> s[|s| - 1] != ' '
    ensures s != [] && s[0] != ' ' ==> AllWords(Split(s))
    ensures s == [] || s[0] == ' ' ==> Split(s)[0] == [] && AllWords(Split(s)[1..])
  {
    if s != [] {
      SplitOfClean(s[1..]);
    }
  }

  // ---------------------------------------------------------------- escaping

  function ReplaceChar(s: string, c: char, sub: string): string {
    if s == [] then [] else (if s[0] == c then sub else [s[0]]) + ReplaceChar(s[1..], c, sub)
  }

  /** The three chained replaces of pdfEscape, after its own cleaning. */
  function Escape(s: string): string {
    ReplaceChar(ReplaceChar(ReplaceChar(SafeText(s), '\\', "\\\\"), '(', "\\("), ')', "\\)")
  }

  predicate IsSpecial(c: char) {
    c == '\\' || c == '(' || c == ')'
  }

  /** One pass over the text, escaping the three special characters. */
  function EscapeOnce(s: string): string {
    if s == [] then []
    else (if IsSpecial(s[0]) then ['\\', s[0]] else [s[0]]) + EscapeOnce(s[1..])
  }

  lemma {:induction false} ReplaceOfConcat(a: string, b: string, c: char, sub: string)
    ensures ReplaceChar(a + b, c, sub) == ReplaceChar(a, c, sub) + ReplaceChar(b, c, sub)
  {
    if a == [] {
      assert a + b == b;
    } else {
      ReplaceOfConcat(a[1..], b, c, sub);
      assert (a + b)[1..] == a[1..] + b;
      var h := if a[0] == c then sub else [a[0]];
      var x, y := ReplaceChar(a[1..], c, sub), ReplaceChar(b, c, sub);
      assert ReplaceChar(a + b, c, sub) == h + (x + y);
      assert h + (x + y) == (h + x) + y;
    }
  }

  lemma ReplaceAbsent(s: string, c: char, sub: string)
    requires c !in s
    ensures ReplaceChar(s, c, sub) == s
  {
    if s != [] {
      ReplaceAbsent(s[1..], c, sub);
    }
  }

  /** The chain never escapes a backslash that an earlier replace put in. */
  lemma {:induction false} ChainIsOnePass(s: string)
    ensures ReplaceChar(ReplaceChar(ReplaceChar(s, '\\', "\\\\"), '(', "\\("), ')', "\\)") == EscapeOnce(s)
  {
    if s != [] {
      ChainIsOnePass(s[1..]);
      var c := s[0];
      var h1 := if c == '\\' then "\\\\" else [c];
      var t1 := ReplaceChar(s[1..], '\\', "\\\\");
      ReplaceOfConcat(h1, t1, '(', "\\(");
      var h2 := ReplaceChar(h1, '(', "\\(");
      var t2 := ReplaceChar(t1, '(', "\\(");
      ReplaceOfConcat(h2, t2, ')', "\\)");
      EscapeOfOne(c);
    }
  }

  lemma EscapeOfOne(c: char)
    ensures var h := if c == '\\' then "\\\\" else [c];
            ReplaceChar(ReplaceChar(h, '(', "\\("), ')', "\\)") == if IsSpecial(c) then ['\\', c] else [c]
  {
    var h := if c == '\\' then "\\\\" else [c];
    if c == '(' {
      assert ReplaceChar(h, '(', "\\(") == "\\(" + ReplaceChar([], '(', "\\(");
      ReplaceAbsent("\\(", ')', "\\)");
    } else {
      ReplaceAbsent(h, '(', "\\(");
      if c == ')' {
        assert ReplaceChar(h, ')', "\\)") == "\\)" + ReplaceChar([], ')', "\\)");
      } else {
        ReplaceAbsent(h, ')', "\\)");
      }
    }
  }

  /** The character a backslash escape stands for; octal codes are not read. */
  function Unescaped(c: char): char {
    match c
    case 'n' => '\n'
    case 'r' => '\r'
    case 't' => '\t'
    case _ => c
  }

  /**
   * Reads a literal string after its opening parenthesis, up to the parenthesis
   * that closes it; `depth` counts the unescaped parentheses still open inside.
   */
  function ReadLiteral(s: string, depth: nat := 0): (r: Option<(string, string)>)
    ensures r.Some? ==> |r.value.1| < |s|
  {
    if s == [] then None
    else if s[0] == '\\' then
      if |s| == 1 then None
      else
        var (text, rest) :- ReadLiteral(s[2..], depth);
        Some(([Unescaped(s[1])] + text, rest))
    else if s[0] == ')' && depth == 0 then Some(([], s[1..]))
    else
      var d := if s[0] == '(' then depth + 1 else if s[0] == ')' then depth - 1 else depth;
      var (text, rest) :- ReadLiteral(s[1..], d);
      Some(([s[0]] + text, rest))
  }

  lemma {:induction false} ReadEscapedOnce(s: string, rest: string)
    ensures ReadLiteral(EscapeOnce(s) + ")" + rest) == Some((s, rest))
  {
    if s == [] {
      assert EscapeOnce(s) + ")" + rest == ")" + rest;
    } else {
      ReadEscapedOnce(s[1..], rest);
      var tail := EscapeOnce(s[1..]) + ")" + rest;
      if IsSpecial(s[0]) {
        var whole := ['\\', s[0]] + tail;
        assert EscapeOnce(s) + ")" + rest == whole;
        assert whole[2..] == tail;
      } else {
        var whole := [s[0]] + tail;
        assert EscapeOnce(s) + ")" + rest == whole;
        assert whole[1..] == tail;
      }
      assert [s[0]] + s[1..] == s;
    }
  }

  /** The decoder undoes pdfEscape: it returns the cleaned text and what follows. */
  lemma ReadEscaped(s: string, rest: string)
    ensures ReadLiteral(Escape(s) + ")" + rest) == Some((SafeText(s), rest))
  {
    ChainIsOnePass(SafeText(s));
    ReadEscapedOnce(SafeText(s), rest);
  }
}
