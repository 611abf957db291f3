// JavaScript string helpers the modules share.
module Text {
  /** White space as trim() and \s know it. */
  predicate IsSpace(c: char) {
    || '\t' <= c <= '\r' || c == ' ' || c == '\U{A0}' || c == '\U{1680}' || '\U{2000}' <= c <= '\U{200A}'
    || c == '\U{2028}' || c == '\U{2029}' || c == '\U{202F}' || c == '\U{205F}' || c == '\U{3000}' || c == '\U{FEFF}'
  }

  function Trim(s: string): string {
    if s == [] then []
    else if IsSpace(s[0]) then Trim(s[1..])
    else if IsSpace(s[|s| - 1]) then Trim(s[..|s| - 1])
    else s
  }

  function Lower(c: char): char {
    if 'A' <= c <= 'Z' then (c as int + 32) as char else c
  }

  function LowerText(s: string): string {
    seq(|s|, i requires 0 <= i < |s| => Lower(s[i]))
  }

  /** /word/i for a lower-case word of plain letters. */
  predicate Mentions(s: string, word: string) {
    exists i :: 0 <= i <= |s| - |word| && MentionsAt(s, word, i)
  }

  predicate MentionsAt(s: string, word: string, i: nat)
    requires i + |word| <= |s|
  {
    forall k :: 0 <= k < |word| ==> Lower(s[i + k]) == word[k]
  }

  /** The stretch from i to j is what white space at the ends leaves of s. */
  predicate IsTrimmed(s: string, i: nat, j: nat) {
    && i <= j <= |s|
    && (forall k :: 0 <= k < |s| && !(i <= k < j) ==> IsSpace(s[k]))
    && (i < j ==> !IsSpace(s[i]) && !IsSpace(s[j - 1]))
  }

  lemma TrimmedAfterFirst(s: string, i: nat, j: nat)
    requires s != [] && IsSpace(s[0]) && IsTrimmed(s[1..], i, j)
    ensures IsTrimmed(s, i + 1, j + 1) && s[i + 1..j + 1] == s[1..][i..j]
  {
    hide IsSpace;
    forall k | 0 <= k < |s| && !(i + 1 <= k < j + 1)
      ensures IsSpace(s[k])
    {
      assert k > 0 ==> s[k] == s[1..][k - 1];
    }
    assert |s[1..][i..j]| == |s[i + 1..j + 1]| && forall k :: 0 <= k < j - i ==> s[1..][i..j][k] == s[i + 1..j + 1][k];
    assert s[1..][i..j] == s[i + 1..j + 1];
  }

  lemma TrimmedBeforeLast(s: string, i: nat, j: nat)
    requires s != [] && IsSpace(s[|s| - 1]) && IsTrimmed(s[..|s| - 1], i, j)
    ensures IsTrimmed(s, i, j) && s[i..j] == s[..|s| - 1][i..j]
  {
    hide IsSpace;
    forall k | 0 <= k < |s| && !(i <= k < j)
      ensures IsSpace(s[k])
    {
      assert k < |s| - 1 ==> s[k] == s[..|s| - 1][k];
    }
  }

  /** What trim() leaves: the stretch between the first and the last character that is no white space. */
  lemma {:induction false} TrimIs(s: string) returns (i: nat, j: nat)
    ensures IsTrimmed(s, i, j) && Trim(s) == s[i..j]
    decreases |s|
  {
    hide IsSpace;
    if s == [] {
      i, j := 0, 0;
    } else if IsSpace(s[0]) {
      hide IsTrimmed;
      i, j := TrimIs(s[1..]);
      TrimmedAfterFirst(s, i, j);
      i, j := i + 1, j + 1;
    } else if IsSpace(s[|s| - 1]) {
      hide IsTrimmed;
      i, j := TrimIs(s[..|s| - 1]);
      TrimmedBeforeLast(s, i, j);
    } else {
      i, j := 0, |s|;
    }
  }

  predicate IsBlank(s: string) {
    forall k :: 0 <= k < |s| ==> IsSpace(s[k])
  }

  lemma TrimIsEmptyIff(s: string)
    ensures Trim(s) == "" <==> IsBlank(s)
  {
    var i, j := TrimIs(s);
  }

  lemma TrimTwice(s: string)
    ensures Trim(Trim(s)) == Trim(s)
  {
    var i, j := TrimIs(s);
  }

  /** /word/i finds the word wherever it stands, in capitals or not, and nowhere else. */
  lemma MentionsIff(s: string, word: string)
    ensures Mentions(s, word) <==> exists a: string, x: string, b: string :: s == a + x + b && LowerText(x) == word
  {
    if Mentions(s, word) {
      var i :| 0 <= i <= |s| - |word| && MentionsAt(s, word, i);
      assert s == s[..i] + s[i..i + |word|] + s[i + |word|..] && LowerText(s[i..i + |word|]) == word;
    }
    if a: string, x: string, b: string :| s == a + x + b && LowerText(x) == word {
      assert |x| == |word|;
      assert forall k :: 0 <= k < |word| ==> s[|a| + k] == x[k] && Lower(x[k]) == LowerText(x)[k];
      assert MentionsAt(s, word, |a|);
    }
  }

  /** The capitals become the small letters, each its own, and nothing else changes. */
  lemma LowerIs(c: char)
    ensures Lower('A') == 'a' && Lower('Z') == 'z'
    ensures 'A' <= c < 'Z' ==> Lower((c as int + 1) as char) as int == Lower(c) as int + 1
    ensures c < 'A' || 'Z' < c ==> Lower(c) == c
  {
  }
}
