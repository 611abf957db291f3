// Loading the embedded migration files: names to versions, sorting, and the
// check that the versions are exactly 1..latest.
module MigrationFiles {
  import opened Wrappers
  import Decimal

  datatype FileEntry = FileEntry(name: string, isDir: bool, contents: string)

  datatype Migration = Migration(version: int, name: string, sql: string)

  const SUFFIX := ".up.sql"

  predicate HasSuffix(s: string, suffix: string) {
    |suffix| <= |s| && s[|s| - |suffix|..] == suffix
  }

  predicate IsMigrationFile(entry: FileEntry) {
    !entry.isDir && HasSuffix(entry.name, SUFFIX)
  }

  /** The text before the first underscore, if there is one. */
  function CutUnderscore(s: string): Option<string> {
    if s == [] then None
    else if s[0] == '_' then Some([])
    else
      var rest :- CutUnderscore(s[1..]);
      Some([s[0]] + rest)
  }

  const INT64: int := 0x8000_0000_0000_0000

  /** strconv.ParseInt(s, 10, 64): an optional sign, digits, and a 64-bit range. */
  function ParseInt(s: string): Option<int> {
    var signed := s != [] && (s[0] == '+' || s[0] == '-');
    var digits := if signed then s[1..] else s;
    if digits == [] || !Decimal.AllDigits(digits) then None
    else
      var n := Decimal.Value(digits);
      if signed && s[0] == '-' then
        if n <= INT64 then Some(-(n as int)) else None
      else if n < INT64 then Some(n as int)
      else None
  }

  /** The migration a file holds; None when its name has no numeric prefix. */
  function Parse(entry: FileEntry): Option<Migration> {
    var prefix :- CutUnderscore(entry.name);
    var version :- ParseInt(prefix);
    Some(Migration(version, entry.name, entry.contents))
  }

  /** The migrations of a directory in listing order, or None if some name does not parse. */
  function ParseAll(entries: seq<FileEntry>): Option<seq<Migration>> {
    if entries == [] then Some([])
    else
      var before :- ParseAll(entries[..|entries| - 1]);
      var last := entries[|entries| - 1];
      if !IsMigrationFile(last) then Some(before)
      else
        var m :- Parse(last);
        Some(before + [m])
  }

  // ---------------------------------------------------------------- what files mean

  /** An up-migration: a file, not a directory, whose name ends in ".up.sql". */
  ghost predicate IsUp(entry: FileEntry) {
    !entry.isDir && exists stem: string :: entry.name == stem + ".up.sql"
  }

  /** A 64-bit integer in decimal, with or without a sign. */
  ghost predicate Denotes(text: string, v: int) {
    exists sign: string, digits: string :: Reads(text, sign, digits, v)
  }

  /** The file holds the migration: its version stands before the first underscore of its name. */
  ghost predicate Holds(entry: FileEntry, m: Migration) {
    && m.name == entry.name && m.sql == entry.contents
    && exists prefix: string, rest: string :: entry.name == prefix + "_" + rest && '_' !in prefix && Denotes(prefix, m.version)
  }

  ghost function UpFiles(entries: seq<FileEntry>): seq<FileEntry> {
    if entries == [] then []
    else
      var last := entries[|entries| - 1];
      UpFiles(entries[..|entries| - 1]) + (if IsUp(last) then [last] else [])
  }

  ghost predicate AllHold(files: seq<FileEntry>, ms: seq<Migration>) {
    |files| == |ms| && forall i :: 0 <= i < |files| ==> Holds(files[i], ms[i])
  }

  lemma IsUpIff(entry: FileEntry)
    ensures IsMigrationFile(entry) <==> IsUp(entry)
  {
    if HasSuffix(entry.name, SUFFIX) {
      assert entry.name == entry.name[..|entry.name| - |SUFFIX|] + ".up.sql";
    }
    if stem :| entry.name == stem + ".up.sql" {
      assert entry.name[|entry.name| - |SUFFIX|..] == ".up.sql";
    }
  }

  lemma {:induction false} CutIff(s: string, prefix: string, rest: string)
    requires s == prefix + "_" + rest && '_' !in prefix
    ensures CutUnderscore(s) == Some(prefix)
  {
    if prefix == "" {
      assert s[0] == '_';
    } else {
      assert s[0] == prefix[0] && prefix[0] in prefix;
      assert s[1..] == prefix[1..] + "_" + rest;
      CutIff(s[1..], prefix[1..], rest);
      assert [prefix[0]] + prefix[1..] == prefix;
    }
  }

  lemma {:induction false} CutGives(s: string) returns (rest: string)
    requires CutUnderscore(s).Some?
    ensures var prefix := CutUnderscore(s).value;
            s == prefix + "_" + rest && '_' !in prefix
  {
    if s[0] == '_' {
      rest := s[1..];
    } else {
      rest := CutGives(s[1..]);
    }
  }

  /** Sign and digits of an integer text, and its value. */
  predicate Reads(text: string, sign: string, digits: string, v: int) {
    && text == sign + digits && (sign == "" || sign == "+" || sign == "-")
    && digits != "" && Decimal.AllDigits(digits)
    && v == (if sign == "-" then -(Decimal.Value(digits) as int) else Decimal.Value(digits))
    && -0x8000_0000_0000_0000 <= v <= 0x7FFF_FFFF_FFFF_FFFF
  }

  lemma ParseIntReads(text: string, sign: string, digits: string, v: int)
    requires Reads(text, sign, digits, v)
    ensures ParseInt(text) == Some(v)
  {
    hide Decimal.Value;
    assert Decimal.IsDigit(digits[0]);
    if sign == "" {
      assert text == digits;
    } else {
      assert text[0] == sign[0] && text[1..] == digits;
    }
  }

  lemma ParseIntGives(text: string) returns (sign: string, digits: string)
    requires ParseInt(text).Some?
    ensures Reads(text, sign, digits, ParseInt(text).value)
  {
    hide Decimal.Value;
    if text[0] == '+' || text[0] == '-' {
      sign, digits := text[..1], text[1..];
      assert sign == [text[0]];
    } else {
      sign, digits := "", text;
    }
    assert text == sign + digits;
  }

  lemma ParseIntIff(text: string, v: int)
    ensures ParseInt(text) == Some(v) <==> Denotes(text, v)
  {
    hide ParseInt, Decimal.Value, Decimal.AllDigits;
    if ParseInt(text) == Some(v) {
      var sign, digits := ParseIntGives(text);
    }
    if Denotes(text, v) {
      var sign: string, digits: string :| Reads(text, sign, digits, v);
      ParseIntReads(text, sign, digits, v);
    }
  }

  lemma ParseIff(entry: FileEntry, m: Migration)
    ensures Parse(entry) == Some(m) <==> Holds(entry, m)
  {
    hide CutUnderscore, ParseInt, Denotes;
    if Parse(entry) == Some(m) {
      var rest := CutGives(entry.name);
      ParseIntIff(CutUnderscore(entry.name).value, m.version);
    }
    if Holds(entry, m) {
      var prefix: string, rest: string :| entry.name == prefix + "_" + rest && '_' !in prefix && Denotes(prefix, m.version);
      CutIff(entry.name, prefix, rest);
      ParseIntIff(prefix, m.version);
    }
  }

  lemma {:induction false} ParseAllIff(entries: seq<FileEntry>, ms: seq<Migration>)
    ensures ParseAll(entries) == Some(ms) <==> AllHold(UpFiles(entries), ms)
  {
    hide Parse, Holds, IsMigrationFile, IsUp;
    if entries != [] {
      var n := |entries| - 1;
      var last := entries[n];
      IsUpIff(last);
      if IsUp(last) {
        var files := UpFiles(entries[..n]);
        if ParseAll(entries) == Some(ms) {
          ParseAllIff(entries[..n], ms[..|ms| - 1]);
          ParseIff(last, ms[|ms| - 1]);
        }
        if AllHold(UpFiles(entries), ms) {
          assert AllHold(files, ms[..|ms| - 1]) && Holds(last, ms[|ms| - 1]);
          ParseAllIff(entries[..n], ms[..|ms| - 1]);
          ParseIff(last, ms[|ms| - 1]);
          assert ms == ms[..|ms| - 1] + [ms[|ms| - 1]];
        }
      } else {
        ParseAllIff(entries[..n], ms);
      }
    }
  }

  /** A migration file named by a padded number, in order from 1. */
  ghost predicate ArePadded(files: seq<FileEntry>) {
    forall i :: 0 <= i < |files| ==> IsPadded(files[i], i + 1)
  }

  ghost predicate IsPadded(entry: FileEntry, number: nat) {
    !entry.isDir && exists topic: string :: entry.name == Decimal.PadStart(Decimal.Print(number), 6) + "_" + topic + ".up.sql"
  }

  function MigrationsOf(files: seq<FileEntry>): (ms: seq<Migration>)
    ensures |ms| == |files|
  {
    seq(|files|, i requires 0 <= i < |files| => Migration(i + 1, files[i].name, files[i].contents))
  }

  lemma NamedHolds(entry: FileEntry, prefix: string, topic: string, v: int)
    requires !entry.isDir && entry.name == prefix + "_" + topic + ".up.sql" && Reads(prefix, "", prefix, v)
    ensures IsUp(entry) && Holds(entry, Migration(v, entry.name, entry.contents))
  {
    hide Reads, Decimal.AllDigits;
    assert entry.name == (prefix + "_" + topic) + ".up.sql";
    assert entry.name == prefix + "_" + (topic + ".up.sql");
    assert Denotes(prefix, v);
    DigitsHaveNoUnderscore(prefix, v);
  }

  lemma DigitsHaveNoUnderscore(prefix: string, v: int)
    requires Reads(prefix, "", prefix, v)
    ensures '_' !in prefix
  {
  }

  lemma PaddedHolds(entry: FileEntry, number: nat)
    requires IsPadded(entry, number) && number < 0x8000_0000_0000_0000
    ensures IsUp(entry) && Holds(entry, Migration(number, entry.name, entry.contents))
  {
    hide Decimal.Print, Decimal.PadStart, Decimal.Value, IsUp, Holds;
    var p := Decimal.PadStart(Decimal.Print(number), 6);
    var topic: string :| entry.name == p + "_" + topic + ".up.sql";
    Decimal.ValueOfPad(number, 6);
    assert p == "" + p;
    NamedHolds(entry, p, topic, number);
  }

  function Mapped<A, B>(s: seq<A>, f: A -> B): (r: seq<B>)
    ensures |r| == |s| && forall i :: 0 <= i < |s| ==> r[i] == f(s[i])
  {
    seq(|s|, i requires 0 <= i < |s| => f(s[i]))
  }

  function Without<T>(s: seq<T>, j: nat): (r: seq<T>)
    requires j < |s|
    ensures |r| == |s| - 1
  {
    s[..j] + s[j + 1..]
  }

  lemma WithoutOne<T>(s: seq<T>, j: nat)
    requires j < |s|
    ensures multiset(Without(s, j)) == multiset(s) - multiset{s[j]}
  {
    assert s == s[..j] + [s[j]] + s[j + 1..];
  }

  lemma MappedWithoutOne<A, B>(s: seq<A>, f: A -> B, j: nat)
    requires j < |s|
    ensures Mapped(Without(s, j), f) == Without(Mapped(s, f), j)
  {
  }

  lemma PlaceOf<T>(s: seq<T>, x: T) returns (j: nat)
    requires x in multiset(s)
    ensures j < |s| && s[j] == x
  {
    j :| 0 <= j < |s| && s[j] == x;
  }

  /** Mapping two arrangements of the same things gives arrangements of the same things. */
  lemma {:induction false} SameMapped<A, B>(a: seq<A>, b: seq<A>, f: A -> B)
    requires multiset(a) == multiset(b)
    ensures multiset(Mapped(a, f)) == multiset(Mapped(b, f))
    decreases |a|
  {
    hide Mapped, Without;
    assert |multiset(a)| == |a| && |multiset(b)| == |b|;
    if a == [] {
      assert b == [];
    } else {
      assert a[0] in multiset(a);
      var j := PlaceOf(b, a[0]);
      WithoutOne(a, 0);
      WithoutOne(b, j);
      SameMapped(Without(a, 0), Without(b, j), f);
      MappedWithoutOne(a, f, 0);
      MappedWithoutOne(b, f, j);
      WithoutOne(Mapped(a, f), 0);
      WithoutOne(Mapped(b, f), j);
      SameWithOne(Mapped(a, f), Mapped(b, f), j);
    }
  }

  lemma SameWithOne<T>(a: seq<T>, b: seq<T>, j: nat)
    requires a != [] && j < |b| && a[0] == b[j]
    requires multiset(a) - multiset{a[0]} == multiset(b) - multiset{b[j]}
    ensures multiset(a) == multiset(b)
  {
    assert a[0] in multiset(a) && b[j] in multiset(b);
    assert multiset(a) == multiset(a) - multiset{a[0]} + multiset{a[0]};
    assert multiset(b) == multiset(b) - multiset{b[j]} + multiset{b[j]};
  }

  /** The migration a file holds; any other stands in where there is none. */
  function ParsedOr(entry: FileEntry): Migration {
    Parse(entry).GetOr(Migration(0, "", ""))
  }

  /** Padded files 1, 2, ... hold their migrations, whatever order they are listed in. */
  lemma PaddedFilesHold(files: seq<FileEntry>, entries: seq<FileEntry>)
    requires ArePadded(files) && |files| < 0x8000_0000_0000_0000 && multiset(files) == multiset(UpFiles(entries))
    ensures ParseAll(entries).Some? && multiset(ParseAll(entries).value) == multiset(MigrationsOf(files))
  {
    hide Parse, Holds, IsPadded, IsUp;
    var ups, ms := UpFiles(entries), MigrationsOf(files);
    forall i | 0 <= i < |files|
      ensures Parse(files[i]) == Some(ms[i])
    {
      PaddedHolds(files[i], i + 1);
      ParseIff(files[i], ms[i]);
    }
    assert Mapped(files, ParsedOr) == ms;
    SameMapped(files, ups, ParsedOr);
    var parsed := Mapped(ups, ParsedOr);
    forall i | 0 <= i < |ups|
      ensures Holds(ups[i], parsed[i])
    {
      assert ups[i] in multiset(files);
      var j :| 0 <= j < |files| && files[j] == ups[i];
      ParseIff(ups[i], parsed[i]);
    }
    ParseAllIff(entries, parsed);
  }

  // ---------------------------------------------------------------- sorting and loading

  predicate Sorted(ms: seq<Migration>) {
    forall i, j :: 0 <= i < j < |ms| ==> ms[i].version <= ms[j].version
  }

  /** The versions are 1, 2, ..., in order. */
  predicate Numbered(ms: seq<Migration>) {
    forall i :: 0 <= i < |ms| ==> ms[i].version == i + 1
  }

  method InsertByVersion(ms: seq<Migration>, m: Migration) returns (r: seq<Migration>)
    requires Sorted(ms)
    ensures Sorted(r) && multiset(r) == multiset(ms) + multiset{m}
  {
    var i := |ms|;
    while i > 0 && ms[i - 1].version > m.version
      invariant 0 <= i <= |ms|
      invariant forall j :: i <= j < |ms| ==> ms[j].version > m.version
    {
      i := i - 1;
    }
    r := ms[..i] + [m] + ms[i..];
    InsertedIsSorted(ms, i, m);
    InsertedMultiset(ms, i, m);
  }

  lemma InsertedIsSorted(ms: seq<Migration>, i: nat, m: Migration)
    requires Sorted(ms) && i <= |ms|
    requires i > 0 ==> ms[i - 1].version <= m.version
    requires i < |ms| ==> ms[i].version > m.version
    ensures Sorted(ms[..i] + [m] + ms[i..])
  {
    var r := ms[..i] + [m] + ms[i..];
    forall a, b | 0 <= a < b < |r|
      ensures r[a].version <= r[b].version
    {
      assert a < i ==> ms[a].version <= ms[i - 1].version;
      assert b > i ==> ms[i].version <= ms[b - 1].version;
    }
  }

  lemma InsertedMultiset(ms: seq<Migration>, i: nat, m: Migration)
    requires i <= |ms|
    ensures multiset(ms[..i] + [m] + ms[i..]) == multiset(ms) + multiset{m}
  {
    assert ms == ms[..i] + ms[i..];
  }

  /** sort.Slice by version. */
  method SortByVersion(ms: seq<Migration>) returns (r: seq<Migration>)
    ensures Sorted(r) && multiset(r) == multiset(ms)
  {
    r := [];
    for i := 0 to |ms|
      invariant Sorted(r) && multiset(r) == multiset(ms[..i])
    {
      r := InsertByVersion(r, ms[i]);
      assert ms[..i + 1] == ms[..i] + [ms[i]];
    }
    assert ms[..|ms|] == ms;
  }

  /** Some arrangement of the migrations is numbered 1..latest. */
  ghost predicate Loadable(ms: seq<Migration>, latest: nat) {
    exists r: seq<Migration> :: multiset(r) == multiset(ms) && Numbered(r) && |r| == latest && latest > 0
  }

  /** Every up-migration holds a migration, and they can be arranged as 1..latest. */
  ghost predicate Loads(entries: seq<FileEntry>, latest: nat) {
    exists ms :: AllHold(UpFiles(entries), ms) && Loadable(ms, latest)
  }

  lemma LoadsIff(entries: seq<FileEntry>, latest: nat)
    ensures Loads(entries, latest) <==> ParseAll(entries).Some? && Loadable(ParseAll(entries).value, latest)
  {
    hide ParseAll, UpFiles, AllHold, Loadable;
    forall ms
      ensures ParseAll(entries) == Some(ms) <==> AllHold(UpFiles(entries), ms)
    {
      ParseAllIff(entries, ms);
    }
  }

  /** Loading padded files gives their migrations, in order. */
  ghost predicate LoadsPadded(entries: seq<FileEntry>, latest: nat, loaded: Option<seq<Migration>>) {
    forall files ::
      ArePadded(files) && 0 < |files| == latest < 0x8000_0000_0000_0000 && multiset(files) == multiset(UpFiles(entries)) ==>
        loaded == Some(MigrationsOf(files))
  }

  lemma PaddedFilesLoad(entries: seq<FileEntry>, files: seq<FileEntry>, loaded: Option<seq<Migration>>)
    requires ArePadded(files) && 0 < |files| < 0x8000_0000_0000_0000 && multiset(files) == multiset(UpFiles(entries))
    requires loaded.Some? <==> ParseAll(entries).Some? && Loadable(ParseAll(entries).value, |files|)
    requires loaded.Some? ==> Numbered(loaded.value) && multiset(loaded.value) == multiset(ParseAll(entries).value)
    ensures loaded == Some(MigrationsOf(files))
  {
    hide ParseAll, UpFiles, ArePadded;
    PaddedFilesHold(files, entries);
    assert Numbered(MigrationsOf(files)) && Loadable(ParseAll(entries).value, |files|);
    ListingOrderIsIrrelevant(ParseAll(entries).value, ParseAll(entries).value, loaded.value, MigrationsOf(files));
  }

  method Load(entries: seq<FileEntry>, latest: nat) returns (loaded: Option<seq<Migration>>)
    ensures loaded.Some? <==> Loads(entries, latest)
    ensures loaded.Some? ==>
              && Numbered(loaded.value) && |loaded.value| == latest
              && exists ms :: AllHold(UpFiles(entries), ms) && multiset(loaded.value) == multiset(ms)
    ensures LoadsPadded(entries, latest, loaded)
  {
    hide ParseAll, UpFiles, AllHold, ArePadded, Loads, Loadable, Numbered;
    loaded := LoadParsed(entries, latest);
    LoadsIff(entries, latest);
    if loaded.Some? {
      ParseAllIff(entries, ParseAll(entries).value);
    }
    forall files | ArePadded(files) && 0 < |files| == latest < 0x8000_0000_0000_0000 && multiset(files) == multiset(UpFiles(entries))
      ensures loaded == Some(MigrationsOf(files))
    {
      PaddedFilesLoad(entries, files, loaded);
    }
  }

  method LoadParsed(entries: seq<FileEntry>, latest: nat) returns (loaded: Option<seq<Migration>>)
    ensures loaded.Some? <==> ParseAll(entries).Some? && Loadable(ParseAll(entries).value, latest)
    ensures loaded.Some? ==>
              && Numbered(loaded.value) && |loaded.value| == latest
              && multiset(loaded.value) == multiset(ParseAll(entries).value)
  {
    var ms: seq<Migration> := [];
    for i := 0 to |entries|
      invariant ParseAll(entries[..i]) == Some(ms)
    {
      assert entries[..i + 1][..i] == entries[..i];
      if IsMigrationFile(entries[i]) {
        match Parse(entries[i]) {
          case None =>
            ParseAllFails(entries, i + 1);
            return None;
          case Some(m) => ms := ms + [m];
        }
      }
    }
    assert entries[..|entries|] == entries;
    var sorted := SortByVersion(ms);
    if |sorted| == 0 || sorted[|sorted| - 1].version != latest {
      NotLoadable(sorted, ms, latest);
      return None;
    }
    for index := 0 to |sorted|
      invariant forall i :: 0 <= i < index ==> sorted[i].version == i + 1
    {
      if sorted[index].version != index + 1 {
        NotLoadable(sorted, ms, latest);
        return None;
      }
    }
    loaded := Some(sorted);
  }

  lemma {:induction false} ParseAllFails(entries: seq<FileEntry>, k: nat)
    requires k <= |entries| && ParseAll(entries[..k]) == None
    ensures ParseAll(entries) == None
    decreases |entries|
  {
    if k == |entries| {
      assert entries[..k] == entries;
    } else {
      var shorter := entries[..|entries| - 1];
      assert shorter[..k] == entries[..k];
      ParseAllFails(shorter, k);
    }
  }

  /** Sorting finds the numbered arrangement whenever there is one. */
  lemma NotLoadable(sorted: seq<Migration>, ms: seq<Migration>, latest: nat)
    requires Sorted(sorted) && multiset(sorted) == multiset(ms)
    requires !(Numbered(sorted) && |sorted| == latest && latest > 0)
    ensures !Loadable(ms, latest)
  {
    if Loadable(ms, latest) {
      var r: seq<Migration> :| multiset(r) == multiset(ms) && Numbered(r) && |r| == latest && latest > 0;
      SortedIsNumbered(sorted, r);
    }
  }

  /** A numbered list is the only sorted arrangement of its migrations. */
  lemma {:induction false} SortedIsNumbered(sorted: seq<Migration>, r: seq<Migration>)
    requires Sorted(sorted) && Numbered(r) && multiset(sorted) == multiset(r)
    ensures sorted == r
    decreases |r|
  {
    SameLength(sorted, r);
    if r != [] {
      var n := |r| - 1;
      LastIsSame(sorted, r);
      var s, q, x := sorted[..n], r[..n], r[n];
      assert sorted == s + [x] && r == q + [x];
      PrefixesStay(sorted, r, n);
      hide Sorted, Numbered;
      SnocMultiset(s, q, x);
      SortedIsNumbered(s, q);
    }
  }

  lemma SameLength(a: seq<Migration>, b: seq<Migration>)
    requires multiset(a) == multiset(b)
    ensures |a| == |b|
  {
    assert |multiset(a)| == |a| && |multiset(b)| == |b|;
  }

  lemma SnocMultiset(s: seq<Migration>, q: seq<Migration>, x: Migration)
    requires multiset(s + [x]) == multiset(q + [x])
    ensures multiset(s) == multiset(q)
  {
    assert multiset(s) == multiset(s + [x]) - multiset{x};
    assert multiset(q) == multiset(q + [x]) - multiset{x};
  }

  lemma PrefixesStay(sorted: seq<Migration>, r: seq<Migration>, n: nat)
    requires Sorted(sorted) && Numbered(r) && n <= |sorted| && n <= |r|
    ensures Sorted(sorted[..n]) && Numbered(r[..n])
  {
  }

  lemma LastIsSame(sorted: seq<Migration>, r: seq<Migration>)
    requires Sorted(sorted) && Numbered(r) && multiset(sorted) == multiset(r) && |sorted| == |r| > 0
    ensures sorted[|r| - 1] == r[|r| - 1]
  {
    var n := |r| - 1;
    assert sorted[n] in multiset(sorted) && r[n] in multiset(r);
    var j :| 0 <= j < |r| && r[j] == sorted[n];
    var i :| 0 <= i < |sorted| && sorted[i] == r[n];
    assert r[n].version == n + 1 && r[j].version == j + 1;
    assert i < n ==> sorted[i].version <= sorted[n].version;
  }

  /** Two directories with the same migrations load to the same list, in whatever order they are listed. */
  lemma ListingOrderIsIrrelevant(a: seq<Migration>, b: seq<Migration>, ra: seq<Migration>, rb: seq<Migration>)
    requires multiset(a) == multiset(b)
    requires multiset(ra) == multiset(a) && Numbered(ra) && multiset(rb) == multiset(b) && Numbered(rb)
    ensures ra == rb
  {
    SortedIsNumbered(ra, rb);
  }
}
