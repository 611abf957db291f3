// Checklist operations told by what they leave: which are accepted, and exactly
// what each does to its package, section by section.
module ChecklistEffects {
  import opened Wrappers
  import opened Checklists
  import opened ChecklistRuns
  import FreshIds
  import Decimal
  import Text

  predicate HasText(s: string) {
    !Text.IsBlank(s)
  }

  // ---------------------------------------------------------------- numbers

  /** The highest number among the versions and the package's own. */
  predicate IsHighest(p: Package, n: int) {
    && p.number <= n && (forall i :: 0 <= i < |p.versions| ==> p.versions[i].number <= n)
    && (n == p.number || exists i :: 0 <= i < |p.versions| && p.versions[i].number == n)
  }

  /** An edit of a published package opens a draft one tenth above its highest number; a draft goes on; an archived package is refused. */
  lemma DraftOpens(p: Package)
    ensures EnsureDraft(p).Some? <==> p.status != Archived
    ensures p.status == Draft ==> EnsureDraft(p) == Some(p)
    ensures p.status == Published ==>
              var d := EnsureDraft(p).value;
              && IsHighest(p, d.number - 1) && d.status == Draft && d.drafts == []
              && d.sections == p.sections && d.versions == p.versions && d.department == p.department
  {
  }

  /** A publish takes the number one tenth above the highest, appends one active version of all sections and retires the others. */
  lemma PublishAppends(bank: seq<Question>, p: Package)
    ensures Apply(bank, p, PublishVersion).Some? <==> p.status != Archived
    ensures p.status != Archived ==>
              var (bank', q) := Apply(bank, p, PublishVersion).value;
              var n := |p.versions|;
              && bank' == bank && IsHighest(p, q.number - 1) && q.status == Published && q.drafts == []
              && q.sections == p.sections && q.department == p.department
              && |q.versions| == n + 1
              && q.versions[n] == Version(q.number, true, SectionQuestions(p.sections))
              && (forall i :: 0 <= i < n ==> q.versions[i] == p.versions[i].(active := false))
  {
    hide SectionQuestions;
  }

  /** The questions of a version: those of the first section, then those of the second, and so on. */
  lemma {:induction false} SectionQuestionsInOrder(sections: seq<Section>, k: nat)
    requires k < |sections|
    ensures SectionQuestions(sections) ==
            SectionQuestions(sections[..k]) + sections[k].questionIds + SectionQuestions(sections[k + 1..])
    decreases |sections|
  {
    var n := |sections| - 1;
    if k == n {
      assert sections[n + 1..] == [];
    } else {
      SectionQuestionsInOrder(sections[..n], k);
      assert sections[..n][..k] == sections[..k] && sections[..n][k + 1..] == sections[k + 1..][..n - k - 1];
      assert sections[k + 1..][n - k - 1] == sections[n];
    }
  }

  // ---------------------------------------------------------------- lists with something taken out

  /** Places of a list in rising order. */
  predicate AreRising(places: seq<nat>, n: nat) {
    && (forall k :: 0 <= k < |places| ==> places[k] < n)
    && (forall j, k :: 0 <= j < k < |places| ==> places[j] < places[k])
  }

  function At<T>(s: seq<T>, places: seq<nat>): (r: seq<T>)
    requires forall k :: 0 <= k < |places| ==> places[k] < |s|
    ensures |r| == |places|
  {
    seq(|places|, k requires 0 <= k < |places| => s[places[k]])
  }

  /** The places of everything kept: rising, and all of those at which the list differs from what is taken out. */
  ghost predicate Keeps<T>(s: seq<T>, r: seq<T>, places: seq<nat>, goes: T -> bool) {
    && AreRising(places, |s|) && r == At(s, places)
    && forall i: nat :: i < |s| ==> (i in places <==> !goes(s[i]))
  }

  function Shifted(places: seq<nat>): (r: seq<nat>)
    ensures |r| == |places| && forall k :: 0 <= k < |places| ==> r[k] == places[k] + 1
  {
    seq(|places|, k requires 0 <= k < |places| => places[k] + 1)
  }

  lemma ShiftedHolds(places: seq<nat>, i: nat)
    ensures i + 1 in Shifted(places) <==> i in places
    ensures 0 !in Shifted(places)
  {
    if i in places {
      var k :| 0 <= k < |places| && places[k] == i;
      assert Shifted(places)[k] == i + 1;
    }
    if i + 1 in Shifted(places) {
      var k :| 0 <= k < |places| && Shifted(places)[k] == i + 1;
      assert places[k] == i;
    }
  }

  /** The kept places after one more element in front, which stays or goes. */
  function NextPlaces(stays: bool, places: seq<nat>): seq<nat> {
    (if stays then [0] else []) + Shifted(places)
  }

  lemma NextIsRising(stays: bool, places: seq<nat>, n: nat)
    requires AreRising(places, n)
    ensures AreRising(NextPlaces(stays, places), n + 1)
  {
  }

  lemma NextHolds(stays: bool, places: seq<nat>, i: nat)
    ensures i in NextPlaces(stays, places) <==> if i == 0 then stays else i - 1 in places
  {
    ShiftedHolds(places, if i == 0 then 0 else i - 1);
    hide Shifted;
  }

  lemma NextTakes<T>(x: T, s: seq<T>, stays: bool, places: seq<nat>)
    requires AreRising(places, |s|)
    ensures AreRising(NextPlaces(stays, places), |[x] + s|)
    ensures At([x] + s, NextPlaces(stays, places)) == (if stays then [x] else []) + At(s, places)
  {
    NextIsRising(stays, places, |s|);
  }

  lemma KeepsOne<T>(x: T, s: seq<T>, r: seq<T>, places: seq<nat>, goes: T -> bool)
    requires Keeps(s, r, places, goes)
    ensures Keeps([x] + s, (if goes(x) then [] else [x]) + r, NextPlaces(!goes(x), places), goes)
  {
    hide NextPlaces, At, AreRising;
    NextTakes(x, s, !goes(x), places);
    forall i: nat | i < |[x] + s|
      ensures i in NextPlaces(!goes(x), places) <==> !goes(([x] + s)[i])
    {
      NextHolds(!goes(x), places, i);
      if i > 0 {
        assert ([x] + s)[i] == s[i - 1];
      }
    }
  }

  function IsQuestion(id: QuestionId): QuestionId -> bool {
    x => x == id
  }

  function HasId(id: string): Section -> bool {
    (s: Section) => s.id == id
  }

  /** Removing a question takes out all its places in the section and nothing else, in order. */
  lemma {:induction false} WithoutKeeps(ids: seq<QuestionId>, id: QuestionId) returns (places: seq<nat>)
    ensures Keeps(ids, Without(ids, id), places, IsQuestion(id))
  {
    if ids == [] {
      places := [];
    } else {
      hide Keeps;
      var rest := WithoutKeeps(ids[1..], id);
      KeepsOne(ids[0], ids[1..], Without(ids[1..], id), rest, IsQuestion(id));
      places := NextPlaces(ids[0] != id, rest);
      assert [ids[0]] + ids[1..] == ids;
    }
  }

  lemma {:induction false} DropKeeps(sections: seq<Section>, id: string) returns (places: seq<nat>)
    ensures Keeps(sections, DropSections(sections, id), places, HasId(id))
  {
    if sections == [] {
      places := [];
    } else {
      hide Keeps;
      var rest := DropKeeps(sections[1..], id);
      KeepsOne(sections[0], sections[1..], DropSections(sections[1..], id), rest, HasId(id));
      places := NextPlaces(sections[0].id != id, rest);
      assert [sections[0]] + sections[1..] == sections;
    }
  }

  // ---------------------------------------------------------------- operations

  /** The first section of an id. */
  predicate IsSection(p: Package, i: int, id: string) {
    0 <= i < |p.sections| && p.sections[i].id == id && forall j :: 0 <= j < i ==> p.sections[j].id != id
  }

  lemma {:induction false} SectionIndexIsFirst(sections: seq<Section>, id: string)
    ensures var i := SectionIndex(sections, id);
            if i >= 0 then sections[i].id == id && forall j :: 0 <= j < i ==> sections[j].id != id
            else forall j :: 0 <= j < |sections| ==> sections[j].id != id
  {
    if sections != [] && sections[0].id != id {
      SectionIndexIsFirst(sections[1..], id);
    }
  }

  predicate HasName(p: Package, name: string) {
    exists i :: 0 <= i < |p.sections| && Text.LowerText(p.sections[i].name) == Text.LowerText(name)
  }

  /** Which operations on a package are accepted. */
  lemma AppliesIff(bank: seq<Question>, p: Package, op: Op)
    ensures Apply(bank, p, op).Some? <==>
            match op
            case Save(section, f) =>
              p.status != Archived && (exists i :: IsSection(p, i, section)) && HasText(f.text) && HasText(f.reference)
            case DuplicateQuestion(section, question) =>
              && p.status != Archived && (exists i :: IsSection(p, i, section))
              && question in BankIds(bank) && IsComplete(CopyPayload(ContentOf(bank, question).value))
            case RemoveQuestion(section, question) =>
              p.status != Archived && exists i :: IsSection(p, i, section) && question in p.sections[i].questionIds
            case AddSection(_, name) => p.status != Archived && HasText(name) && !HasName(p, Text.Trim(name))
            case RemoveSection(section) => p.status != Archived && |p.sections| > 1 && exists i :: IsSection(p, i, section)
            case MoveSection(section, up) =>
              p.status != Archived && exists i :: IsSection(p, i, section) && 0 <= (if up then i - 1 else i + 1) < |p.sections|
            case PublishVersion => p.status != Archived
            case Archive => true
  {
    hide Text.Trim, Text.IsBlank, Text.LowerText, MaxNumber, Saved, Written, CopyPayload, FreshIds.UniqueId;
    var id := match op
      case Save(section, _) => section
      case DuplicateQuestion(section, _) => section
      case RemoveQuestion(section, _) => section
      case RemoveSection(section) => section
      case MoveSection(section, _) => section
      case _ => "";
    SectionIndexIsFirst(p.sections, id);
    var i := SectionIndex(p.sections, id);
    assert forall j :: IsSection(p, j, id) ==> j == i;
    assert i >= 0 ==> IsSection(p, i, id);
    match op
    case Save(_, f) =>
      Text.TrimIsEmptyIff(f.text);
      Text.TrimIsEmptyIff(f.reference);
    case AddSection(_, name) => Text.TrimIsEmptyIff(name);
    case _ =>
  }

  /** The package an edit starts from. */
  function Editable(p: Package): Package
    requires p.status != Archived
  {
    EnsureDraft(p).value
  }

  /** Removing a question keeps the bank, every other section and every other question of its section in order. */
  lemma RemoveQuestionLeaves(bank: seq<Question>, p: Package, section: string, question: QuestionId) returns (i: nat, places: seq<nat>)
    requires Apply(bank, p, RemoveQuestion(section, question)).Some? && p.status != Archived
    ensures IsSection(p, i, section)
    ensures var (bank', q) := Apply(bank, p, RemoveQuestion(section, question)).value;
            && bank' == bank && q.(sections := p.sections) == Editable(p) && |q.sections| == |p.sections|
            && (forall j :: 0 <= j < |p.sections| && j != i ==> q.sections[j] == p.sections[j])
            && q.sections[i] == p.sections[i].(questionIds := q.sections[i].questionIds)
            && Keeps(p.sections[i].questionIds, q.sections[i].questionIds, places, IsQuestion(question))
  {
    hide Keeps, MaxNumber;
    SectionIndexIsFirst(p.sections, section);
    i := SectionIndex(p.sections, section);
    places := WithoutKeeps(p.sections[i].questionIds, question);
  }

  lemma RemoveSectionLeaves(bank: seq<Question>, p: Package, section: string) returns (places: seq<nat>)
    requires Apply(bank, p, RemoveSection(section)).Some? && p.status != Archived
    ensures var (bank', q) := Apply(bank, p, RemoveSection(section)).value;
            && bank' == bank && q.(sections := p.sections) == Editable(p)
            && Keeps(p.sections, q.sections, places, HasId(section))
  {
    hide Keeps, MaxNumber;
    places := DropKeeps(p.sections, section);
  }

  /** Moving a section exchanges it with its neighbour. */
  lemma MoveSectionLeaves(bank: seq<Question>, p: Package, section: string, up: bool) returns (i: nat, j: nat)
    requires Apply(bank, p, MoveSection(section, up)).Some? && p.status != Archived
    ensures IsSection(p, i, section) && j < |p.sections| && (if up then j + 1 == i else j == i + 1)
    ensures var (bank', q) := Apply(bank, p, MoveSection(section, up)).value;
            && bank' == bank && q.(sections := p.sections) == Editable(p) && |q.sections| == |p.sections|
            && q.sections[i] == p.sections[j] && q.sections[j] == p.sections[i]
            && forall k :: 0 <= k < |p.sections| && k != i && k != j ==> q.sections[k] == p.sections[k]
  {
    hide MaxNumber;
    SectionIndexIsFirst(p.sections, section);
    i := SectionIndex(p.sections, section);
    j := if up then i - 1 else i + 1;
  }

  /** A new section stands last, empty, under an id no section has. */
  lemma AddSectionLeaves(bank: seq<Question>, p: Package, prefix: string, name: string)
    requires Apply(bank, p, AddSection(prefix, name)).Some? && p.status != Archived
    ensures var (bank', q) := Apply(bank, p, AddSection(prefix, name)).value;
            var n := |p.sections|;
            && bank' == bank && q.(sections := p.sections) == Editable(p)
            && |q.sections| == n + 1 && q.sections[..n] == p.sections
            && q.sections[n].name == Text.Trim(name) && q.sections[n].questionIds == []
            && (forall i :: 0 <= i < n ==> p.sections[i].id != q.sections[n].id)
            && exists m: nat :: m > n && q.sections[n].id == prefix + Decimal.PadStart(Decimal.Print(m), 3)
  {
    hide MaxNumber, Decimal.PadStart, Decimal.Print, Text.Trim;
    var m := FreshIds.UniqueIdIsFirstFree(SectionIds(p.sections), prefix);
    assert forall i :: 0 <= i < |p.sections| ==> p.sections[i].id == SectionIds(p.sections)[i];
  }

  /** A save or a question's duplication goes to the first section of the id, in the open draft. */
  lemma SaveGoesToSection(bank: seq<Question>, p: Package, section: string, f: Payload) returns (i: nat)
    requires Apply(bank, p, Save(section, f)).Some? && p.status != Archived
    ensures IsSection(p, i, section) && i < |Editable(p).sections|
    ensures Apply(bank, p, Save(section, f)) == Some(Saved(bank, Editable(p), i, f))
  {
    hide MaxNumber, Saved, Text.Trim;
    SectionIndexIsFirst(p.sections, section);
    i := SectionIndex(p.sections, section);
  }

  /** A duplicated question is saved anew with its own fields and a mark on its text. */
  lemma DuplicateQuestionSaves(bank: seq<Question>, p: Package, section: string, question: QuestionId)
    requires question in BankIds(bank)
    ensures var c := ContentOf(bank, question).value;
            Apply(bank, p, DuplicateQuestion(section, question)) ==
            Apply(bank, p, Save(section, Payload(
              None, c.text + " (Copy)",
              if c.reference == "" then c.regulationRef else c.reference,
              if c.guidance == "" then c.inspectorGuidance else c.guidance,
              c.evidenceMethods, c.likelihood, c.impact, c.findingTypes, c.mandatory, c.critical, c.status)))
  {
    hide SaveIn;
  }

  /** Steps on whole packages: a copy is a draft of the same sections and number without versions, a new one a draft 0.1 with one empty section. */
  lemma PackageSteps(w: World, id: PackageId, source: PackageId, department: string)
    ensures var v := After1(w, DuplicatePackage(source, id));
            if source in w.packages && id !in w.packages then
              && v.bank == w.bank && v.packages == w.packages[id := v.packages[id]]
              && var (p, q) := (w.packages[source], v.packages[id]);
                 && q.status == Draft && q.number == p.number && q.versions == [] && q.drafts == [] && q.sections == p.sections
                 && (HasText(p.department) ==> q.department == Text.Trim(p.department))
                 && (!HasText(p.department) ==> q.department == "Cabin Safety")
            else v == w
    ensures var v := After1(w, CreatePackage(id, department));
            if id !in w.packages then
              && v.bank == w.bank && v.packages == w.packages[id := v.packages[id]]
              && var q := v.packages[id];
                 && q.status == Draft && q.number == 1 && q.versions == [] && q.drafts == []
                 && q.sections == [Section(id + "-SEC-01", "General", [])]
                 && (HasText(department) ==> q.department == Text.Trim(department))
                 && (!HasText(department) ==> q.department == "Cabin Safety")
            else v == w
  {
    Departments(department);
    if source in w.packages {
      Departments(w.packages[source].department);
    }
    hide DepartmentOr, HasText;
  }

  lemma Departments(department: string)
    ensures HasText(department) ==> DepartmentOr(department) == Text.Trim(department)
    ensures !HasText(department) ==> DepartmentOr(department) == "Cabin Safety"
  {
    Text.TrimIsEmptyIff(department);
    CabinSafety();
    hide Text.Trim;
  }

  lemma CabinSafety()
    ensures Text.Trim("Cabin Safety") == "Cabin Safety"
  {
  }

  /** An operation leaves every other package alone, and everything if it is refused. */
  lemma OperationTouchesOne(w: World, id: PackageId, op: Op)
    ensures var v := After1(w, On(id, op));
            && v.packages.Keys == w.packages.Keys
            && (forall other :: other in w.packages && other != id ==> v.packages[other] == w.packages[other])
            && (id !in w.packages || Apply(w.bank, w.packages[id], op) == None ==> v == w)
            && (id in w.packages && Apply(w.bank, w.packages[id], op).Some? ==>
                  Apply(w.bank, w.packages[id], op).value == (v.bank, v.packages[id]))
  {
    hide Apply;
  }

  /** An archived package is refused everything but being archived again. */
  lemma ArchivedIsRefused(bank: seq<Question>, p: Package, op: Op)
    requires p.status == Archived
    ensures Apply(bank, p, op) == if op == Archive then Some((bank, p)) else None
  {
    hide Text.Trim, Text.LowerText;
  }

  lemma {:induction false} ArchivedStays(w: World, steps: seq<Step>, id: PackageId)
    requires id in w.packages && w.packages[id].status == Archived
    ensures id in After(w, steps).packages && After(w, steps).packages[id] == w.packages[id]
  {
    if steps != [] {
      hide Apply;
      var n := |steps| - 1;
      ArchivedStays(w, steps[..n], id);
      var v := After(w, steps[..n]);
      if steps[n].On? && steps[n].package == id {
        ArchivedIsRefused(v.bank, v.packages[id], steps[n].op);
      }
    }
  }

  /** Archiving changes nothing but the status, and no later run changes the package. */
  lemma ArchivingIsFinal(w: World, id: PackageId, steps: seq<Step>)
    requires id in w.packages
    ensures var v := After1(w, On(id, Archive));
            && v == World(w.bank, w.packages[id := w.packages[id].(status := Archived)])
            && id in After(v, steps).packages && After(v, steps).packages[id] == v.packages[id]
  {
    ArchivedStays(After1(w, On(id, Archive)), steps, id);
  }

  // ---------------------------------------------------------------- risk

  /** The two scales of a question's risk; any other text counts as the lowest. */
  lemma ScalesAre(text: string)
    ensures LikelihoodScore("Rare") == 1 && LikelihoodScore("Unlikely") == 2 && LikelihoodScore("Possible") == 3
    ensures LikelihoodScore("Likely") == 4 && LikelihoodScore("Almost Certain") == 5
    ensures ImpactScore("Insignificant") == 1 && ImpactScore("Minor") == 2 && ImpactScore("Moderate") == 3
    ensures ImpactScore("Major") == 4 && ImpactScore("Catastrophic") == 5
    ensures text != "Unlikely" && text != "Possible" && text != "Likely" && text != "Almost Certain" ==> LikelihoodScore(text) == 1
    ensures text != "Minor" && text != "Moderate" && text != "Major" && text != "Catastrophic" ==> ImpactScore(text) == 1
  {
    FirstLetters();
  }

  /** The names of each scale differ in their first letters or their lengths. */
  lemma FirstLetters()
    ensures "Unlikely" != "Possible" && "Unlikely" != "Likely" && "Unlikely" != "Almost Certain" && "Possible" != "Likely"
    ensures "Possible" != "Almost Certain" && "Likely" != "Almost Certain"
    ensures "Rare" != "Unlikely" && "Rare" != "Possible" && "Rare" != "Likely" && "Rare" != "Almost Certain"
    ensures "Minor" != "Moderate" && "Minor" != "Major" && "Minor" != "Catastrophic" && "Moderate" != "Major"
    ensures "Moderate" != "Catastrophic" && "Major" != "Catastrophic"
    ensures "Insignificant" != "Minor" && "Insignificant" != "Moderate" && "Insignificant" != "Major" && "Insignificant" != "Catastrophic"
  {
    assert "Unlikely"[0] != "Possible"[0] && "Unlikely"[0] != "Likely"[0] && "Unlikely"[0] != "Almost Certain"[0];
    assert "Possible"[0] != "Likely"[0] && "Possible"[0] != "Almost Certain"[0] && "Likely"[0] != "Almost Certain"[0];
    assert "Rare"[0] != "Unlikely"[0] && "Rare"[0] != "Possible"[0] && "Rare"[0] != "Likely"[0] && "Rare"[0] != "Almost Certain"[0];
    assert |"Minor"| == 5 && |"Moderate"| == 8 && |"Major"| == 5 && "Minor"[1] != "Major"[1];
    assert "Minor"[0] != "Catastrophic"[0] && "Moderate"[0] != "Catastrophic"[0] && "Major"[0] != "Catastrophic"[0];
    assert "Insignificant"[0] != "Minor"[0] && "Insignificant"[0] != "Moderate"[0];
    assert "Insignificant"[0] != "Major"[0] && "Insignificant"[0] != "Catastrophic"[0];
  }
}
