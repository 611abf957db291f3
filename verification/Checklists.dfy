// Checklist packages with copy-on-write questions: one question bank, any number
// of packages, drafts and published versions.
module Checklists {
  import opened Wrappers
  import FreshIds
  import Text

  type QuestionId = string
  type PackageId = string

  datatype RiskLevel = Low | Medium | High | Critical

  /** A question's content: what a save writes, and in `rest` the fields it leaves as they were. */
  datatype Content = Content(
    title: string,
    text: string,
    reference: string,
    regulationRef: string,
    guidance: string,
    inspectorGuidance: string,
    evidenceMethods: seq<string>,
    likelihood: string,
    impact: string,
    riskScore: int,
    riskLevel: RiskLevel,
    findingTypes: seq<string>,
    mandatory: bool,
    critical: bool,
    status: string,
    department: string,
    rest: string)

  datatype Question = Question(id: QuestionId, content: Content)

  datatype Section = Section(id: string, name: string, questionIds: seq<QuestionId>)

  /** Version numbers are one-decimal, kept here in tenths. */
  datatype Version = Version(number: int, active: bool, questionIds: seq<QuestionId>)

  datatype Status = Draft | Published | Archived

  datatype Package = Package(
    department: string,
    status: Status,
    number: int,
    versions: seq<Version>,
    sections: seq<Section>,
    drafts: seq<QuestionId>)

  datatype World = World(bank: seq<Question>, packages: map<PackageId, Package>)

  // ---------------------------------------------------------------- lookups

  function BankIds(bank: seq<Question>): (ids: seq<QuestionId>)
    ensures |ids| == |bank|
  {
    seq(|bank|, i requires 0 <= i < |bank| => bank[i].id)
  }

  /** managerChecklistQuestionById: the position of the first question with the id, or -1. */
  function Find(bank: seq<Question>, id: QuestionId): (i: int)
    ensures -1 <= i < |bank| && (i >= 0 ==> bank[i].id == id && forall j :: 0 <= j < i ==> bank[j].id != id)
    ensures i == -1 <==> id !in BankIds(bank)
  {
    if bank == [] then -1
    else if bank[0].id == id then
      assert BankIds(bank)[0] == id;
      0
    else
      var i := Find(bank[1..], id);
      assert BankIds(bank) == [bank[0].id] + BankIds(bank[1..]);
      if i < 0 then -1 else i + 1
  }

  function SectionIndex(sections: seq<Section>, id: string): (i: int)
    ensures -1 <= i < |sections|
  {
    if sections == [] then -1
    else if sections[0].id == id then 0
    else
      var i := SectionIndex(sections[1..], id);
      if i < 0 then -1 else i + 1
  }

  function SectionIds(sections: seq<Section>): seq<string> {
    seq(|sections|, i requires 0 <= i < |sections| => sections[i].id)
  }

  /** Every question id the sections name, in order. */
  function SectionQuestions(sections: seq<Section>): seq<QuestionId> {
    if sections == [] then [] else SectionQuestions(sections[..|sections| - 1]) + sections[|sections| - 1].questionIds
  }

  /** The highest number among the versions and the package's own. */
  function MaxNumber(versions: seq<Version>, start: int): (m: int)
    ensures m >= start && forall i :: 0 <= i < |versions| ==> versions[i].number <= m
    ensures m == start || exists i :: 0 <= i < |versions| && versions[i].number == m
  {
    if versions == [] then start
    else
      var before := MaxNumber(versions[..|versions| - 1], start);
      var last := versions[|versions| - 1].number;
      if last > before then last else before
  }

  // ---------------------------------------------------------------- operations on a package

  /** managerChecklistEnsureDraft */
  function EnsureDraft(p: Package): Option<Package> {
    if p.status == Archived then None
    else if p.status == Draft then Some(p)
    else Some(p.(number := MaxNumber(p.versions, p.number) + 1, status := Draft, drafts := []))
  }

  function PublishedNumber(p: Package): int {
    var max := MaxNumber(p.versions, p.number);
    if p.status == Draft && p.number > max then p.number else max + 1
  }

  function Retired(versions: seq<Version>): (r: seq<Version>)
    ensures |r| == |versions|
  {
    seq(|versions|, i requires 0 <= i < |versions| => versions[i].(active := false))
  }

  /** publishManagerChecklistVersion */
  function Publish(p: Package): Option<Package> {
    if p.status == Archived then None
    else
      var number := PublishedNumber(p);
      var version := Version(number, true, SectionQuestions(p.sections));
      Some(Package(p.department, Published, number, Retired(p.versions) + [version], p.sections, []))
  }

  function WithSection(p: Package, i: int, ids: seq<QuestionId>): Package
    requires 0 <= i < |p.sections|
  {
    p.(sections := p.sections[i := p.sections[i].(questionIds := ids)])
  }

  /** What a save is given; an empty text stands for a missing one. */
  datatype Payload = Payload(
    id: Option<QuestionId>,
    text: string,
    reference: string,
    guidance: string,
    evidenceMethods: seq<string>,
    likelihood: string,
    impact: string,
    findingTypes: seq<string>,
    mandatory: bool,
    critical: bool,
    status: string)

  predicate IsComplete(f: Payload) {
    Text.Trim(f.text) != "" && Text.Trim(f.reference) != ""
  }

  function LikelihoodScore(likelihood: string): (score: int)
    ensures 1 <= score <= 5
  {
    if likelihood == "Almost Certain" then 5
    else if likelihood == "Likely" then 4
    else if likelihood == "Possible" then 3
    else if likelihood == "Unlikely" then 2
    else 1
  }

  function ImpactScore(impact: string): (score: int)
    ensures 1 <= score <= 5
  {
    if impact == "Catastrophic" then 5
    else if impact == "Major" then 4
    else if impact == "Moderate" then 3
    else if impact == "Minor" then 2
    else 1
  }

  function Level(score: int): RiskLevel {
    if score >= 15 then Critical else if score >= 10 then High else if score >= 5 then Medium else Low
  }

  function Or(text: string, default: string): string {
    if text == "" then default else text
  }

  /** A title fits in sixty-four characters. */
  function Title(text: string): (title: string)
    ensures |title| <= 64
  {
    if |text| > 64 then text[..61] + "..." else text
  }

  /** A content after a save: everything but `rest` is written. */
  function Written(c: Content, f: Payload, department: string): Content {
    var text := Text.Trim(f.text);
    var reference := Text.Trim(f.reference);
    var guidance := Text.Trim(f.guidance);
    var score := LikelihoodScore(f.likelihood) * ImpactScore(f.impact);
    Content(
      Title(text), text, reference, reference, guidance, guidance, f.evidenceMethods,
      Or(f.likelihood, "Rare"), Or(f.impact, "Insignificant"), score, Level(score),
      f.findingTypes, f.mandatory, f.critical, Or(f.status, "Active"), department, c.rest)
  }

  const BLANK: Content := Content("", "", "", "", "", "", [], "", "", 0, Low, [], false, false, "", "", "")

  const QUESTION_PREFIX := "MGR-Q-"

  function IndexIn(ids: seq<QuestionId>, id: QuestionId): (i: int)
    ensures -1 <= i < |ids|
  {
    if ids == [] then -1
    else if ids[0] == id then 0
    else
      var i := IndexIn(ids[1..], id);
      if i < 0 then -1 else i + 1
  }

  /**
   * saveManagerChecklistQuestion, once the draft is ready: the bank and the
   * package after it. A question that is not this draft's own is copied first.
   */
  function Saved(bank: seq<Question>, p: Package, section: int, f: Payload): (seq<Question>, Package)
    requires 0 <= section < |p.sections|
  {
    var at := match f.id case Some(id) => Find(bank, id) case None => -1;
    var ids := p.sections[section].questionIds;
    if at >= 0 && bank[at].id in p.drafts then
      (bank[at := bank[at].(content := Written(bank[at].content, f, p.department))], p)
    else
      var id := FreshIds.UniqueId(BankIds(bank), QUESTION_PREFIX);
      var base := if at >= 0 then bank[at].content else BLANK;
      var place := if at >= 0 then IndexIn(ids, bank[at].id) else -1;
      var placed := if at < 0 then ids + [id] else if place >= 0 then ids[place := id] else ids;
      (bank + [Question(id, Written(base, f, p.department))], WithSection(p.(drafts := p.drafts + [id]), section, placed))
  }

  function Without(ids: seq<QuestionId>, id: QuestionId): (r: seq<QuestionId>)
    ensures forall x :: x in r ==> x in ids
  {
    if ids == [] then [] else (if ids[0] == id then [] else [ids[0]]) + Without(ids[1..], id)
  }

  function Swapped(sections: seq<Section>, i: int, j: int): (r: seq<Section>)
    requires 0 <= i < |sections| && 0 <= j < |sections|
    ensures |r| == |sections|
  {
    sections[i := sections[j]][j := sections[i]]
  }

  function DropSections(sections: seq<Section>, id: string): (r: seq<Section>)
    ensures forall s :: s in r ==> s in sections
  {
    if sections == [] then [] else (if sections[0].id == id then [] else [sections[0]]) + DropSections(sections[1..], id)
  }

  datatype Op =
    | Save(section: string, payload: Payload)
    | DuplicateQuestion(section: string, question: QuestionId)
    | RemoveQuestion(section: string, question: QuestionId)
    | AddSection(prefix: string, name: string)
    | RemoveSection(section: string)
    | MoveSection(section: string, up: bool)
    | PublishVersion
    | Archive

  /** The payload of a duplicated question: its own text with a mark, and no id. */
  function CopyPayload(c: Content): Payload {
    Payload(
      None, c.text + " (Copy)", Or(c.reference, c.regulationRef), Or(c.guidance, c.inspectorGuidance),
      c.evidenceMethods, c.likelihood, c.impact, c.findingTypes, c.mandatory, c.critical, c.status)
  }

  function SaveIn(bank: seq<Question>, p: Package, section: string, f: Payload): Option<(seq<Question>, Package)> {
    var i := SectionIndex(p.sections, section);
    if i < 0 || !IsComplete(f) then None
    else
      var draft :- EnsureDraft(p);
      Some(Saved(bank, draft, i, f))
  }

  /** An operation on one package; None where it is refused. */
  function Apply(bank: seq<Question>, p: Package, op: Op): Option<(seq<Question>, Package)> {
    match op
    case Save(section, f) => SaveIn(bank, p, section, f)
    case DuplicateQuestion(section, question) =>
      var at := Find(bank, question);
      if at < 0 then None else SaveIn(bank, p, section, CopyPayload(bank[at].content))
    case RemoveQuestion(section, question) =>
      var i := SectionIndex(p.sections, section);
      if i < 0 || question !in p.sections[i].questionIds then None
      else
        var draft :- EnsureDraft(p);
        Some((bank, WithSection(draft, i, Without(draft.sections[i].questionIds, question))))
    case AddSection(prefix, name) =>
      var clean := Text.Trim(name);
      if clean == "" || exists i :: 0 <= i < |p.sections| && Text.LowerText(p.sections[i].name) == Text.LowerText(clean) then None
      else
        var draft :- EnsureDraft(p);
        var id := FreshIds.UniqueId(SectionIds(p.sections), prefix);
        Some((bank, draft.(sections := draft.sections + [Section(id, clean, [])])))
    case RemoveSection(section) =>
      if |p.sections| <= 1 || SectionIndex(p.sections, section) < 0 then None
      else
        var draft :- EnsureDraft(p);
        Some((bank, draft.(sections := DropSections(draft.sections, section))))
    case MoveSection(section, up) =>
      var i := SectionIndex(p.sections, section);
      var next := if up then i - 1 else i + 1;
      if i < 0 || next < 0 || next >= |p.sections| then None
      else
        var draft :- EnsureDraft(p);
        Some((bank, draft.(sections := Swapped(draft.sections, i, next))))
    case PublishVersion =>
      var published :- Publish(p);
      Some((bank, published))
    case Archive => Some((bank, p.(status := Archived)))
  }

  datatype Step =
    | On(package: PackageId, op: Op)
    | DuplicatePackage(source: PackageId, copy: PackageId)
    | CreatePackage(package: PackageId, department: string)

  function DepartmentOr(department: string): string {
    Or(Text.Trim(Or(department, "Cabin Safety")), "Cabin Safety")
  }

  /** createManagerChecklistPackage: a draft 0.1 with one empty section. */
  function Created(id: PackageId, department: string): Package {
    Package(DepartmentOr(department), Draft, 1, [], [Section(id + "-SEC-01", "General", [])], [])
  }

  /** duplicateManagerChecklistPackage: a draft with the source's sections and no draft questions of its own. */
  function Copied(p: Package): Package {
    Package(DepartmentOr(p.department), Draft, p.number, [], p.sections, [])
  }

  function After1(w: World, s: Step): World {
    match s
    case On(id, op) =>
      if id !in w.packages then w
      else
        (match Apply(w.bank, w.packages[id], op)
         case Some(r) => World(r.0, w.packages[id := r.1])
         case None => w)
    case DuplicatePackage(source, copy) =>
      if source !in w.packages || copy in w.packages then w
      else w.(packages := w.packages[copy := Copied(w.packages[source])])
    case CreatePackage(id, department) =>
      if id in w.packages then w else w.(packages := w.packages[id := Created(id, department)])
  }

  function After(w: World, steps: seq<Step>): World {
    if steps == [] then w else After1(After(w, steps[..|steps| - 1]), steps[|steps| - 1])
  }

  /** The workspace as the operations update it in place. */
  class ChecklistState {
    var bank: seq<Question>
    var packages: map<PackageId, Package>

    constructor (w: World)
      ensures Value() == w
    {
      bank, packages := w.bank, w.packages;
    }

    function Value(): World
      reads this
    {
      World(bank, packages)
    }

    method SaveQuestion(id: PackageId, section: string, f: Payload) returns (ok: bool)
      modifies this
      ensures Value() == After1(old(Value()), On(id, Save(section, f)))
      ensures !ok ==> Value() == old(Value())
    {
      hide MaxNumber, IsComplete, Written, SectionIndex, IndexIn, Find, FreshIds.UniqueId;
      if id !in packages {
        return false;
      }
      var i := SectionIndex(packages[id].sections, section);
      if i < 0 || !IsComplete(f) {
        return false;
      }
      var draft := EnsureDraft(packages[id]);
      if draft == None {
        return false;
      }
      var p := draft.value;
      var at := match f.id case Some(q) => Find(bank, q) case None => -1;
      if at >= 0 && bank[at].id in p.drafts {
        bank := bank[at := bank[at].(content := Written(bank[at].content, f, p.department))];
      } else {
        var ids := p.sections[i].questionIds;
        var fresh_ := FreshIds.FindUniqueId(BankIds(bank), QUESTION_PREFIX);
        var base := BLANK;
        if at >= 0 {
          base := bank[at].content;
          var place := IndexIn(ids, bank[at].id);
          if place >= 0 {
            ids := ids[place := fresh_];
          }
        } else {
          ids := ids + [fresh_];
        }
        bank := bank + [Question(fresh_, Written(base, f, p.department))];
        p := WithSection(p.(drafts := p.drafts + [fresh_]), i, ids);
      }
      packages := packages[id := p];
      ok := true;
    }

    method PublishPackage(id: PackageId) returns (number: Option<int>)
      modifies this`packages
      ensures Value() == After1(old(Value()), On(id, PublishVersion))
      ensures number.Some? ==> id in packages && packages[id].number == number.value
    {
      hide SectionQuestions, Retired;
      if id !in packages || packages[id].status == Archived {
        return None;
      }
      var p := packages[id];
      var max := p.number;
      for k := 0 to |p.versions|
        invariant max == MaxNumber(p.versions[..k], p.number)
      {
        assert p.versions[..k + 1][..k] == p.versions[..k];
        if p.versions[k].number > max {
          max := p.versions[k].number;
        }
      }
      assert p.versions[..|p.versions|] == p.versions;
      var next := if p.status == Draft && p.number > max then p.number else max + 1;
      var version := Version(next, true, SectionQuestions(p.sections));
      packages := packages[id := Package(p.department, Published, next, Retired(p.versions) + [version], p.sections, [])];
      number := Some(next);
    }
  }
}
