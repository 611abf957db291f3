// What every run of checklist operations keeps: published questions never
// change, version numbers rise, and one version is active after a publish.
module ChecklistRuns {
  import opened Wrappers
  import opened Checklists
  import FreshIds
  import Text

  // ---------------------------------------------------------------- names and contents

  function ContentOf(bank: seq<Question>, id: QuestionId): Option<Content> {
    var i := Find(bank, id);
    if i < 0 then None else Some(bank[i].content)
  }

  predicate Names(sections: seq<Section>, id: QuestionId) {
    exists i :: 0 <= i < |sections| && id in sections[i].questionIds
  }

  predicate Publishes(p: Package, id: QuestionId) {
    exists i :: 0 <= i < |p.versions| && id in p.versions[i].questionIds
  }

  lemma {:induction false} SectionQuestionsAreNamed(sections: seq<Section>, id: QuestionId)
    ensures id in SectionQuestions(sections) <==> Names(sections, id)
  {
    if sections != [] {
      var n := |sections| - 1;
      SectionQuestionsAreNamed(sections[..n], id);
      if Names(sections[..n], id) {
        var i :| 0 <= i < n && id in sections[..n][i].questionIds;
        assert id in sections[i].questionIds;
      }
      if Names(sections, id) {
        var i :| 0 <= i < |sections| && id in sections[i].questionIds;
        assert i < n ==> id in sections[..n][i].questionIds;
      }
    }
  }

  // ---------------------------------------------------------------- invariant

  /** Everything a package names is in the bank. */
  ghost predicate Known(bank: seq<Question>, p: Package) {
    forall id :: (Names(p.sections, id) || Publishes(p, id) || id in p.drafts) ==> id in BankIds(bank)
  }

  /** An open draft's own questions are in nobody's published versions and in no other package's sections. */
  ghost predicate Private(w: World, a: PackageId, b: PackageId)
    requires a in w.packages && b in w.packages
  {
    w.packages[a].status == Draft ==> forall id :: id in w.packages[a].drafts ==>
      !Publishes(w.packages[b], id) && (a != b ==> !Names(w.packages[b].sections, id))
  }

  ghost predicate AllKnown(w: World) {
    forall a :: a in w.packages ==> Known(w.bank, w.packages[a])
  }

  ghost predicate Inv(w: World) {
    && AllKnown(w)
    && (forall a, b :: a in w.packages && b in w.packages ==> Private(w, a, b))
  }

  /** What an operation on a package may do to it and to the bank. */
  ghost predicate Confined(bank: seq<Question>, p: Package, bank': seq<Question>, p': Package) {
    // The bank keeps every id, and contents change only for an open draft's own questions.
    && (forall id :: id in BankIds(bank) ==> id in BankIds(bank'))
    && (forall id :: id in BankIds(bank) && ContentOf(bank', id) != ContentOf(bank, id) ==>
          p.status == Draft && p'.status == Draft && id in p.drafts && id in p'.drafts)
    // Drafts are dropped, kept, or joined by an id new to the bank.
    && (forall id :: id in p'.drafts ==> (id in p.drafts || id !in BankIds(bank)) && id in BankIds(bank'))
    && (p'.status == Draft ==> forall id :: id in p'.drafts && id in BankIds(bank) ==> p.status == Draft && id in p.drafts)
    // Sections name old questions or new drafts.
    && (forall id :: Names(p'.sections, id) ==> Names(p.sections, id) || (id !in BankIds(bank) && id in p'.drafts))
    // Versions stay, and a new one names what the sections named; then no draft is left.
    && |p.versions| <= |p'.versions|
    && (forall i :: 0 <= i < |p.versions| ==>
          p'.versions[i].number == p.versions[i].number && p'.versions[i].questionIds == p.versions[i].questionIds)
    && (forall i, id :: |p.versions| <= i < |p'.versions| && id in p'.versions[i].questionIds ==> Names(p.sections, id))
    && (|p.versions| < |p'.versions| ==> p'.drafts == [])
  }

  // ---------------------------------------------------------------- every operation is confined

  lemma SameBankConfined(bank: seq<Question>, p: Package, p': Package)
    requires Known(bank, p)
    requires p'.versions == p.versions && forall id :: id in p'.drafts ==> id in p.drafts
    requires p'.status == Draft ==> p.status == Draft
    requires forall id :: Names(p'.sections, id) ==> Names(p.sections, id)
    ensures Confined(bank, p, bank, p')
  {
  }

  lemma ConfinedAfterDraft(bank: seq<Question>, p: Package, d: Package, bank': seq<Question>, p': Package)
    requires EnsureDraft(p) == Some(d) && Confined(bank, d, bank', p')
    ensures Confined(bank, p, bank', p')
  {
  }

  lemma BankIdsOfUpdate(bank: seq<Question>, i: nat, c: Content)
    requires i < |bank|
    ensures BankIds(bank[i := bank[i].(content := c)]) == BankIds(bank)
  {
  }

  lemma FindIn(bank: seq<Question>, i: nat)
    requires i < |bank| && forall j :: 0 <= j < i ==> bank[j].id != bank[i].id
    ensures Find(bank, bank[i].id) == i
  {
    assert BankIds(bank)[i] == bank[i].id;
  }

  lemma ContentAfterUpdate(bank: seq<Question>, q: QuestionId, c: Content, id: QuestionId)
    requires Find(bank, q) >= 0
    ensures var i := Find(bank, q);
            ContentOf(bank[i := bank[i].(content := c)], id) == if id == q then Some(c) else ContentOf(bank, id)
  {
    var i := Find(bank, q);
    var after := bank[i := bank[i].(content := c)];
    BankIdsOfUpdate(bank, i, c);
    var k := Find(bank, id);
    if k >= 0 {
      FindIn(after, k);
      assert after[k].id == id;
    }
  }

  lemma ContentAfterPush(bank: seq<Question>, q: Question, id: QuestionId)
    requires id in BankIds(bank)
    ensures ContentOf(bank + [q], id) == ContentOf(bank, id)
    ensures id in BankIds(bank + [q])
  {
    var k := Find(bank, id);
    var after := bank + [q];
    FindIn(after, k);
    assert after[k].id == id;
    assert BankIds(after)[k] == id;
  }

  lemma IdsAfterPush(bank: seq<Question>, q: Question, id: QuestionId)
    ensures id in BankIds(bank + [q]) <==> id in BankIds(bank) || id == q.id
  {
    assert BankIds(bank + [q]) == BankIds(bank) + [q.id];
  }

  lemma EditIsConfined(bank: seq<Question>, p: Package, q: QuestionId, c: Content)
    requires Known(bank, p) && Find(bank, q) >= 0 && q in p.drafts && p.status == Draft
    ensures Confined(bank, p, bank[Find(bank, q) := bank[Find(bank, q)].(content := c)], p)
  {
    var after := bank[Find(bank, q) := bank[Find(bank, q)].(content := c)];
    BankIdsOfUpdate(bank, Find(bank, q), c);
    forall id
      ensures ContentOf(after, id) == if id == q then Some(c) else ContentOf(bank, id)
    {
      ContentAfterUpdate(bank, q, c, id);
    }
  }

  lemma PushIsConfined(bank: seq<Question>, p: Package, section: nat, ids: seq<QuestionId>, q: Question)
    requires p.status == Draft
    requires Known(bank, p) && section < |p.sections| && q.id !in BankIds(bank)
    requires forall id :: id in ids ==> id in p.sections[section].questionIds || id == q.id
    ensures Confined(bank, p, bank + [q], WithSection(p.(drafts := p.drafts + [q.id]), section, ids))
  {
    hide ContentOf, Find;
    var after := bank + [q];
    var p' := WithSection(p.(drafts := p.drafts + [q.id]), section, ids);
    forall id
      ensures id in BankIds(after) <==> id in BankIds(bank) || id == q.id
      ensures id in BankIds(bank) ==> ContentOf(after, id) == ContentOf(bank, id)
    {
      IdsAfterPush(bank, q, id);
      if id in BankIds(bank) {
        ContentAfterPush(bank, q, id);
      }
    }
    forall id | Names(p'.sections, id)
      ensures Names(p.sections, id) || id == q.id
    {
      var i :| 0 <= i < |p'.sections| && id in p'.sections[i].questionIds;
      assert i != section ==> p'.sections[i] == p.sections[i];
    }
  }

  lemma SaveIsConfined(bank: seq<Question>, p: Package, section: int, f: Payload)
    requires Known(bank, p) && 0 <= section < |p.sections| && p.status == Draft
    ensures Confined(bank, p, Saved(bank, p, section, f).0, Saved(bank, p, section, f).1)
  {
    hide Confined, Known;
    var at := match f.id case Some(id) => Find(bank, id) case None => -1;
    var ids := p.sections[section].questionIds;
    if at >= 0 && bank[at].id in p.drafts {
      EditIsConfined(bank, p, bank[at].id, Written(bank[at].content, f, p.department));
    } else {
      var id := FreshIds.UniqueId(BankIds(bank), QUESTION_PREFIX);
      var base := if at >= 0 then bank[at].content else BLANK;
      var place := if at >= 0 then IndexIn(ids, bank[at].id) else -1;
      var placed := if at < 0 then ids + [id] else if place >= 0 then ids[place := id] else ids;
      PushIsConfined(bank, p, section, placed, Question(id, Written(base, f, p.department)));
    }
  }

  /** A content that says what a save was given, with its risk rated. */
  predicate IsWritten(c: Content, f: Payload, department: string) {
    && c.text == Text.Trim(f.text) && c.reference == c.regulationRef == Text.Trim(f.reference)
    && c.guidance == c.inspectorGuidance == Text.Trim(f.guidance)
    && c.title == Title(c.text) && |c.title| <= 64 && (|c.text| <= 64 ==> c.title == c.text)
    && c.evidenceMethods == f.evidenceMethods && c.findingTypes == f.findingTypes
    && c.mandatory == f.mandatory && c.critical == f.critical && c.department == department
    && c.riskScore == LikelihoodScore(f.likelihood) * ImpactScore(f.impact) && 1 <= c.riskScore <= 25
    && (c.riskLevel == Critical <==> 15 <= c.riskScore) && (c.riskLevel == High <==> 10 <= c.riskScore < 15)
    && (c.riskLevel == Medium <==> 5 <= c.riskScore < 10) && (c.riskLevel == Low <==> c.riskScore < 5)
    && c.likelihood == (if f.likelihood == "" then "Rare" else f.likelihood)
    && c.impact == (if f.impact == "" then "Insignificant" else f.impact)
    && c.status == (if f.status == "" then "Active" else f.status)
    // A likelihood or impact that is filled in for a missing one rates the same.
    && c.riskScore == LikelihoodScore(c.likelihood) * ImpactScore(c.impact)
  }

  lemma WrittenIsWritten(c: Content, f: Payload, department: string)
    ensures IsWritten(Written(c, f, department), f, department) && Written(c, f, department).rest == c.rest
  {
    hide Text.Trim;
  }

  /**
   * Copy on write, read back: a save gives its text to one question and no other
   * old question changes. That question is the one asked for if it is the draft's
   * own, and otherwise new, standing where the one asked for stood first.
   */
  lemma SavedIsRead(bank: seq<Question>, p: Package, section: nat, f: Payload) returns (q: QuestionId)
    requires Known(bank, p) && section < |p.sections|
    ensures var (bank', p') := Saved(bank, p, section, f);
            && ContentOf(bank', q).Some? && q in p'.drafts
            && IsWritten(ContentOf(bank', q).value, f, p.department)
            && (f.id.Some? && f.id.value in BankIds(bank) ==> ContentOf(bank', q).value.rest == ContentOf(bank, f.id.value).value.rest)
            && (forall id :: id in BankIds(bank) && id != q ==> ContentOf(bank', id) == ContentOf(bank, id))
            && (if f.id.Some? && f.id.value in p.drafts then q == f.id.value else q !in BankIds(bank))
            && var was, now := p.sections[section].questionIds, p'.sections[section].questionIds;
               if q in BankIds(bank) then p' == p
               else if f.id.Some? && f.id.value in BankIds(bank) then
                 && (f.id.value in was ==> var k := IndexIn(was, f.id.value); k >= 0 && now == was[k := q])
                 && (f.id.value !in was ==> now == was)
               else now == was + [q]
  {
    hide Known, Names, Written, IsWritten;
    if f.id.Some? && f.id.value in p.drafts {
      q := f.id.value;
      DraftsAreFound(bank, p, q);
      var at := Find(bank, q);
      WrittenIsWritten(bank[at].content, f, p.department);
      forall id
        ensures ContentOf(Saved(bank, p, section, f).0, id) ==
                if id == q then Some(Written(bank[at].content, f, p.department)) else ContentOf(bank, id)
      {
        ContentAfterUpdate(bank, q, Written(bank[at].content, f, p.department), id);
      }
    } else {
      q := FreshIds.UniqueId(BankIds(bank), QUESTION_PREFIX);
      var at := match f.id case Some(id) => Find(bank, id) case None => -1;
      var base := if at >= 0 then bank[at].content else BLANK;
      var question := Question(q, Written(base, f, p.department));
      WrittenIsWritten(base, f, p.department);
      PushedIsFound(bank, question);
      forall id | id in BankIds(bank)
        ensures ContentOf(bank + [question], id) == ContentOf(bank, id)
      {
        ContentAfterPush(bank, question, id);
      }
      if at >= 0 {
        IndexInFinds(p.sections[section].questionIds, bank[at].id);
      }
    }
  }

  lemma DraftsAreFound(bank: seq<Question>, p: Package, id: QuestionId)
    requires Known(bank, p) && id in p.drafts
    ensures id in BankIds(bank) && Find(bank, id) >= 0
  {
  }

  lemma PushedIsFound(bank: seq<Question>, q: Question)
    requires q.id !in BankIds(bank)
    ensures ContentOf(bank + [q], q.id) == Some(q.content)
  {
    var after := bank + [q];
    forall j | 0 <= j < |bank|
      ensures after[j].id != q.id
    {
      assert BankIds(bank)[j] == after[j].id;
    }
    FindIn(after, |bank|);
  }

  lemma {:induction false} IndexInFinds(ids: seq<QuestionId>, id: QuestionId)
    ensures var k := IndexIn(ids, id);
            if id in ids then k >= 0 && ids[k] == id && id !in ids[..k] else k == -1
  {
    if ids != [] && ids[0] != id {
      IndexInFinds(ids[1..], id);
    }
  }

  lemma PublishIsConfined(bank: seq<Question>, p: Package)
    requires Known(bank, p) && Publish(p).Some?
    ensures Confined(bank, p, bank, Publish(p).value)
  {
    hide ContentOf, BankIds, MaxNumber;
    forall id
      ensures id in SectionQuestions(p.sections) <==> Names(p.sections, id)
    {
      SectionQuestionsAreNamed(p.sections, id);
    }
  }

  lemma SectionsAreConfined(p: Package, op: Op, sections: seq<Section>)
    requires match op
             case RemoveQuestion(section, question) =>
               var i := SectionIndex(p.sections, section);
               i >= 0 && sections == p.sections[i := p.sections[i].(questionIds := Without(p.sections[i].questionIds, question))]
             case AddSection(_, name) => exists id :: sections == p.sections + [Section(id, Text.Trim(name), [])]
             case RemoveSection(section) => sections == DropSections(p.sections, section)
             case MoveSection(section, up) =>
               var i := SectionIndex(p.sections, section);
               var next := if up then i - 1 else i + 1;
               0 <= i && 0 <= next < |p.sections| && sections == Swapped(p.sections, i, next)
             case _ => false
    ensures forall id :: Names(sections, id) ==> Names(p.sections, id)
  {
    forall id | Names(sections, id)
      ensures Names(p.sections, id)
    {
      var k :| 0 <= k < |sections| && id in sections[k].questionIds;
      if op.RemoveSection? {
        assert sections[k] in p.sections;
      } else if op.RemoveQuestion? {
        assert id in p.sections[k].questionIds;
      } else if op.AddSection? {
        assert k < |p.sections|;
      } else {
        assert sections[k] in p.sections;
      }
    }
  }

  lemma DraftIsKnown(bank: seq<Question>, p: Package)
    requires Known(bank, p) && EnsureDraft(p).Some?
    ensures Known(bank, EnsureDraft(p).value) && EnsureDraft(p).value.sections == p.sections
    ensures EnsureDraft(p).value.status == Draft
  {
  }

  lemma SaveInIsConfined(bank: seq<Question>, p: Package, section: string, f: Payload)
    requires Known(bank, p) && SaveIn(bank, p, section, f).Some?
    ensures var r := SaveIn(bank, p, section, f).value;
            Confined(bank, p, r.0, r.1)
  {
    hide Confined, Known, Saved, IsComplete;
    DraftIsKnown(bank, p);
    var d := EnsureDraft(p).value;
    var i := SectionIndex(p.sections, section);
    SaveIsConfined(bank, d, i, f);
    ConfinedAfterDraft(bank, p, d, Saved(bank, d, i, f).0, Saved(bank, d, i, f).1);
  }

  lemma ReshapeIsConfined(bank: seq<Question>, p: Package, op: Op)
    requires Known(bank, p) && Apply(bank, p, op).Some?
    requires op.RemoveQuestion? || op.AddSection? || op.RemoveSection? || op.MoveSection?
    ensures Confined(bank, p, Apply(bank, p, op).value.0, Apply(bank, p, op).value.1)
  {
    hide Confined, Known, Names;
    DraftIsKnown(bank, p);
    var d := EnsureDraft(p).value;
    var r := Apply(bank, p, op).value;
    SectionsAreConfined(d, op, r.1.sections);
    SameBankConfined(bank, d, r.1);
    ConfinedAfterDraft(bank, p, d, bank, r.1);
  }

  lemma ApplyIsConfined(bank: seq<Question>, p: Package, op: Op)
    requires Known(bank, p) && Apply(bank, p, op).Some?
    ensures Confined(bank, p, Apply(bank, p, op).value.0, Apply(bank, p, op).value.1)
  {
    hide Confined, Known, SaveIn, Publish;
    match op
    case Save(section, f) => SaveInIsConfined(bank, p, section, f);
    case DuplicateQuestion(section, question) =>
      SaveInIsConfined(bank, p, section, CopyPayload(bank[Find(bank, question)].content));
    case PublishVersion => PublishIsConfined(bank, p);
    case Archive => SameBankConfined(bank, p, p.(status := Archived));
    case _ => ReshapeIsConfined(bank, p, op);
  }

  // ---------------------------------------------------------------- the invariant is kept

  lemma PublishedNames(p: Package, p': Package, id: QuestionId)
    requires |p.versions| <= |p'.versions|
    requires forall i :: 0 <= i < |p.versions| ==> p'.versions[i].questionIds == p.versions[i].questionIds
    requires forall i, id :: |p.versions| <= i < |p'.versions| && id in p'.versions[i].questionIds ==> Names(p.sections, id)
    ensures Publishes(p', id) ==> Publishes(p, id) || (|p.versions| < |p'.versions| && Names(p.sections, id))
    ensures Publishes(p, id) ==> Publishes(p', id)
  {
    hide Names;
    if Publishes(p', id) {
      var i :| 0 <= i < |p'.versions| && id in p'.versions[i].questionIds;
      assert i < |p.versions| ==> id in p.versions[i].questionIds;
    }
    if Publishes(p, id) {
      var i :| 0 <= i < |p.versions| && id in p.versions[i].questionIds;
      assert id in p'.versions[i].questionIds;
    }
  }

  lemma ConfinedKeepsKnown(bank: seq<Question>, p: Package, bank': seq<Question>, p': Package)
    requires Known(bank, p) && Confined(bank, p, bank', p')
    ensures Known(bank', p')
  {
    hide Names, BankIds, ContentOf;
    forall id
      ensures Publishes(p', id) ==> Publishes(p, id) || Names(p.sections, id)
    {
      PublishedNames(p, p', id);
    }
  }

  lemma ConfinedKeepsPrivate(w: World, a: PackageId, bank': seq<Question>, p': Package, x: PackageId, y: PackageId)
    requires Inv(w) && a in w.packages && x in w.packages && y in w.packages
    requires Confined(w.bank, w.packages[a], bank', p')
    ensures Private(World(bank', w.packages[a := p']), x, y)
  {
    hide Names, Publishes, BankIds, ContentOf;
    assert Private(w, x, y) && Private(w, a, y) && Private(w, x, a);
    assert Known(w.bank, w.packages[y]) && Known(w.bank, w.packages[a]) && Known(w.bank, w.packages[x]);
    forall id
      ensures Publishes(p', id) ==>
                Publishes(w.packages[a], id) || (|w.packages[a].versions| < |p'.versions| && Names(w.packages[a].sections, id))
    {
      PublishedNames(w.packages[a], p', id);
    }
  }

  lemma OperationKeepsInv(w: World, a: PackageId, op: Op)
    requires Inv(w) && a in w.packages && Apply(w.bank, w.packages[a], op).Some?
    ensures Inv(After1(w, On(a, op)))
  {
    hide Known, Private, Apply, Confined;
    var r := Apply(w.bank, w.packages[a], op).value;
    ApplyIsConfined(w.bank, w.packages[a], op);
    ConfinedKeepsKnown(w.bank, w.packages[a], r.0, r.1);
    var v := World(r.0, w.packages[a := r.1]);
    forall x | x in v.packages
      ensures Known(v.bank, v.packages[x])
    {
      if x != a {
        BankGrows(w.bank, w.packages[a], r.0, r.1, w.packages[x]);
      }
    }
    forall x, y | x in v.packages && y in v.packages
      ensures Private(v, x, y)
    {
      ConfinedKeepsPrivate(w, a, r.0, r.1, x, y);
    }
  }

  lemma BankGrows(bank: seq<Question>, p: Package, bank': seq<Question>, p': Package, other: Package)
    requires Confined(bank, p, bank', p') && Known(bank, other)
    ensures Known(bank', other)
  {
    hide Names, Publishes, BankIds, ContentOf;
  }

  /** The package has no question of its own open draft in its sections. */
  ghost predicate SharesNothing(p: Package) {
    p.status == Draft ==> forall id :: id in p.drafts ==> !Names(p.sections, id)
  }

  /** Duplicating a package keeps the invariant exactly when the copy shares none of the source's open draft questions. */
  lemma DuplicateIff(w: World, source: PackageId, copy: PackageId)
    requires Inv(w) && source in w.packages && copy !in w.packages
    ensures Inv(After1(w, DuplicatePackage(source, copy))) <==> SharesNothing(w.packages[source])
  {
    hide Names, BankIds;
    var v := After1(w, DuplicatePackage(source, copy));
    var c := v.packages[copy];
    assert forall id :: !Publishes(c, id);
    forall x, y | x in w.packages && y in w.packages
      ensures Private(v, x, y)
    {
      assert Private(w, x, y);
    }
    assert Known(w.bank, w.packages[source]);
    assert Known(v.bank, c);
    forall x | x in w.packages
      ensures Private(v, copy, x) && Known(v.bank, v.packages[x])
    {
      assert Known(w.bank, w.packages[x]);
    }
    assert Private(v, copy, copy);
    forall x | x in w.packages && x != source
      ensures Private(v, x, copy)
    {
      assert Private(w, x, source);
    }
    assert Private(v, source, copy) <==> SharesNothing(w.packages[source]);
  }

  /** A new package names no question yet. */
  lemma CreateKeepsInv(w: World, id: PackageId, department: string)
    requires Inv(w)
    ensures Inv(After1(w, CreatePackage(id, department)))
  {
    if id !in w.packages {
      hide BankIds;
      var v := After1(w, CreatePackage(id, department));
      assert forall q :: !Names(v.packages[id].sections, q) && !Publishes(v.packages[id], q);
      hide Names, Publishes;
      forall x, y | x in v.packages && y in v.packages
        ensures Private(v, x, y)
      {
        assert x in w.packages && y in w.packages ==> Private(w, x, y);
      }
      forall x | x in v.packages
        ensures Known(v.bank, v.packages[x])
      {
        assert x in w.packages ==> Known(w.bank, w.packages[x]);
      }
    }
  }

  // ---------------------------------------------------------------- published questions are frozen

  /** An operation on any package leaves every published question of every package as it was. */
  lemma OperationFreezes(w: World, a: PackageId, op: Op, b: PackageId, id: QuestionId)
    requires Inv(w) && a in w.packages && b in w.packages && Publishes(w.packages[b], id)
    ensures ContentOf(After1(w, On(a, op)).bank, id) == ContentOf(w.bank, id)
    ensures Publishes(After1(w, On(a, op)).packages[b], id)
  {
    if Apply(w.bank, w.packages[a], op).Some? {
      hide Apply, Names, BankIds, ContentOf;
      var r := Apply(w.bank, w.packages[a], op).value;
      ApplyIsConfined(w.bank, w.packages[a], op);
      assert Known(w.bank, w.packages[b]) && Private(w, a, b);
      PublishedNames(w.packages[a], r.1, id);
    }
  }

  /** A step that does not share open drafts: any but the duplication of a package that has some in its sections. */
  ghost predicate Careful(w: World, s: Step) {
    match s
    case On(_, _) => true
    case DuplicatePackage(source, copy) => source in w.packages && copy !in w.packages ==> SharesNothing(w.packages[source])
    case CreatePackage(_, _) => true
  }

  ghost predicate IsCarefulRun(w: World, steps: seq<Step>) {
    forall k :: 0 <= k < |steps| ==> Careful(After(w, steps[..k]), steps[k])
  }

  lemma StepKeepsInv(w: World, s: Step)
    requires Inv(w) && Careful(w, s)
    ensures Inv(After1(w, s))
  {
    match s
    case On(id, op) =>
      if id in w.packages && Apply(w.bank, w.packages[id], op).Some? {
        OperationKeepsInv(w, id, op);
      }
    case DuplicatePackage(source, copy) =>
      if source in w.packages && copy !in w.packages {
        DuplicateIff(w, source, copy);
      }
    case CreatePackage(id, department) => CreateKeepsInv(w, id, department);
  }

  lemma {:induction false} RunKeepsInv(w: World, steps: seq<Step>)
    requires Inv(w) && IsCarefulRun(w, steps)
    ensures Inv(After(w, steps))
  {
    hide Inv, Careful, After1;
    if steps != [] {
      var n := |steps| - 1;
      CarefulPrefix(w, steps, n);
      RunKeepsInv(w, steps[..n]);
      assert Careful(After(w, steps[..n]), steps[n]);
      StepKeepsInv(After(w, steps[..n]), steps[n]);
    }
  }

  lemma CarefulPrefix(w: World, steps: seq<Step>, n: nat)
    requires IsCarefulRun(w, steps) && n <= |steps|
    ensures IsCarefulRun(w, steps[..n])
  {
    forall k | 0 <= k < n
      ensures Careful(After(w, steps[..n][..k]), steps[..n][k])
    {
      assert steps[..n][..k] == steps[..k];
    }
  }

  /** Along every careful run, a question a published version names keeps its content for good. */
  lemma {:induction false} PublishedIsFrozen(w: World, steps: seq<Step>, b: PackageId, id: QuestionId)
    requires Inv(w) && IsCarefulRun(w, steps) && b in w.packages && Publishes(w.packages[b], id)
    ensures b in After(w, steps).packages && Publishes(After(w, steps).packages[b], id)
    ensures ContentOf(After(w, steps).bank, id) == ContentOf(w.bank, id)
  {
    hide Inv, Careful, Publishes, ContentOf, Apply;
    if steps != [] {
      var n := |steps| - 1;
      CarefulPrefix(w, steps, n);
      PublishedIsFrozen(w, steps[..n], b, id);
      RunKeepsInv(w, steps[..n]);
      var v := After(w, steps[..n]);
      match steps[n]
      case On(a, op) =>
        if a in v.packages {
          OperationFreezes(v, a, op, b, id);
        }
      case DuplicatePackage(source, copy) =>
      case CreatePackage(_, _) =>
    }
  }

  // ---------------------------------------------------------------- version numbers

  predicate Rising(versions: seq<Version>) {
    forall i, j :: 0 <= i < j < |versions| ==> versions[i].number < versions[j].number
  }

  predicate OnlyLastActive(p: Package) {
    forall i :: 0 <= i < |p.versions| - 1 ==> !p.versions[i].active
  }

  /** A publish takes a number above every version's and above the draft's own, and leaves exactly one version active. */
  lemma PublishRaisesTheNumber(p: Package)
    requires Publish(p).Some?
    ensures var q := Publish(p).value;
            var n := |q.versions| - 1;
            && n == |p.versions| && q.versions[n].number == q.number && q.number > p.number
            && (forall i :: 0 <= i < n ==> q.versions[i].number < q.versions[n].number)
            && q.versions[n].active && (forall i :: 0 <= i < n ==> !q.versions[i].active)
            && q.versions[n].questionIds == SectionQuestions(p.sections)
  {
  }

  /** Every operation keeps the version numbers rising and only the last version active. */
  lemma ApplyKeepsNumbers(bank: seq<Question>, p: Package, op: Op)
    requires Rising(p.versions) && OnlyLastActive(p) && Apply(bank, p, op).Some?
    ensures var q := Apply(bank, p, op).value.1;
            && Rising(q.versions) && OnlyLastActive(q) && |p.versions| <= |q.versions| <= |p.versions| + 1
            && (op == PublishVersion <==> |q.versions| == |p.versions| + 1)
  {
    hide Find, IsComplete, Written, MaxNumber, Without, DropSections, FreshIds.UniqueId;
    if op == PublishVersion {
      PublishRaisesTheNumber(p);
    }
  }

  lemma {:induction false} RunKeepsNumbers(w: World, steps: seq<Step>)
    requires forall k :: k in w.packages ==> Rising(w.packages[k].versions) && OnlyLastActive(w.packages[k])
    ensures forall k :: k in After(w, steps).packages ==>
              Rising(After(w, steps).packages[k].versions) && OnlyLastActive(After(w, steps).packages[k])
  {
    hide Rising, OnlyLastActive, Apply;
    if steps != [] {
      var n := |steps| - 1;
      RunKeepsNumbers(w, steps[..n]);
      var v := After(w, steps[..n]);
      match steps[n]
      case On(a, op) =>
        if a in v.packages && Apply(v.bank, v.packages[a], op).Some? {
          ApplyKeepsNumbers(v.bank, v.packages[a], op);
        }
      case DuplicatePackage(source, copy) =>
        if source in v.packages {
          CopyHasNoVersions(v.packages[source]);
        }
      case CreatePackage(id, department) => NewHasNoVersions(id, department);
    }
  }

  lemma NewHasNoVersions(id: PackageId, department: string)
    ensures Rising(Created(id, department).versions) && OnlyLastActive(Created(id, department))
  {
  }

  lemma CopyHasNoVersions(p: Package)
    ensures Rising(Copied(p).versions) && OnlyLastActive(Copied(p))
  {
  }
}
