// When published questions are frozen: exactly while no open draft shares its
// own questions with another package, and a duplication keeps that exactly when
// the copy takes none of them along.
module ChecklistFreeze {
  import opened Wrappers
  import opened Checklists
  import opened ChecklistRuns
  import FreshIds
  import Text

  // ---------------------------------------------------------------- the property

  /** What is published after k steps reads the same after all of them. */
  ghost predicate KeepsFrom(w: World, steps: seq<Step>, k: nat)
    requires k <= |steps|
  {
    var u := After(w, steps[..k]);
    forall b, id :: b in u.packages && Publishes(u.packages[b], id) ==>
      ContentOf(After(w, steps).bank, id) == ContentOf(u.bank, id)
  }

  /** On every careful run from w, a question has the same content from the step on which a version names it. */
  ghost predicate Frozen(w: World) {
    forall steps: seq<Step>, k: nat :: IsCarefulRun(w, steps) && k <= |steps| ==> KeepsFrom(w, steps, k)
  }

  // ---------------------------------------------------------------- runs in two parts

  lemma {:induction false} AfterSplit(w: World, steps: seq<Step>, k: nat)
    requires k <= |steps|
    ensures After(After(w, steps[..k]), steps[k..]) == After(w, steps)
    decreases |steps|
  {
    hide After1;
    if k == |steps| {
      assert steps[..k] == steps && steps[k..] == [];
    } else {
      var n := |steps| - 1;
      AfterSplit(w, steps[..n], k);
      assert steps[..n][..k] == steps[..k] && steps[..n][k..] == steps[k..][..n - k];
      assert steps[k..][n - k] == steps[n];
    }
  }

  lemma CarefulRest(w: World, steps: seq<Step>, k: nat)
    requires IsCarefulRun(w, steps) && k <= |steps|
    ensures IsCarefulRun(After(w, steps[..k]), steps[k..])
  {
    hide Careful;
    var u := After(w, steps[..k]);
    forall j | 0 <= j < |steps| - k
      ensures Careful(After(u, steps[k..][..j]), steps[k..][j])
    {
      AfterSplit(w, steps[..k + j], k);
      assert steps[..k + j][..k] == steps[..k] && steps[..k + j][k..] == steps[k..][..j];
      assert Careful(After(w, steps[..k + j]), steps[k + j]);
    }
  }

  lemma CarefulSnoc(w: World, steps: seq<Step>, s: Step)
    requires IsCarefulRun(w, steps) && Careful(After(w, steps), s)
    ensures IsCarefulRun(w, steps + [s])
    ensures After(w, steps + [s]) == After1(After(w, steps), s)
  {
    hide Careful;
    var longer := steps + [s];
    assert longer[..|steps|] == steps;
    forall k | 0 <= k < |longer|
      ensures Careful(After(w, longer[..k]), longer[k])
    {
      if k < |steps| {
        assert longer[..k] == steps[..k] && longer[k] == steps[k];
        assert Careful(After(w, steps[..k]), steps[k]);
      }
    }
  }

  /** The invariant is enough for the freeze. */
  lemma InvIsFrozen(w: World)
    requires Inv(w)
    ensures Frozen(w)
  {
    hide Inv, IsCarefulRun, Publishes, ContentOf;
    forall steps: seq<Step>, k: nat | IsCarefulRun(w, steps) && k <= |steps|
      ensures KeepsFrom(w, steps, k)
    {
      var u := After(w, steps[..k]);
      CarefulPrefix(w, steps, k);
      RunKeepsInv(w, steps[..k]);
      CarefulRest(w, steps, k);
      AfterSplit(w, steps, k);
      forall b, id | b in u.packages && Publishes(u.packages[b], id)
        ensures ContentOf(After(w, steps).bank, id) == ContentOf(u.bank, id)
      {
        PublishedIsFrozen(u, steps[k..], b, id);
      }
    }
  }

  // ---------------------------------------------------------------- how the freeze breaks

  function Edit(id: QuestionId, text: string): Payload {
    Payload(Some(id), text, "R", "", [], "", "", [], false, false, "")
  }

  lemma EditIsComplete(id: QuestionId, text: string)
    requires text == "A" || text == "B"
    ensures IsComplete(Edit(id, text)) && Text.Trim(text) == text
  {
    assert Text.Trim("R") == "R";
  }

  /** What saving an own question of an open draft does to the bank. */
  lemma EditOutcome(w: World, a: PackageId, id: QuestionId, f: Payload)
    requires a in w.packages && w.packages[a].status == Draft && id in w.packages[a].drafts && w.packages[a].sections != []
    requires f.id == Some(id) && IsComplete(f) && Find(w.bank, id) >= 0
    ensures var p, at := w.packages[a], Find(w.bank, id);
            After1(w, On(a, Save(p.sections[0].id, f))).bank ==
            w.bank[at := w.bank[at].(content := Written(w.bank[at].content, f, p.department))]
  {
    hide IsComplete, Written, Find, MaxNumber;
  }

  /** An open draft can always give its own question another text. */
  lemma OwnQuestionIsEditable(w: World, a: PackageId, id: QuestionId) returns (s: Step)
    requires a in w.packages && w.packages[a].status == Draft && id in w.packages[a].drafts
    requires Known(w.bank, w.packages[a]) && w.packages[a].sections != []
    ensures Careful(w, s) && ContentOf(After1(w, s).bank, id) != ContentOf(w.bank, id)
  {
    hide Known, IsComplete, Written, Text.Trim, After1, Find;
    var p := w.packages[a];
    DraftsAreFound(w.bank, p, id);
    var c := ContentOf(w.bank, id).value;
    var f := Edit(id, if c.text == "A" then "B" else "A");
    EditIsComplete(id, f.text);
    WrittenIsWritten(c, f, p.department);
    s := On(a, Save(p.sections[0].id, f));
    EditOutcome(w, a, id, f);
    ContentAfterUpdate(w.bank, id, Written(c, f, p.department), id);
  }

  /** Once an open draft's own question is published, the freeze does not hold. */
  lemma PublishedDraftBreaks(w: World, steps: seq<Step>, a: PackageId, b: PackageId, id: QuestionId)
    requires IsCarefulRun(w, steps)
    requires var u := After(w, steps);
             && a in u.packages && u.packages[a].status == Draft && id in u.packages[a].drafts
             && Known(u.bank, u.packages[a]) && u.packages[a].sections != []
             && b in u.packages && Publishes(u.packages[b], id)
    ensures !Frozen(w)
  {
    hide IsCarefulRun, Careful, Known, Publishes, ContentOf, After1;
    var u := After(w, steps);
    var s := OwnQuestionIsEditable(u, a, id);
    CarefulSnoc(w, steps, s);
    var longer := steps + [s];
    assert longer[..|steps|] == steps;
    assert !KeepsFrom(w, longer, |steps|);
  }

  /** Publishing b makes a version of everything its sections name, and leaves every other package and the bank alone. */
  lemma PublishNames(w: World, b: PackageId, id: QuestionId)
    requires b in w.packages && w.packages[b].status != Archived && Names(w.packages[b].sections, id)
    ensures var v := After1(w, On(b, PublishVersion));
            && b in v.packages && Publishes(v.packages[b], id) && v.bank == w.bank
            && v.packages == w.packages[b := v.packages[b]]
  {
    hide Names, MaxNumber;
    SectionQuestionsAreNamed(w.packages[b].sections, id);
    var q := Publish(w.packages[b]).value;
    assert id in q.versions[|q.versions| - 1].questionIds;
  }

  /** An open draft's own question in the sections of another, editable package: publish that package, then edit. */
  lemma NamedDraftBreaks(w: World, steps: seq<Step>, a: PackageId, b: PackageId, id: QuestionId)
    requires IsCarefulRun(w, steps)
    requires var u := After(w, steps);
             && a in u.packages && u.packages[a].status == Draft && id in u.packages[a].drafts
             && Known(u.bank, u.packages[a]) && u.packages[a].sections != []
             && b in u.packages && b != a && u.packages[b].status != Archived && Names(u.packages[b].sections, id)
    ensures !Frozen(w)
  {
    hide IsCarefulRun, Known, Publishes, Names, After1;
    var u := After(w, steps);
    var s := On(b, PublishVersion);
    CarefulSnoc(w, steps, s);
    PublishNames(u, b, id);
    PublishedDraftBreaks(w, steps + [s], a, b, id);
  }

  lemma NoSteps(w: World)
    ensures IsCarefulRun(w, []) && After(w, []) == w
  {
  }

  lemma ArchivedSharesNothing(p: Package)
    requires p.status == Archived
    ensures SharesNothing(p)
  {
  }

  /** The same in the sections of an archived package: duplicate it first. */
  lemma ArchivedDraftBreaks(w: World, a: PackageId, b: PackageId, id: QuestionId)
    requires a in w.packages && w.packages[a].status == Draft && id in w.packages[a].drafts
    requires Known(w.bank, w.packages[a]) && w.packages[a].sections != []
    requires b in w.packages && b != a && w.packages[b].status == Archived && Names(w.packages[b].sections, id)
    ensures !Frozen(w)
  {
    hide Known, Names, IsCarefulRun, Frozen, After, After1, SharesNothing;
    var copy := FreshIds.FirstFree(w.packages.Keys, "", 0);
    var s := DuplicatePackage(b, copy);
    NoSteps(w);
    ArchivedSharesNothing(w.packages[b]);
    CarefulSnoc(w, [], s);
    assert [] + [s] == [s];
    DuplicateOutcome(w, b, copy);
    NamedDraftBreaks(w, [s], a, copy, id);
  }

  /**
   * A duplicate that shares an open draft breaks the freeze: publish the copy,
   * then save the shared question in the source, and the published text changes.
   */
  lemma SharedDraftBreaksTheFreeze(w: World, source: PackageId, copy: PackageId, id: QuestionId, f: Payload)
    requires Inv(w) && source in w.packages && copy !in w.packages && w.packages[source].status == Draft
    requires id in w.packages[source].drafts && Names(w.packages[source].sections, id) && |w.packages[source].sections| > 0
    requires f.id == Some(id) && IsComplete(f) && ContentOf(w.bank, id).Some?
    requires Written(ContentOf(w.bank, id).value, f, w.packages[source].department) != ContentOf(w.bank, id).value
    ensures var published := After1(After1(w, DuplicatePackage(source, copy)), On(copy, PublishVersion));
            var edited := After1(published, On(source, Save(w.packages[source].sections[0].id, f)));
            && Publishes(published.packages[copy], id)
            && ContentOf(edited.bank, id) != ContentOf(published.bank, id)
  {
    hide Known, IsComplete, Written, Find, Names, Publishes, After1;
    var v := After1(w, DuplicatePackage(source, copy));
    DuplicateOutcome(w, source, copy);
    PublishNames(v, copy, id);
    var published := After1(v, On(copy, PublishVersion));
    FoundIn(w.bank, id);
    EditOutcome(published, source, id, f);
    ContentAfterUpdate(w.bank, id, Written(ContentOf(w.bank, id).value, f, w.packages[source].department), id);
  }

  lemma DuplicateOutcome(w: World, source: PackageId, copy: PackageId)
    requires source in w.packages && copy !in w.packages
    ensures After1(w, DuplicatePackage(source, copy)) == World(w.bank, w.packages[copy := Copied(w.packages[source])])
  {
  }

  lemma FoundIn(bank: seq<Question>, id: QuestionId)
    ensures ContentOf(bank, id).Some? ==> Find(bank, id) >= 0 && ContentOf(bank, id).value == bank[Find(bank, id)].content
  {
  }

  // ---------------------------------------------------------------- exactness

  /** Every package has a section, as every operation's shape check sees to. */
  predicate HasSections(w: World) {
    forall a :: a in w.packages ==> w.packages[a].sections != []
  }

  /** Published questions are frozen if and only if every open draft keeps its own questions to itself. */
  lemma FrozenIff(w: World)
    requires AllKnown(w) && HasSections(w)
    ensures Frozen(w) <==> Inv(w)
  {
    hide Frozen, Known, Names, Publishes;
    if Inv(w) {
      InvIsFrozen(w);
    } else {
      var a, b :| a in w.packages && b in w.packages && !Private(w, a, b);
      var id :| id in w.packages[a].drafts
                && (Publishes(w.packages[b], id) || (a != b && Names(w.packages[b].sections, id)));
      NoSteps(w);
      if Publishes(w.packages[b], id) {
        PublishedDraftBreaks(w, [], a, b, id);
      } else if w.packages[b].status == Archived {
        ArchivedDraftBreaks(w, a, b, id);
      } else {
        NamedDraftBreaks(w, [], a, b, id);
      }
    }
  }

  lemma NamedIsThere(sections: seq<Section>, id: QuestionId)
    requires Names(sections, id)
    ensures sections != []
  {
  }

  /**
   * After a duplication published questions are frozen if and only if the source
   * was no open draft with questions of its own in its sections.
   */
  lemma FreezeIff(w: World, source: PackageId, copy: PackageId)
    requires Inv(w) && source in w.packages && copy !in w.packages
    ensures Frozen(After1(w, DuplicatePackage(source, copy))) <==> SharesNothing(w.packages[source])
  {
    hide Frozen, Known, Names, Publishes;
    var v := After1(w, DuplicatePackage(source, copy));
    DuplicateIff(w, source, copy);
    if SharesNothing(w.packages[source]) {
      InvIsFrozen(v);
    } else {
      var id :| id in w.packages[source].drafts && Names(w.packages[source].sections, id);
      NamedIsThere(w.packages[source].sections, id);
      assert Known(v.bank, v.packages[source]);
      NoSteps(v);
      NamedDraftBreaks(v, [], source, copy, id);
    }
  }

  lemma StepFreezeIff(w: World, s: Step)
    requires Inv(w)
    ensures Frozen(After1(w, s)) <==> Careful(w, s)
  {
    hide Frozen, SharesNothing;
    if Careful(w, s) {
      StepKeepsInv(w, s);
      InvIsFrozen(After1(w, s));
    } else {
      FreezeIff(w, s.source, s.copy);
    }
  }

  /** Published questions are frozen after every step of the run. */
  ghost predicate AlwaysFrozen(w: World, steps: seq<Step>) {
    forall k :: 0 <= k <= |steps| ==> Frozen(After(w, steps[..k]))
  }

  lemma CarefulIsAlwaysFrozen(w: World, steps: seq<Step>)
    requires Inv(w) && IsCarefulRun(w, steps)
    ensures AlwaysFrozen(w, steps)
  {
    hide Inv, Frozen, IsCarefulRun, After;
    forall k | 0 <= k <= |steps|
      ensures Frozen(After(w, steps[..k]))
    {
      CarefulPrefix(w, steps, k);
      RunKeepsInv(w, steps[..k]);
      InvIsFrozen(After(w, steps[..k]));
    }
  }

  lemma FrozenPrefix(w: World, steps: seq<Step>, n: nat)
    requires AlwaysFrozen(w, steps) && n <= |steps|
    ensures AlwaysFrozen(w, steps[..n]) && Frozen(After(w, steps[..n]))
  {
    hide Frozen, After;
    forall k | 0 <= k <= n
      ensures Frozen(After(w, steps[..n][..k]))
    {
      assert steps[..n][..k] == steps[..k];
    }
  }

  lemma {:induction false} AlwaysFrozenIsCareful(w: World, steps: seq<Step>)
    requires Inv(w) && AlwaysFrozen(w, steps)
    ensures IsCarefulRun(w, steps)
    decreases |steps|
  {
    if steps != [] {
      hide Inv, Frozen, AlwaysFrozen, IsCarefulRun, Careful, After1;
      var n := |steps| - 1;
      FrozenPrefix(w, steps, n);
      AlwaysFrozenIsCareful(w, steps[..n]);
      RunKeepsInv(w, steps[..n]);
      FrozenPrefix(w, steps, n + 1);
      assert steps[..n + 1] == steps && steps == steps[..n] + [steps[n]];
      StepFreezeIff(After(w, steps[..n]), steps[n]);
      CarefulSnoc(w, steps[..n], steps[n]);
    }
  }

  /** Along a run from a world in order, published questions are frozen after every step if and only if the run is careful. */
  lemma RunFreezeIff(w: World, steps: seq<Step>)
    requires Inv(w)
    ensures IsCarefulRun(w, steps) <==> AlwaysFrozen(w, steps)
  {
    hide *;
    if IsCarefulRun(w, steps) {
      CarefulIsAlwaysFrozen(w, steps);
    }
    if AlwaysFrozen(w, steps) {
      AlwaysFrozenIsCareful(w, steps);
    }
  }
}
