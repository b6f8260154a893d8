/** Planning followed by execution, as the organizer runs them: what the
    two passes guarantee together. */
module Organizer {
  import opened Paths
  import opened Config
  import opened Planner
  import opened PlannerLaws
  import opened Executor

  /** Listed names are single path components. */
  predicate ComponentNames(listing: seq<Entry>)
  {
    forall e :: e in listing ==> '/' !in e.name
  }

  /** Files are taken from the top level of the folder and put one level
      deeper, so no planned source is a planned destination. */
  lemma PlanSourcesAreNotDestinations(folder: string, listing: seq<Entry>, existing: set<string>)
    requires ComponentNames(listing)
    ensures SourcesAreNotDestinations(PlanOf(folder, listing, existing))
  {
    var plan, kept := PlanOf(folder, listing, existing), Kept(listing);
    PlanEntries(folder, kept, existing);
    KeptMembers(listing);
    forall i, j | 0 <= i < |plan| && 0 <= j < |plan|
      ensures plan[i].source != plan[j].destination
    {
      assert kept[i] in kept;
      var e :| e in listing && !IsSkipped(e) && kept[i] == Classify(e);
      var dir := Join(folder, kept[j].category.Name());
      var occupied := existing + Destinations(plan[..j]);
      var k := FirstFree(dir, kept[j].name, occupied);
      var x := if k == 0 then kept[j].name else Numbered(kept[j].name, k);
      assert plan[j].destination == Join(dir, x);
      JoinNotNested(folder, kept[i].name, kept[j].category.Name(), x);
    }
  }

  /** When the operating system lets every move succeed, the run reports
      every counted file as moved and every planned destination exists
      afterwards. */
  lemma AllMovedOrganizesEveryFile(
    folder: string, listing: seq<Entry>, existing: set<string>, outcomes: seq<Outcome>, disk: set<string>)
    requires ComponentNames(listing)
    requires |outcomes| == |PlanOf(folder, listing, existing)|
    requires forall i :: 0 <= i < |outcomes| ==> outcomes[i] == Moved
    ensures Moves(outcomes) == Total(SummaryOf(listing)) && Failures(outcomes) == 0
    ensures var plan := PlanOf(folder, listing, existing);
      forall i :: 0 <= i < |plan| ==> plan[i].destination in Run(disk, plan, outcomes)
  {
    var plan := PlanOf(folder, listing, existing);
    MovesAndFailures(outcomes);
    SummaryTotal(Kept(listing));
    PlanSourcesAreNotDestinations(folder, listing, existing);
    ArrivedFilesStay(disk, plan, outcomes);
  }

  /** The folder that execution creates for move i is the category folder
      of kept file i. */
  lemma PlannedFolderIsCategoryFolder(folder: string, listing: seq<Entry>, existing: set<string>)
    requires ComponentNames(listing)
    ensures var plan, kept := PlanOf(folder, listing, existing), Kept(listing);
      && |plan| == |kept|
      && forall i :: 0 <= i < |plan| ==> Parent(plan[i].destination) == Join(folder, kept[i].category.Name())
  {
    var plan, kept := PlanOf(folder, listing, existing), Kept(listing);
    PlanEntries(folder, kept, existing);
    KeptMembers(listing);
    forall i | 0 <= i < |plan|
      ensures Parent(plan[i].destination) == Join(folder, kept[i].category.Name())
    {
      assert kept[i] in kept;
      var e :| e in listing && !IsSkipped(e) && kept[i] == Classify(e);
      var dir := Join(folder, kept[i].category.Name());
      var occupied := existing + Destinations(plan[..i]);
      var k := FirstFree(dir, kept[i].name, occupied);
      var x := if k == 0 then kept[i].name else Numbered(kept[i].name, k);
      assert plan[i].destination == Join(dir, x);
      if k != 0 {
        NumberedIsComponent(kept[i].name, k);
      }
      ParentOfJoin(dir, x);
    }
  }

  /** Once move i has got past creating its folder, the category folder of
      kept file i exists. The condition excludes a run that the model admits
      but the operating system does not produce: a top-level file `Others`
      (no extension, so filed under Others) whose move to `Others/Others`
      succeeds and takes away the path `Others`. There, creating the folder
      fails because a file stands at its path. */
  lemma CategoryFolderCreated(
    folder: string, listing: seq<Entry>, existing: set<string>, outcomes: seq<Outcome>, disk: set<string>, i: nat)
    requires ComponentNames(listing)
    requires |outcomes| == |PlanOf(folder, listing, existing)|
    requires i < |outcomes| && outcomes[i] != ParentFailed
    ensures var plan, kept := PlanOf(folder, listing, existing), Kept(listing);
      outcomes[i] == MoveFailed || kept[i].name != kept[i].category.Name() ==>
        Join(folder, kept[i].category.Name()) in Run(disk, plan[..i + 1], outcomes[..i + 1])
  {
    var plan, kept := PlanOf(folder, listing, existing), Kept(listing);
    var op, item := plan[i], kept[i];
    assert Parent(op.destination) == Join(folder, item.category.Name()) by {
      PlannedFolderIsCategoryFolder(folder, listing, existing);
    }
    assert op.source == Join(folder, item.name) by {
      PlanFollowsListing(folder, listing, existing);
    }
    JoinInjective(folder, item.name, item.category.Name());
    PrefixStep(disk, plan, outcomes, i);
    StepCreatesParent(Run(disk, plan[..i], outcomes[..i]), op, outcomes[i]);
  }
}
