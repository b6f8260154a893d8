/** What the planning pass guarantees, stated of the plan and summary that
    `Planner.PlanOrganization` returns (`PlanOf` and `SummaryOf`, the plan
    and the counts of the listing's kept files). */
module PlannerLaws {
  import opened Paths
  import opened Config
  import opened Planner

  /** The kept files are exactly the listed entries that are not skipped,
      each with its category. */
  lemma {:induction false} KeptMembers(listing: seq<Entry>)
    ensures forall e :: e in listing && !IsSkipped(e) ==> Classify(e) in Kept(listing)
    ensures forall item :: item in Kept(listing) ==>
      exists e :: e in listing && !IsSkipped(e) && item == Classify(e)
    decreases |listing|
  {
    if listing != [] {
      var init, e := listing[..|listing| - 1], listing[|listing| - 1];
      assert listing == init + [e];
      KeptMembers(init);
      KeptSnoc(init, e);
      forall item | item in Kept(listing)
        ensures exists x :: x in listing && !IsSkipped(x) && item == Classify(x)
      {
        if item !in Kept(init) {
          assert item == Classify(e);
        }
      }
    }
  }

  /** The kept files of two listings one after the other are the kept
      files of the first followed by those of the second. */
  lemma {:induction false} KeptConcat(first: seq<Entry>, second: seq<Entry>)
    ensures Kept(first + second) == Kept(first) + Kept(second)
    decreases |second|
  {
    if second == [] {
      assert first + second == first;
    } else {
      var rest, e := second[..|second| - 1], second[|second| - 1];
      assert first + second == (first + rest) + [e];
      assert second == rest + [e];
      KeptConcat(first, rest);
      KeptSnoc(first + rest, e);
      KeptSnoc(rest, e);
    }
  }

  /** A skipped entry, wherever it stands in the listing, is not kept. */
  lemma {:induction false} SkippedEntryIsDropped(before: seq<Entry>, e: Entry, after: seq<Entry>)
    requires IsSkipped(e)
    ensures Kept(before + [e] + after) == Kept(before + after)
    decreases |after|
  {
    if after == [] {
      assert before + [e] + after == before + [e];
      assert before + after == before;
      KeptSnoc(before, e);
    } else {
      var rest, x := after[..|after| - 1], after[|after| - 1];
      assert before + [e] + after == (before + [e] + rest) + [x];
      assert before + after == (before + rest) + [x];
      SkippedEntryIsDropped(before, e, rest);
      KeptSnoc(before + [e] + rest, x);
      KeptSnoc(before + rest, x);
    }
  }

  /** A skipped entry changes neither the plan nor the summary. */
  lemma SkippedEntryIsInvisible(
    folder: string, before: seq<Entry>, e: Entry, after: seq<Entry>, existing: set<string>)
    requires IsSkipped(e)
    ensures PlanOf(folder, before + [e] + after, existing) == PlanOf(folder, before + after, existing)
    ensures SummaryOf(before + [e] + after) == SummaryOf(before + after)
  {
    SkippedEntryIsDropped(before, e, after);
  }

  /** `plan` reserves, in order, one destination for each of `items`:
      move i is the move planned for items[i] against the paths on disk and
      the destinations reserved before it. */
  ghost predicate ReservedInOrder(folder: string, items: seq<Item>, existing: set<string>, plan: seq<MoveOp>)
  {
    && |plan| == |items|
    && forall i :: 0 <= i < |plan| ==>
         plan[i] == PlanEntry(folder, items[i], existing + Destinations(plan[..i]))
  }

  /** Reserving one more file keeps the plan in order. */
  lemma ReservedInOrderSnoc(folder: string, items: seq<Item>, existing: set<string>, plan: seq<MoveOp>, item: Item)
    requires ReservedInOrder(folder, items, existing, plan)
    ensures ReservedInOrder(folder, items + [item], existing,
                            plan + [PlanEntry(folder, item, existing + Destinations(plan))])
  {
    var op := PlanEntry(folder, item, existing + Destinations(plan));
    var plan', items' := plan + [op], items + [item];
    forall i | 0 <= i < |plan'|
      ensures plan'[i] == PlanEntry(folder, items'[i], existing + Destinations(plan'[..i]))
    {
      if i < |plan| {
        assert plan'[..i] == plan[..i];
      } else {
        assert plan'[..i] == plan;
      }
    }
  }

  /** The plan reserves one destination per kept file, in order. */
  lemma {:induction false} PlanEntries(folder: string, items: seq<Item>, existing: set<string>)
    ensures ReservedInOrder(folder, items, existing, PlanItems(folder, items, existing))
    decreases |items|
  {
    if items != [] {
      var init, item := items[..|items| - 1], items[|items| - 1];
      assert items == init + [item];
      PlanEntries(folder, init, existing);
      PlanItemsSnoc(folder, init, item, existing);
      ReservedInOrderSnoc(folder, init, existing, PlanItems(folder, init, existing), item);
    }
  }

  /** One plan entry per kept entry, in listing order, moving that entry's
      file out of `folder`. */
  lemma PlanFollowsListing(folder: string, listing: seq<Entry>, existing: set<string>)
    ensures var plan := PlanOf(folder, listing, existing);
      && |plan| == |Kept(listing)|
      && forall i :: 0 <= i < |plan| ==> plan[i].source == Join(folder, Kept(listing)[i].name)
  {
    PlanEntries(folder, Kept(listing), existing);
  }

  /** Move i of `plan` sends items[i] to `folder/category/x`, where x is the
      first of `name`, `stem (1)suffix`, `stem (2)suffix`, ... that is
      neither on disk nor reserved by an earlier move of the plan. */
  ghost predicate FirstFreeAt(folder: string, items: seq<Item>, existing: set<string>, plan: seq<MoveOp>, i: nat)
    requires i < |plan| && i < |items|
  {
    var e := items[i];
    var dir := Join(folder, e.category.Name());
    var occupied := existing + Destinations(plan[..i]);
    exists k: nat ::
      && plan[i].destination == Candidate(dir, e.name, k)
      && Candidate(dir, e.name, k) !in occupied
      && forall j :: 0 <= j < k ==> Candidate(dir, e.name, j) in occupied
  }

  /** Every destination of the plan is the first free attempt for its file. */
  lemma PlanFirstFree(folder: string, listing: seq<Entry>, existing: set<string>)
    ensures var plan := PlanOf(folder, listing, existing);
      && |plan| == |Kept(listing)|
      && forall i :: 0 <= i < |plan| ==> FirstFreeAt(folder, Kept(listing), existing, plan, i)
  {
    var plan, items := PlanOf(folder, listing, existing), Kept(listing);
    PlanEntries(folder, items, existing);
    forall i | 0 <= i < |plan|
      ensures FirstFreeAt(folder, items, existing, plan, i)
    {
      var e := items[i];
      var dir := Join(folder, e.category.Name());
      var occupied := existing + Destinations(plan[..i]);
      var k := FirstFree(dir, e.name, occupied);
      assert plan[i].destination == Candidate(dir, e.name, k);
    }
  }

  /** No two moves of a plan share a destination. */
  lemma DestinationsDistinct(folder: string, listing: seq<Entry>, existing: set<string>)
    ensures var plan := PlanOf(folder, listing, existing);
      forall i, j :: 0 <= i < j < |plan| ==> plan[i].destination != plan[j].destination
  {
    var plan := PlanOf(folder, listing, existing);
    PlanEntries(folder, Kept(listing), existing);
    forall i, j | 0 <= i < j < |plan|
      ensures plan[i].destination != plan[j].destination
    {
      assert plan[..j][i] == plan[i];
    }
  }

  /** No destination exists on disk when the plan is made. */
  lemma DestinationsAreFree(folder: string, listing: seq<Entry>, existing: set<string>)
    ensures var plan := PlanOf(folder, listing, existing);
      forall i :: 0 <= i < |plan| ==> plan[i].destination !in existing
  {
    PlanEntries(folder, Kept(listing), existing);
  }

  /** Every reserved destination is the destination of some move. */
  lemma {:induction false} DestinationsExact(plan: seq<MoveOp>)
    ensures forall x :: x in Destinations(plan) ==> exists i :: 0 <= i < |plan| && plan[i].destination == x
    decreases |plan|
  {
    if plan != [] {
      var init := plan[..|plan| - 1];
      DestinationsExact(init);
      forall x | x in Destinations(plan)
        ensures exists i :: 0 <= i < |plan| && plan[i].destination == x
      {
        if x in Destinations(init) {
          var i :| 0 <= i < |init| && init[i].destination == x;
          assert plan[i] == init[i];
        } else {
          assert plan[|plan| - 1].destination == x;
        }
      }
    }
  }

  /** The destination of a file when its name is free: `folder/category/name`. */
  function Target(folder: string, item: Item): string
  {
    Join(Join(folder, item.category.Name()), item.name)
  }

  /** When no two files share a target and no target exists on disk, every
      file is moved under its own name. */
  lemma {:induction false} NoCollisionKeepsNames(folder: string, items: seq<Item>, existing: set<string>)
    requires forall i :: 0 <= i < |items| ==> Target(folder, items[i]) !in existing
    requires forall i, j :: 0 <= i < j < |items| ==> Target(folder, items[i]) != Target(folder, items[j])
    ensures var plan := PlanItems(folder, items, existing);
      forall i :: 0 <= i < |plan| ==> plan[i] == MoveOp(Join(folder, items[i].name), Target(folder, items[i]))
    decreases |items|
  {
    if items != [] {
      var init, item := items[..|items| - 1], items[|items| - 1];
      assert items == init + [item];
      NoCollisionKeepsNames(folder, init, existing);
      var prior := PlanItems(folder, init, existing);
      var occupied := existing + Destinations(prior);
      var op := MoveOp(Join(folder, item.name), Target(folder, item));
      assert PlanEntry(folder, item, occupied) == op by {
        forall i | 0 <= i < |prior|
          ensures prior[i].destination != Target(folder, item)
        {
          assert prior[i].destination == Target(folder, items[i]);
        }
        DestinationsExact(prior);
        FirstFreeIs(Join(folder, item.category.Name()), item.name, occupied, 0);
      }
      PlanItemsSnoc(folder, init, item, existing);
      var plan := prior + [op];
      forall k | 0 <= k < |items|
        ensures plan[k] == MoveOp(Join(folder, items[k].name), Target(folder, items[k]))
      {
        if k < |init| {
          assert plan[k] == prior[k];
        }
      }
    }
  }

  /** Files of different categories never collide: their targets lie in
      different category folders. */
  lemma DistinctCategoriesKeepNames(folder: string, items: seq<Item>)
    requires forall i, j :: 0 <= i < j < |items| ==> items[i].category != items[j].category
    ensures var plan := PlanItems(folder, items, {});
      forall i :: 0 <= i < |plan| ==> plan[i] == MoveOp(Join(folder, items[i].name), Target(folder, items[i]))
  {
    forall i, j | 0 <= i < j < |items|
      ensures Target(folder, items[i]) != Target(folder, items[j])
    {
      var a, b := items[i], items[j];
      CategoryNames();
      UnderSubdirectory(folder, a.category.Name(), a.category.Name(), a.name);
      UnderSubdirectory(folder, a.category.Name(), b.category.Name(), a.name);
      UnderSubdirectory(folder, b.category.Name(), a.category.Name(), b.name);
    }
    NoCollisionKeepsNames(folder, items, {});
  }

  /** Moves to the first attempts for a name reserve exactly those
      attempts, so the next attempt is still free. */
  lemma NumberedPrefix(dir: string, name: string, prior: seq<MoveOp>)
    requires forall k :: 0 <= k < |prior| ==> prior[k].destination == Candidate(dir, name, k)
    ensures Candidate(dir, name, |prior|) !in Destinations(prior)
    ensures forall j :: 0 <= j < |prior| ==> Candidate(dir, name, j) in Destinations(prior)
  {
    DestinationsExact(prior);
    if Candidate(dir, name, |prior|) in Destinations(prior) {
      var i :| 0 <= i < |prior| && prior[i].destination == Candidate(dir, name, |prior|);
      CandidateInjective(dir, name, i, |prior|);
    }
  }

  /** A file placed again and again (the same name listed once more while
      the plan is built) gets the attempts `name`, `stem (1)suffix`,
      `stem (2)suffix`, ... in turn. */
  lemma {:induction false} RepeatedNameIsNumbered(folder: string, items: seq<Item>, item: Item, existing: set<string>)
    requires forall i :: 0 <= i < |items| ==> items[i] == item
    requires forall k :: 0 <= k < |items| ==> Candidate(Join(folder, item.category.Name()), item.name, k) !in existing
    ensures var plan := PlanItems(folder, items, existing);
      forall k :: 0 <= k < |plan| ==>
        plan[k] == MoveOp(Join(folder, item.name), Candidate(Join(folder, item.category.Name()), item.name, k))
    decreases |items|
  {
    if items != [] {
      var dir := Join(folder, item.category.Name());
      var n := |items|;
      var init := items[..n - 1];
      assert items == init + [item];
      RepeatedNameIsNumbered(folder, init, item, existing);
      var prior := PlanItems(folder, init, existing);
      var occupied := existing + Destinations(prior);
      var op := MoveOp(Join(folder, item.name), Candidate(dir, item.name, n - 1));
      assert PlanEntry(folder, item, occupied) == op by {
        NumberedPrefix(dir, item.name, prior);
        FirstFreeIs(dir, item.name, occupied, n - 1);
      }
      PlanItemsSnoc(folder, init, item, existing);
      var plan := prior + [op];
      assert |prior| == n - 1;
      forall k | 0 <= k < n
        ensures plan[k] == MoveOp(Join(folder, item.name), Candidate(dir, item.name, k))
      {
        if k < n - 1 {
          assert plan[k] == prior[k];
        }
      }
    }
  }

  /** Number of files of category c. */
  function CountCategory(items: seq<Item>, c: Category): nat
    decreases |items|
  {
    if items == [] then 0
    else CountCategory(items[..|items| - 1], c) + (if items[|items| - 1].category == c then 1 else 0)
  }

  /** The summary counts, per category, the kept files of that category; a
      category appears in it only if some file was counted in it. */
  lemma {:induction false} SummaryCountsKept(items: seq<Item>)
    ensures forall c :: Count(SummaryItems(items), c) == CountCategory(items, c)
    ensures forall c :: c in SummaryItems(items) ==> SummaryItems(items)[c] >= 1
    decreases |items|
  {
    if items != [] {
      SummaryCountsKept(items[..|items| - 1]);
    }
  }

  /** Number of moves whose destination lies inside `dir`. */
  function CountUnder(plan: seq<MoveOp>, dir: string): nat
    decreases |plan|
  {
    if plan == [] then 0
    else CountUnder(plan[..|plan| - 1], dir) + (if IsUnder(plan[|plan| - 1].destination, dir) then 1 else 0)
  }

  /** One more move counts under `dir` exactly when it lands there. */
  lemma CountUnderSnoc(plan: seq<MoveOp>, op: MoveOp, dir: string)
    ensures CountUnder(plan + [op], dir) == CountUnder(plan, dir) + (if IsUnder(op.destination, dir) then 1 else 0)
  {
    assert (plan + [op])[..|plan|] == plan;
  }

  /** One more file adds one to its category's count. */
  lemma SummaryItemsSnoc(items: seq<Item>, item: Item)
    ensures SummaryItems(items + [item]) == Increment(SummaryItems(items), item.category)
  {
    assert (items + [item])[..|items|] == items;
  }

  /** A planned move lands inside its own category's folder and inside no
      other category's folder. */
  lemma EntryLandsInItsCategory(folder: string, item: Item, occupied: set<string>)
    ensures forall c: Category ::
      IsUnder(PlanEntry(folder, item, occupied).destination, Join(folder, c.Name())) <==> c == item.category
  {
    var dir := Join(folder, item.category.Name());
    var k := FirstFree(dir, item.name, occupied);
    var x := if k == 0 then item.name else Numbered(item.name, k);
    assert PlanEntry(folder, item, occupied).destination == Join(Join(folder, item.category.Name()), x);
    CategoryNames();
    forall c: Category
      ensures IsUnder(Join(Join(folder, item.category.Name()), x), Join(folder, c.Name())) <==> c == item.category
    {
      UnderSubdirectory(folder, item.category.Name(), c.Name(), x);
    }
  }

  /** The count of a category equals the number of planned moves into that
      category's folder. */
  lemma {:induction false} SummaryMatchesDestinations(folder: string, items: seq<Item>, existing: set<string>)
    ensures forall c: Category ::
      Count(SummaryItems(items), c) == CountUnder(PlanItems(folder, items, existing), Join(folder, c.Name()))
    decreases |items|
  {
    if items != [] {
      var init, item := items[..|items| - 1], items[|items| - 1];
      assert items == init + [item];
      SummaryMatchesDestinations(folder, init, existing);
      var prior := PlanItems(folder, init, existing);
      var op := PlanEntry(folder, item, existing + Destinations(prior));
      EntryLandsInItsCategory(folder, item, existing + Destinations(prior));
      PlanItemsSnoc(folder, init, item, existing);
      SummaryItemsSnoc(init, item);
      forall c: Category
        ensures Count(SummaryItems(items), c) == CountUnder(prior + [op], Join(folder, c.Name()))
      {
        CountUnderSnoc(prior, op, Join(folder, c.Name()));
      }
    }
  }

  /** Sum of the counts of the given categories. */
  function SumOver(categories: seq<Category>, summary: map<Category, nat>): nat
    decreases |categories|
  {
    if categories == [] then 0 else Count(summary, categories[0]) + SumOver(categories[1..], summary)
  }

  /** Counting one more file in c raises the sum over a list of distinct
      categories by one exactly when c is listed. */
  lemma {:induction false} SumOverIncrement(categories: seq<Category>, summary: map<Category, nat>, c: Category)
    requires forall i, j :: 0 <= i < j < |categories| ==> categories[i] != categories[j]
    ensures SumOver(categories, Increment(summary, c)) ==
      SumOver(categories, summary) + (if c in categories then 1 else 0)
    decreases |categories|
  {
    if categories != [] {
      SumOverIncrement(categories[1..], summary, c);
      assert c in categories <==> c == categories[0] || c in categories[1..];
      if c == categories[0] {
        assert c !in categories[1..];
      }
    }
  }

  /** The sum of the summary over all categories, `sum(summary.values())`. */
  function Total(summary: map<Category, nat>): nat
  {
    SumOver(AllCategories, summary)
  }

  /** The summary's counts add up to the number of kept files, which is
      the number of planned moves. */
  lemma {:induction false} SummaryTotal(items: seq<Item>)
    ensures Total(SummaryItems(items)) == |items|
    decreases |items|
  {
    if items != [] {
      var init := items[..|items| - 1];
      SummaryTotal(init);
      AllCategoriesListed();
      SumOverIncrement(AllCategories, SummaryItems(init), items[|items| - 1].category);
    }
  }
}
