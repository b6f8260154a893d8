/** The planning pass of the organizer (`plan_organization`): one pass over
    a directory listing that skips metadata, hidden files and non-files,
    classifies every other file, counts files per category and reserves a
    collision-free destination `folder/category/name` for each of them.

    The disk is an input value: the listing, in the order the directory
    yields it, and the set of paths that exist at planning time. Planning
    reads both and changes neither. */
module Planner {
  import opened Text
  import opened Paths
  import opened Config

  /** One item of the directory listing. */
  datatype Entry = Entry(name: string, isFile: bool)

  /** One planned move. */
  datatype MoveOp = MoveOp(source: string, destination: string)

  /** Entries that are neither planned nor counted: anything that is not a
      regular file, OS metadata files (in any case) and dotfiles. */
  predicate IsSkipped(e: Entry)
  {
    !e.isFile || Lower(e.name) in SkipFilenames || (|e.name| > 0 && e.name[0] == '.')
  }

  /** A file the pass organizes, with the category it is filed under. */
  datatype Item = Item(name: string, category: Category)

  /** Classifies a listed file. */
  function Classify(e: Entry): (item: Item)
    ensures item.name == e.name && item.category == CategoryOf(e.name)
  {
    Item(e.name, CategoryOf(e.name))
  }

  /** The files that are organized, classified, in listing order. */
  function Kept(listing: seq<Entry>): (kept: seq<Item>)
    ensures |kept| <= |listing|
    decreases |listing|
  {
    if listing == [] then []
    else
      var last := listing[|listing| - 1];
      Kept(listing[..|listing| - 1]) + (if IsSkipped(last) then [] else [Classify(last)])
  }

  /** Listing one more entry keeps at most that entry. */
  lemma KeptSnoc(listing: seq<Entry>, e: Entry)
    ensures Kept(listing + [e]) == Kept(listing) + (if IsSkipped(e) then [] else [Classify(e)])
  {
    assert (listing + [e])[..|listing|] == listing;
  }

  /** The k-th destination tried for `name` in `dir`: `dir/name` first,
      then `dir/stem (k)suffix`. */
  function Candidate(dir: string, name: string, k: nat): string
  {
    Join(dir, if k == 0 then name else Numbered(name, k))
  }

  /** Distinct attempts are distinct paths. */
  lemma CandidateInjective(dir: string, name: string, i: nat, j: nat)
    requires Candidate(dir, name, i) == Candidate(dir, name, j)
    ensures i == j
  {
    var p := dir + "/";
    var xi := if i == 0 then name else Numbered(name, i);
    var xj := if j == 0 then name else Numbered(name, j);
    assert Candidate(dir, name, i) == p + xi;
    assert Candidate(dir, name, j) == p + xj;
    assert xi == Candidate(dir, name, i)[|p|..];
    assert xj == Candidate(dir, name, j)[|p|..];
    if i != 0 && j != 0 {
      NumberedInjective(name, i, j);
    } else {
      NumberedIsNotName(name, i + j);
    }
  }

  /** The values f(0), ..., f(n - 1). */
  function FirstValues<T>(f: nat -> T, n: nat): (s: set<T>)
    ensures forall x :: x in s ==> exists k: nat :: k < n && f(k) == x
  {
    if n == 0 then {} else FirstValues(f, n - 1) + {f(n - 1)}
  }

  /** An injective f has n different first n values. */
  lemma {:induction false} FirstValuesSize<T>(f: nat -> T, n: nat)
    requires forall i: nat, j: nat :: f(i) == f(j) ==> i == j
    ensures |FirstValues(f, n)| == n
  {
    if n > 0 {
      FirstValuesSize(f, n - 1);
      assert f(n - 1) !in FirstValues(f, n - 1);
    }
  }

  /** Pigeonhole: an injective f takes, among its first |occupied| + 1
      values, one outside `occupied`. */
  lemma FirstValuesEscape<T>(f: nat -> T, occupied: set<T>)
    requires forall i: nat, j: nat :: f(i) == f(j) ==> i == j
    ensures exists k: nat :: k <= |occupied| && f(k) !in occupied
  {
    var tried := FirstValues(f, |occupied| + 1);
    FirstValuesSize(f, |occupied| + 1);
    var free := tried - occupied;
    assert |free| >= 1 by {
      assert tried * occupied <= occupied;
      SubsetSize(tried * occupied, occupied);
    }
    var x :| x in free;
    var k: nat :| k < |occupied| + 1 && f(k) == x;
  }

  /** A subset is no larger than the set. */
  lemma {:induction false} SubsetSize<T>(a: set<T>, b: set<T>)
    requires a <= b
    ensures |a| <= |b|
  {
    assert b == a + (b - a);
  }

  /** Among the first |occupied| + 1 attempts one is free. */
  lemma SomeCandidateFree(dir: string, name: string, occupied: set<string>)
    ensures exists k :: 0 <= k <= |occupied| && Candidate(dir, name, k) !in occupied
  {
    var attempt: nat -> string := (k: nat) => Candidate(dir, name, k);
    forall i: nat, j: nat | attempt(i) == attempt(j)
      ensures i == j
    {
      CandidateInjective(dir, name, i, j);
    }
    FirstValuesEscape(attempt, occupied);
    var k: nat :| k <= |occupied| && attempt(k) !in occupied;
    assert Candidate(dir, name, k) !in occupied;
  }

  /** The first free attempt at or after attempt i. */
  function FirstFreeFrom(dir: string, name: string, occupied: set<string>, i: nat): (k: nat)
    requires exists j :: i <= j <= |occupied| && Candidate(dir, name, j) !in occupied
    ensures i <= k <= |occupied|
    ensures Candidate(dir, name, k) !in occupied
    ensures forall j :: i <= j < k ==> Candidate(dir, name, j) in occupied
    decreases |occupied| - i
  {
    if Candidate(dir, name, i) !in occupied then i
    else FirstFreeFrom(dir, name, occupied, i + 1)
  }

  /** The attempt the collision loop stops at: the first one that is not
      occupied. At most |occupied| attempts can be busy. */
  function FirstFree(dir: string, name: string, occupied: set<string>): (k: nat)
    ensures k <= |occupied|
    ensures Candidate(dir, name, k) !in occupied
    ensures forall j :: 0 <= j < k ==> Candidate(dir, name, j) in occupied
  {
    SomeCandidateFree(dir, name, occupied);
    FirstFreeFrom(dir, name, occupied, 0)
  }

  /** The first free attempt is the one that is free after only busy ones. */
  lemma FirstFreeIs(dir: string, name: string, occupied: set<string>, k: nat)
    requires Candidate(dir, name, k) !in occupied
    requires forall j :: 0 <= j < k ==> Candidate(dir, name, j) in occupied
    ensures FirstFree(dir, name, occupied) == k
  {
  }

  /** The destinations reserved by a (partial) plan. */
  function Destinations(plan: seq<MoveOp>): (d: set<string>)
    ensures forall i :: 0 <= i < |plan| ==> plan[i].destination in d
    decreases |plan|
  {
    if plan == [] then {} else Destinations(plan[..|plan| - 1]) + {plan[|plan| - 1].destination}
  }

  /** Appending a move reserves exactly its destination. */
  lemma DestinationsSnoc(plan: seq<MoveOp>, op: MoveOp)
    ensures Destinations(plan + [op]) == Destinations(plan) + {op.destination}
  {
    assert (plan + [op])[..|plan|] == plan;
  }

  /** The move planned for a kept file, given the paths already occupied
      on disk or by earlier moves. */
  function PlanEntry(folder: string, item: Item, occupied: set<string>): (op: MoveOp)
    ensures op.destination !in occupied
  {
    var dir := Join(folder, item.category.Name());
    MoveOp(Join(folder, item.name), Candidate(dir, item.name, FirstFree(dir, item.name, occupied)))
  }

  /** The moves planned for kept files, in order, each destination
      reserved before the next file is placed. */
  function PlanItems(folder: string, items: seq<Item>, existing: set<string>): (plan: seq<MoveOp>)
    ensures |plan| == |items|
    decreases |items|
  {
    if items == [] then []
    else
      var prior := PlanItems(folder, items[..|items| - 1], existing);
      prior + [PlanEntry(folder, items[|items| - 1], existing + Destinations(prior))]
  }

  /** Placing one more file appends its move. */
  lemma PlanItemsSnoc(folder: string, items: seq<Item>, item: Item, existing: set<string>)
    ensures var prior := PlanItems(folder, items, existing);
      PlanItems(folder, items + [item], existing) == prior + [PlanEntry(folder, item, existing + Destinations(prior))]
  {
    assert (items + [item])[..|items|] == items;
  }

  /** The plan for a listing: the moves of its kept files. */
  function PlanOf(folder: string, listing: seq<Entry>, existing: set<string>): seq<MoveOp>
  {
    PlanItems(folder, Kept(listing), existing)
  }

  /** Planning one more entry extends the plan by at most that entry's move. */
  lemma PlanOfSnoc(folder: string, listing: seq<Entry>, e: Entry, existing: set<string>)
    ensures var prior := PlanOf(folder, listing, existing);
      PlanOf(folder, listing + [e], existing) ==
        if IsSkipped(e) then prior else prior + [PlanEntry(folder, Classify(e), existing + Destinations(prior))]
  {
    KeptSnoc(listing, e);
    if !IsSkipped(e) {
      var kept := Kept(listing);
      assert Kept(listing + [e]) == kept + [Classify(e)];
      PlanItemsSnoc(folder, kept, Classify(e), existing);
    } else {
      assert Kept(listing + [e]) == Kept(listing);
    }
  }

  /** A per-category counter; absent keys count zero. */
  function Count(summary: map<Category, nat>, c: Category): nat
  {
    if c in summary then summary[c] else 0
  }

  /** One more file in category c. */
  function Increment(summary: map<Category, nat>, c: Category): (r: map<Category, nat>)
    ensures Count(r, c) == Count(summary, c) + 1
    ensures forall d :: d != c ==> Count(r, d) == Count(summary, d)
    ensures r.Keys == summary.Keys + {c}
  {
    summary[c := Count(summary, c) + 1]
  }

  /** The category counts of kept files: one increment per file. */
  function SummaryItems(items: seq<Item>): map<Category, nat>
    decreases |items|
  {
    if items == [] then map[]
    else Increment(SummaryItems(items[..|items| - 1]), items[|items| - 1].category)
  }

  /** The category summary for a listing. */
  function SummaryOf(listing: seq<Entry>): map<Category, nat>
  {
    SummaryItems(Kept(listing))
  }

  /** Classifying one more entry adds at most that entry's increment. */
  lemma SummaryOfSnoc(listing: seq<Entry>, e: Entry)
    ensures SummaryOf(listing + [e]) ==
      if IsSkipped(e) then SummaryOf(listing) else Increment(SummaryOf(listing), CategoryOf(e.name))
  {
    KeptSnoc(listing, e);
    if !IsSkipped(e) {
      var kept := Kept(listing);
      var item := Classify(e);
      assert Kept(listing + [e]) == kept + [item];
      assert (kept + [item])[..|kept|] == kept;
      assert SummaryItems(kept + [item]) == Increment(SummaryItems(kept), item.category);
    } else {
      assert Kept(listing + [e]) == Kept(listing);
    }
  }

  /** The collision loop: try `dir/name`, then `dir/stem (1)suffix`,
      `dir/stem (2)suffix`, ... until a path is neither on disk nor
      already reserved. */
  method ResolveCollision(dir: string, name: string, existing: set<string>, planned: set<string>)
    returns (dest: string)
    ensures dest !in existing && dest !in planned
    ensures dest == Candidate(dir, name, FirstFree(dir, name, existing + planned))
  {
    ghost var occupied := existing + planned;
    ghost var first := FirstFree(dir, name, occupied);
    dest := Join(dir, name);
    var counter := 1;
    while dest in existing || dest in planned
      invariant 1 <= counter <= first + 1
      invariant dest == Candidate(dir, name, counter - 1)
      invariant forall j :: 0 <= j < counter - 1 ==> Candidate(dir, name, j) in occupied
      decreases first + 1 - counter
    {
      dest := Join(dir, Stem(name) + " (" + NatToString(counter) + ")" + Suffix(name));
      counter := counter + 1;
    }
  }

  /** The planning pass: one plan entry and one summary increment per kept
      entry, in listing order, with every destination reserved as it is
      chosen. */
  method PlanOrganization(folder: string, listing: seq<Entry>, existing: set<string>)
    returns (plan: seq<MoveOp>, summary: map<Category, nat>)
    ensures plan == PlanOf(folder, listing, existing)
    ensures summary == SummaryOf(listing)
  {
    plan := [];
    summary := map[];
    var planned: set<string> := {};
    for i := 0 to |listing|
      invariant plan == PlanOf(folder, listing[..i], existing)
      invariant summary == SummaryOf(listing[..i])
      invariant planned == Destinations(plan)
    {
      var item := listing[i];
      assert listing[..i + 1] == listing[..i] + [item];
      PlanOfSnoc(folder, listing[..i], item, existing);
      SummaryOfSnoc(listing[..i], item);
      if IsSkipped(item) {
        continue;
      }
      var category := CategoryOf(item.name);
      summary := Increment(summary, category);
      var destDir := Join(folder, category.Name());
      var dest := ResolveCollision(destDir, item.name, existing, planned);
      ghost var op := MoveOp(Join(folder, item.name), dest);
      assert op == PlanEntry(folder, Classify(item), existing + Destinations(plan));
      DestinationsSnoc(plan, op);
      planned := planned + {dest};
      plan := plan + [MoveOp(Join(folder, item.name), dest)];
    }
    assert listing[..|listing|] == listing;
  }
}
