/** The organizer's documented behaviour on small folders, derived from
    the planning model. */
module PlannerExamples {
  import opened Text
  import opened Paths
  import opened Config
  import opened Planner
  import opened PlannerLaws

  /** Metadata files are skipped in any case, dotfiles and folders always. */
  lemma SkipExamples()
    ensures IsSkipped(Entry("Thumbs.db", true))
    ensures IsSkipped(Entry("THUMBS.DB", true))
    ensures IsSkipped(Entry(".gitignore", true))
    ensures IsSkipped(Entry("photos", false))
  {
    var r1, r2 := Lower("Thumbs.db"), Lower("THUMBS.DB");
    forall i | 0 <= i < 9
      ensures r1[i] == "thumbs.db"[i] && r2[i] == "thumbs.db"[i]
    {
    }
    assert r1 == "thumbs.db" && r2 == "thumbs.db";
  }

  /** A name that differs, after lower-casing, from every metadata name
      at position k is not a metadata name. */
  lemma NotMetadata(name: string, k: nat)
    requires k < |name| && k < 9
    requires LowerChar(name[k]) != "desktop.ini"[k] && LowerChar(name[k]) != "thumbs.db"[k]
    requires LowerChar(name[k]) != "ehthumbs.db"[k] && LowerChar(name[k]) != "autorun.inf"[k]
    ensures Lower(name) !in SkipFilenames
  {
    assert Lower(name)[k] == LowerChar(name[k]);
  }

  /** `photo.JPG` is kept and filed under Images. */
  lemma PhotoKept()
    ensures !IsSkipped(Entry("photo.JPG", true))
    ensures Classify(Entry("photo.JPG", true)) == Item("photo.JPG", Images)
  {
    NotMetadata("photo.JPG", 0);
    CategoryOfUpperCaseExtension();
  }

  /** `notes.txt` is kept and filed under Documents. */
  lemma NotesKept()
    ensures !IsSkipped(Entry("notes.txt", true))
    ensures Classify(Entry("notes.txt", true)) == Item("notes.txt", Documents)
  {
    NotMetadata("notes.txt", 0);
    CategoryOfKnownExtensions();
  }

  /** `archive.zip` is kept and filed under Archives. */
  lemma ArchiveKept()
    ensures !IsSkipped(Entry("archive.zip", true))
    ensures Classify(Entry("archive.zip", true)) == Item("archive.zip", Archives)
  {
    NotMetadata("archive.zip", 1);
    CategoryOfKnownExtensions();
  }

  /** The renamed attempt keeps the suffix in its original case. */
  lemma NumberedKeepsCase()
    ensures Numbered("photo.JPG", 1) == "photo (1).JPG"
  {
    LastIndexOfIs("photo.JPG", '.', 5);
  }

  /** Placing a file extends the plan by one move, to the first free
      attempt for its name in its category folder. */
  lemma PlanChooses(folder: string, items: seq<Item>, item: Item, existing: set<string>, k: nat)
    requires var dir := Join(folder, item.category.Name());
      var occupied := existing + Destinations(PlanItems(folder, items, existing));
      && Candidate(dir, item.name, k) !in occupied
      && forall j :: 0 <= j < k ==> Candidate(dir, item.name, j) in occupied
    ensures PlanItems(folder, items + [item], existing) ==
      PlanItems(folder, items, existing) +
        [MoveOp(Join(folder, item.name), Candidate(Join(folder, item.category.Name()), item.name, k))]
  {
    PlanItemsSnoc(folder, items, item, existing);
    var dir := Join(folder, item.category.Name());
    FirstFreeIs(dir, item.name, existing + Destinations(PlanItems(folder, items, existing)), k);
  }

  /** The files of the scenario folder that are organized: `photo.JPG`,
      `notes.txt` and `archive.zip` (its `Thumbs.db` is skipped). */
  function ScenarioItems(): seq<Item>
  {
    [Item("photo.JPG", Images), Item("notes.txt", Documents), Item("archive.zip", Archives)]
  }

  /** The scenario's moves, for any folder. */
  function ScenarioMove(folder: string, name: string, category: Category): MoveOp
  {
    MoveOp(Join(folder, name), Join(Join(folder, category.Name()), name))
  }

  /** With nothing yet in the category folders, each of the three files is
      moved under its own name. */
  lemma ScenarioItemsPlan(folder: string)
    ensures PlanItems(folder, ScenarioItems(), {}) ==
      [ ScenarioMove(folder, "photo.JPG", Images),
        ScenarioMove(folder, "notes.txt", Documents),
        ScenarioMove(folder, "archive.zip", Archives) ]
  {
    var items := ScenarioItems();
    DistinctCategoriesKeepNames(folder, items);
  }

  /** One file each in Images, Documents and Archives. */
  lemma ScenarioItemsSummary()
    ensures SummaryItems(ScenarioItems()) == map[Images := 1, Documents := 1, Archives := 1]
  {
    var ia, ib, ic := Item("photo.JPG", Images), Item("notes.txt", Documents), Item("archive.zip", Archives);
    assert [ia, ib, ic][..2] == [ia, ib];
    assert [ia, ib][..1] == [ia];
    assert [ia][..0] == [];
    assert SummaryItems([ia]) == map[Images := 1];
    assert SummaryItems([ia, ib]) == map[Images := 1, Documents := 1];
  }

  /** `a.png` next to an existing `Images/a.png` is planned as
      `Images/a (1).png`. */
  lemma CollisionWithDisk(folder: string)
    ensures var existing := {Join(Join(folder, "Images"), "a.png")};
      PlanItems(folder, [Item("a.png", Images)], existing) ==
        [MoveOp(Join(folder, "a.png"), Join(Join(folder, "Images"), "a (1).png"))]
  {
    var item := Item("a.png", Images);
    var dir := Join(folder, "Images");
    var existing := {Join(dir, "a.png")};
    assert Candidate(dir, "a.png", 1) == Join(dir, "a (1).png") && Candidate(dir, "a.png", 1) != Join(dir, "a.png") by {
      PngNumbered();
      NumberedIsNotName("a.png", 1);
    }
    assert [item] == [] + [item];
    PlanChooses(folder, [], item, existing, 1);
  }

  /** The first renamed attempt for `a.png`. */
  lemma PngNumbered()
    ensures Numbered("a.png", 1) == "a (1).png"
  {
    LastIndexOfIs("a.png", '.', 1);
  }

  /** `a.png` is kept and filed under Images. */
  lemma PngKept()
    ensures !IsSkipped(Entry("a.png", true))
    ensures Classify(Entry("a.png", true)) == Item("a.png", Images)
  {
    NotMetadata("a.png", 1);
    LastIndexOfIs("a.png", '.', 1);
    assert Lower(".png") == ".png";
  }

  /** The same name placed three times (a simulated duplicate) is planned
      as `a.txt`, `a (1).txt` and `a (2).txt`. */
  lemma DuplicateNames(folder: string)
    ensures var item := Item("a.txt", Documents);
      var dir := Join(folder, "Documents");
      PlanItems(folder, [item, item, item], {}) ==
        [ MoveOp(Join(folder, "a.txt"), Join(dir, "a.txt")),
          MoveOp(Join(folder, "a.txt"), Join(dir, "a (1).txt")),
          MoveOp(Join(folder, "a.txt"), Join(dir, "a (2).txt")) ]
  {
    TxtNumbered();
    ThreeCopies(folder, Item("a.txt", Documents));
  }

  /** A file placed three times gets its first three attempts. */
  lemma ThreeCopies(folder: string, item: Item)
    ensures var dir := Join(folder, item.category.Name());
      var source := Join(folder, item.name);
      PlanItems(folder, [item, item, item], {}) ==
        [ MoveOp(source, Candidate(dir, item.name, 0)),
          MoveOp(source, Candidate(dir, item.name, 1)),
          MoveOp(source, Candidate(dir, item.name, 2)) ]
  {
    var dir := Join(folder, item.category.Name());
    var source := Join(folder, item.name);
    RepeatedNameIsNumbered(folder, [item, item, item], item, {});
    var plan := PlanItems(folder, [item, item, item], {});
    assert plan[0] == MoveOp(source, Candidate(dir, item.name, 0));
    assert plan[1] == MoveOp(source, Candidate(dir, item.name, 1));
    assert plan[2] == MoveOp(source, Candidate(dir, item.name, 2));
  }

  /** The attempts for `a.txt` after the first. */
  lemma TxtNumbered()
    ensures Numbered("a.txt", 1) == "a (1).txt" && Numbered("a.txt", 2) == "a (2).txt"
  {
    LastIndexOfIs("a.txt", '.', 1);
  }

  /** `a.txt` is kept and filed under Documents. */
  lemma TxtKept()
    ensures !IsSkipped(Entry("a.txt", true))
    ensures Classify(Entry("a.txt", true)) == Item("a.txt", Documents)
  {
    NotMetadata("a.txt", 1);
    LastIndexOfIs("a.txt", '.', 1);
    assert Lower(".txt") == ".txt";
  }

  /** The scenario folder as the directory lists it. */
  function ScenarioListing(): seq<Entry>
  {
    [Entry("photo.JPG", true), Entry("notes.txt", true), Entry("archive.zip", true), Entry("Thumbs.db", true)]
  }

  /** `!IsSkipped` as a named predicate, so that it can be passed to
      `Select` as a function value. */
  predicate Organized(e: Entry)
  {
    !IsSkipped(e)
  }

  /** The images under `f` of the elements of `xs` that satisfy `keep`, in
      order: a filter followed by a map. */
  function Select<T, U>(xs: seq<T>, keep: T -> bool, f: T -> U): (r: seq<U>)
    ensures |r| <= |xs|
    decreases |xs|
  {
    if xs == [] then []
    else Select(xs[..|xs| - 1], keep, f) + (if keep(xs[|xs| - 1]) then [f(xs[|xs| - 1])] else [])
  }

  /** The kept files are the organized entries, classified: the pass is a
      filter over the listing followed by a map. */
  lemma {:induction false} KeptIsSelect(listing: seq<Entry>)
    ensures Kept(listing) == Select(listing, Organized, Classify)
    decreases |listing|
  {
    if listing != [] {
      KeptIsSelect(listing[..|listing| - 1]);
    }
  }

  /** Of four elements of which only the last fails `keep`, the first
      three are selected. */
  lemma SelectFirstThree<T, U>(xs: seq<T>, keep: T -> bool, f: T -> U)
    requires |xs| == 4 && keep(xs[0]) && keep(xs[1]) && keep(xs[2]) && !keep(xs[3])
    ensures Select(xs, keep, f) == [f(xs[0]), f(xs[1]), f(xs[2])]
  {
    assert Select(xs[..1], keep, f) == [f(xs[0])] by {
      assert xs[..1][..0] == [];
    }
    assert Select(xs[..2], keep, f) == [f(xs[0]), f(xs[1])] by {
      assert xs[..2][..1] == xs[..1];
    }
    assert Select(xs[..3], keep, f) == [f(xs[0]), f(xs[1]), f(xs[2])] by {
      assert xs[..3][..2] == xs[..2];
    }
  }

  /** Of three elements that all satisfy `keep`, all three are selected. */
  lemma SelectAllThree<T, U>(xs: seq<T>, keep: T -> bool, f: T -> U)
    requires |xs| == 3 && keep(xs[0]) && keep(xs[1]) && keep(xs[2])
    ensures Select(xs, keep, f) == [f(xs[0]), f(xs[1]), f(xs[2])]
  {
    assert Select(xs[..1], keep, f) == [f(xs[0])] by {
      assert xs[..1][..0] == [];
    }
    assert Select(xs[..2], keep, f) == [f(xs[0]), f(xs[1])] by {
      assert xs[..2][..1] == xs[..1];
    }
  }

  /** Of the scenario folder, the three documents are kept and `Thumbs.db`
      is dropped. */
  lemma ScenarioKept()
    ensures Kept(ScenarioListing()) == ScenarioItems()
  {
    var listing := ScenarioListing();
    KeptIsSelect(listing);
    PhotoKept();
    NotesKept();
    ArchiveKept();
    SkipExamples();
    SelectFirstThree(listing, Organized, Classify);
  }

  /** Organizing the scenario folder moves the three documents into their
      category folders under their own names, and leaves `Thumbs.db`. */
  lemma ScenarioPlan(folder: string)
    ensures PlanOf(folder, ScenarioListing(), {}) ==
      [ ScenarioMove(folder, "photo.JPG", Images),
        ScenarioMove(folder, "notes.txt", Documents),
        ScenarioMove(folder, "archive.zip", Archives) ]
    ensures forall op :: op in PlanOf(folder, ScenarioListing(), {}) ==> op.source != Join(folder, "Thumbs.db")
  {
    var plan := PlanOf(folder, ScenarioListing(), {});
    var moves := [ ScenarioMove(folder, "photo.JPG", Images),
                   ScenarioMove(folder, "notes.txt", Documents),
                   ScenarioMove(folder, "archive.zip", Archives) ];
    assert plan == moves by {
      ScenarioKept();
      ScenarioItemsPlan(folder);
    }
    forall op | op in moves
      ensures op.source != Join(folder, "Thumbs.db")
    {
      JoinInjective(folder, "photo.JPG", "Thumbs.db");
      JoinInjective(folder, "notes.txt", "Thumbs.db");
      JoinInjective(folder, "archive.zip", "Thumbs.db");
    }
  }

  /** The scenario folder's summary: one file each in Images, Documents and
      Archives, and nothing for `Thumbs.db`. */
  lemma ScenarioSummary()
    ensures SummaryOf(ScenarioListing()) == map[Images := 1, Documents := 1, Archives := 1]
  {
    ScenarioKept();
    ScenarioItemsSummary();
  }

  /** A folder holding `a.png` whose `Images/a.png` already exists plans
      the move to `Images/a (1).png`. */
  lemma CollisionListing(folder: string)
    ensures var existing := {Join(Join(folder, "Images"), "a.png")};
      PlanOf(folder, [Entry("a.png", true)], existing) ==
        [MoveOp(Join(folder, "a.png"), Join(Join(folder, "Images"), "a (1).png"))]
  {
    var e := Entry("a.png", true);
    PngKept();
    assert [e] == [] + [e];
    KeptSnoc([], e);
    CollisionWithDisk(folder);
  }

  /** A listing that yields `a.txt` three times plans `a.txt`, `a (1).txt`
      and `a (2).txt`. */
  lemma DuplicateListing(folder: string)
    ensures var e := Entry("a.txt", true);
      var dir := Join(folder, "Documents");
      PlanOf(folder, [e, e, e], {}) ==
        [ MoveOp(Join(folder, "a.txt"), Join(dir, "a.txt")),
          MoveOp(Join(folder, "a.txt"), Join(dir, "a (1).txt")),
          MoveOp(Join(folder, "a.txt"), Join(dir, "a (2).txt")) ]
  {
    var e := Entry("a.txt", true);
    KeptIsSelect([e, e, e]);
    TxtKept();
    SelectAllThree([e, e, e], Organized, Classify);
    DuplicateNames(folder);
  }
}
