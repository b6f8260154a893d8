# File organizer: planning and execution engine

This project models the core of a small file organizer that sorts the files
at the top level of a directory into one subfolder per category. It works in
two passes.

- **Planning** (`plan_organization`). One pass over the directory listing:
  - skips everything that is not a regular file, the OS metadata files
    `desktop.ini`, `thumbs.db`, `ehthumbs.db` and `autorun.inf` (in any case),
    and dotfiles;
  - classifies every other file by its lower-cased extension through the
    extension table, falling back to `Others`;
  - counts the files per category;
  - reserves a destination `folder/category/name`. When that path exists on
    disk or was already reserved earlier in the pass, it tries
    `stem (1)suffix`, `stem (2)suffix`, … in turn.
- **Execution** (`execute_plan`). Walks the plan in order. For each move it
  creates the destination folder, moves the file and reports the move. It
  counts the moves that succeed and those that fail, and one failure never
  stops the run. The report sits inside the same error handler. A move
  whose report raises an OS error has already moved the file, but it is
  counted as skipped.

The model is imperative where the source is:

- `Planner.PlanOrganization` is the planning loop. `Planner.ResolveCollision`
  is its inner `while` loop. `Executor.ExecutePlan` is the execution loop.
- Each method is proved against a specification function. These are
  `Planner.PlanOf` and `Planner.SummaryOf` for planning, and
  `Executor.Moves`, `Executor.Failures` and `Executor.Run` for execution.
- The laws in `PlannerLaws`, `Executor` and `Organizer` are proved about those
  functions.

The disk is a value:

- The planner receives the listing, in the order the directory yields it,
  and the set of paths that exist when planning starts. It changes neither.
- The executor receives the disk as a set of paths, plus one outcome per
  planned move, which the operating system decides. The outcome is one of:
  the folder could not be created, the move failed, the file moved but its
  report failed, or the file moved and was reported. It returns the new disk
  and the two counts.

Modules, one per file:

- `Text` (text.dfy): ASCII lower-casing, the last occurrence of a character,
  and decimal rendering of a counter.
- `Paths` (paths.dfy): `Join`, pathlib's `suffix`, `stem` and `parent`, and
  the renamed attempt `stem (n)suffix`.
- `Config` (config.dfy): the extension table, the fallback category and the
  skipped names.
- `Planner` (planner.dfy): the planning pass and its specification.
- `PlannerLaws` (planner_laws.dfy): what a plan and a summary guarantee.
- `Executor` (executor.dfy): the execution pass and its laws.
- `Organizer` (organizer.dfy): guarantees of planning followed by execution.
- `PlannerExamples` (planner_examples.dfy): the documented behaviour on small
  folders.

## Model

| member | source | states |
|---|---|---|
| Text.NatToStringInjective | organizer.py:87 | Different counters are rendered as different decimal strings. |
| Paths.Suffix | organizer.py:78 | The suffix is a tail of the name: either empty, or a dot followed by at least one character and no other dot, and shorter than the name, so a leading dot never starts a suffix. |
| Paths.SuffixEmpty | organizer.py:78 | A name has no suffix exactly when every dot other than its first and last character has another dot after it. This covers a name with no dot, a dotfile (`.bashrc`) and a trailing dot (`notes.`). |
| Paths.Stem | organizer.py:87 | The stem followed by the suffix is the whole name. |
| Paths.Numbered | organizer.py:87 | Definition: the renamed attempt `stem (n)suffix`, with the counter in decimal and the suffix kept in its original case. |
| Paths.NumberedInjective | organizer.py:87 | Different counters give different renamed attempts `stem (n)suffix`. |
| Paths.NumberedIsNotName | organizer.py:87 | A renamed attempt never equals the original name. |
| Paths.ParentOfJoin | organizer.py:124 | The parent of `dir/name` is `dir`, for a single component `name`. |
| Paths.JoinInjective | organizer.py:81-82 | Two names joined to the same directory give the same path exactly when they are the same name. |
| Paths.NumberedIsComponent | organizer.py:87 | A renamed attempt of a name without `/` has no `/` either, so it stays inside the category folder. |
| Paths.JoinNotNested | organizer.py:81-82 | A path one level below the folder is never a path two levels below it. |
| Paths.UnderSubdirectory | organizer.py:81-82 | A path built inside subfolder `a` lies under subfolder `b` exactly when `a` and `b` are the same name. |
| Config.CategoryOf | organizer.py:78 | Definition: the table entry for the ASCII-lower-cased pathlib suffix of the name, or `Others` when the table has no such key. |
| Config.OthersIffUnmapped | organizer.py:78 | A file falls back to `Others` exactly when its lower-cased suffix is not a key of the extension table. |
| Config.CategoryNames | organizer.py:26-39 | Category folder names are non-empty, contain no `/`, and are pairwise different. |
| Config.AllCategoriesListed | organizer.py:26-39 | Every category, including the fallback, is listed exactly once. |
| Config.CategoryOfUpperCaseExtension | organizer.py:78 | `photo.JPG` is an image: the suffix is lower-cased before the lookup. |
| Config.CategoryOfKnownExtensions | organizer.py:26-37 | `notes.txt` is a document and `archive.zip` an archive. |
| Config.CategoryOfUnmapped | organizer.py:78 | A name without a suffix (`x`) and an unknown suffix (`setup.exe`) both go to `Others`. |
| Config.CategoryOfLastSuffix | organizer.py:78 | Only the part after the last dot is looked up: `backup.tar.7Z` is an archive. |
| Planner.IsSkipped | organizer.py:75 | Definition: an entry is skipped when it is not a regular file, when its lower-cased name is one of the four metadata names, or when its name starts with a dot. |
| Planner.Candidate | organizer.py:81-87 | Definition: attempt 0 is `folder/category/name`, and attempt k ≥ 1 is `folder/category/stem (k)suffix`. |
| Planner.CandidateInjective | organizer.py:85-88 | Different attempts of the collision loop are different paths. |
| Planner.FirstValuesEscape | organizer.py:86-88 | Pigeonhole: among the first \|occupied\| + 1 values of an injective function, one is not occupied. |
| Planner.SomeCandidateFree | organizer.py:86-88 | Among the first \|occupied\| + 1 attempts one is free, so the collision loop terminates. |
| Planner.FirstFree | organizer.py:85-88 | The attempt the loop stops at: it is free, every earlier attempt is occupied, and it is at most \|occupied\|. |
| Planner.PlanEntry | organizer.py:81-91 | The move planned for a file never goes to an occupied path. |
| Planner.PlanItems | organizer.py:73-91 | One move per kept file. |
| Planner.Increment | organizer.py:79 | Counting a file in category c raises c's count by one, changes no other count, and adds c to the summary's keys. |
| Planner.ResolveCollision | organizer.py:84-88 | The collision loop returns a path that is neither on disk nor reserved, namely the first free attempt. |
| Planner.PlanOrganization | organizer.py:51-93 | The planning loop returns exactly the plan and summary of the listing. They depend only on the listing and the disk snapshot, so planning twice gives the same result. |
| PlannerLaws.KeptMembers | organizer.py:73-78 | The kept files are exactly the listed entries that are not skipped, each with its category. |
| PlannerLaws.KeptConcat | organizer.py:73-76 | The kept files of two listings in sequence are those of the first followed by those of the second. Listing order is preserved. |
| PlannerLaws.SkippedEntryIsDropped | organizer.py:75-76 | A skipped entry, wherever it stands in the listing, is not kept. |
| PlannerLaws.SkippedEntryIsInvisible | organizer.py:75-76 | A non-file, a metadata file or a dotfile changes neither the plan nor the summary. |
| PlannerLaws.PlanEntries | organizer.py:73-91 | Move i of the plan is planned for kept file i, against the disk and the destinations of moves 0..i-1. |
| PlannerLaws.PlanFollowsListing | organizer.py:73-91 | The plan has one move per kept entry, in listing order, and move i's source is `folder/name` of kept entry i. |
| PlannerLaws.PlanFirstFree | organizer.py:81-88 | Each destination is `folder/category/x`, where x is the first of `name`, `stem (1)suffix`, … that is neither on disk nor reserved earlier. |
| PlannerLaws.DestinationsDistinct | organizer.py:86-90 | All destinations of a plan are pairwise distinct. |
| PlannerLaws.DestinationsAreFree | organizer.py:86 | No destination exists on disk when the plan is made. |
| PlannerLaws.NoCollisionKeepsNames | organizer.py:81-88 | When no two files share a target and no target exists, every file is moved to `folder/category/name` under its own name. |
| PlannerLaws.DistinctCategoriesKeepNames | organizer.py:81-88 | Files of pairwise different categories keep their names in an empty folder. |
| PlannerLaws.RepeatedNameIsNumbered | organizer.py:84-90 | The same file placed again and again gets `name`, `stem (1)suffix`, `stem (2)suffix`, … in turn. |
| PlannerLaws.SummaryCountsKept | organizer.py:79 | The summary counts, per category, the kept files of that category. A category is present only with a count of at least one. |
| PlannerLaws.EntryLandsInItsCategory | organizer.py:81-82 | A planned move lands inside its own category's folder and inside no other category's folder. |
| PlannerLaws.SummaryMatchesDestinations | organizer.py:78-91 | The count of each category equals the number of planned moves into that category's folder. |
| PlannerLaws.SummaryTotal | organizer.py:79-91 | The summary's counts add up to the number of kept files, which is the plan's length. |
| Executor.Step | organizer.py:122-130 | Definition of one move's effect on the disk. When creating the folder fails, nothing changes. When the move fails, the folder is added. When the file moves, reported or not, the folder and destination are added and the source is removed. |
| Executor.Moves | organizer.py:127 | Definition: the number of outcomes in which the file moved and the move was reported. |
| Executor.Failures | organizer.py:130 | Definition: the number of all other outcomes: folder creation failed, move failed, or report failed. |
| Executor.StepCreatesParent | organizer.py:124-126 | A move that gets past creating its folder leaves that folder on disk. The model also admits a move whose source is that folder's path, which takes it away. The operating system cannot produce that run (see "## Left out"). |
| Executor.MovesAndFailures | organizer.py:115-132 | moved + skipped equals the number of planned moves, and all of them are counted as moved exactly when every move succeeds and is reported. |
| Executor.ExecutePlan | organizer.py:96-132 | The execution loop returns the number of moves counted as moved and the number counted as skipped, whose sum is the plan's length, and the disk after the run. An empty plan gives (0, 0) and leaves the disk unchanged. |
| Executor.FailedMoveIsHarmless | organizer.py:122-130 | A move whose folder could not be created leaves the disk as if it had not been planned, and the run goes on. |
| Executor.ArrivedFilesStay | organizer.py:118-130 | When no source is a destination, every file that reached its destination, reported or not, is still there after the run, whatever the other moves' outcomes. |
| Executor.UnreportedMoveIsCountedAsSkipped | organizer.py:122-130 | A move whose report raises an OS error leaves the same disk as a reported move, but the moved count is one lower and the skipped count one higher. |
| Organizer.PlanSourcesAreNotDestinations | organizer.py:73-91 | No planned source is a planned destination. Files are taken from the top level and put one level deeper. |
| Organizer.PlannedFolderIsCategoryFolder | organizer.py:124 | The folder created for move i is the category folder `folder/category` of kept file i. |
| Organizer.CategoryFolderCreated | organizer.py:122-124 | Once move i gets past creating its folder, the category folder of kept file i exists. The statement leaves out a run the model admits but the source cannot produce: a file `Others` whose move into `Others/` succeeds and takes away the path `Others`. |
| Organizer.AllMovedOrganizesEveryFile | organizer.py:96-132 | When every move succeeds, the moved count equals the summary's total, nothing is skipped, and every planned destination exists afterwards. |
| PlannerExamples.SkipExamples | organizer.py:43-48 | `Thumbs.db` and `THUMBS.DB`, `.gitignore` and a directory are skipped. |
| PlannerExamples.PhotoKept | organizer.py:75-78 | `photo.JPG` is kept and filed under Images. |
| PlannerExamples.NotesKept | organizer.py:75-78 | `notes.txt` is kept and filed under Documents. |
| PlannerExamples.ArchiveKept | organizer.py:75-78 | `archive.zip` is kept and filed under Archives. |
| PlannerExamples.PngKept | organizer.py:75-78 | `a.png` is kept and filed under Images. |
| PlannerExamples.TxtKept | organizer.py:75-78 | `a.txt` is kept and filed under Documents. |
| PlannerExamples.NumberedKeepsCase | organizer.py:87 | The first renamed attempt for `photo.JPG` is `photo (1).JPG`: the suffix keeps its case. |
| PlannerExamples.PlanChooses | organizer.py:81-91 | Placing a file appends one move to the first free attempt for its name. |
| PlannerExamples.ScenarioItemsPlan | organizer.py:81-91 | `photo.JPG`, `notes.txt` and `archive.zip` in an empty folder go to `Images/`, `Documents/` and `Archives/` under their own names. |
| PlannerExamples.ScenarioItemsSummary | organizer.py:79 | Their summary is one Images, one Documents and one Archives file. |
| PlannerExamples.CollisionWithDisk | organizer.py:86-88 | `a.png` next to an existing `Images/a.png` is planned as `Images/a (1).png`. |
| PlannerExamples.DuplicateNames | organizer.py:86-90 | `a.txt` placed three times is planned as `a.txt`, `a (1).txt` and `a (2).txt`. |
| PlannerExamples.ScenarioKept | organizer.py:73-78 | Of the listing `photo.JPG`, `notes.txt`, `archive.zip`, `Thumbs.db`, the first three are kept with their categories and `Thumbs.db` is dropped. |
| PlannerExamples.ScenarioPlan | organizer.py:51-93 | Planning that listing in an empty folder moves the three documents into `Images/`, `Documents/` and `Archives/` under their own names. No move takes `Thumbs.db`. |
| PlannerExamples.ScenarioSummary | organizer.py:51-93 | The summary of that listing is one Images, one Documents and one Archives file, and nothing for `Thumbs.db`. |
| PlannerExamples.CollisionListing | organizer.py:51-93 | Planning the listing `a.png` when `Images/a.png` already exists moves it to `Images/a (1).png`. |
| PlannerExamples.DuplicateListing | organizer.py:51-93 | Planning a listing that yields `a.txt` three times moves them to `a.txt`, `a (1).txt` and `a (2).txt`. |

## Left out

- `main`, argument parsing and the simulation-mode grouping are not modelled. They are command-line plumbing.
- The text that `print` writes is not modelled. The report at organizer.py:126 is modelled only through its effect on the counts: if it raises an OS error, the moved file is counted as skipped (`Executor.UnreportedMoveIsCountedAsSkipped`).
- Executor.ExecutePlan: does not model an error raised by the report in the error handler (organizer.py:129). In the source such an error escapes the handler and ends the run with an exception, so neither count is returned. The model treats every failure report as succeeding.
- An error from the `print` for an empty plan (organizer.py:112) is not modelled either.
- The catch-all and `KeyboardInterrupt` handlers in `main` are not modelled. They concern the process, not the engine.
- The file system is not modelled directly:
  - `iterdir` and `is_file` become the listing, a sequence of (name, is-file) entries in directory order;
  - `exists` becomes membership in the set of paths on disk when planning starts;
  - `mkdir` and `shutil.move` become one outcome per move, supplied as input.
- Outcomes are decided by the operating system and are not modelled further. The model does not say which errors occur, what cross-device moves do, or whether a move overwrites a file that appeared at its destination after planning. The source's `shutil.move` renames over such a file on POSIX systems. The model only records what each outcome does to the disk.
- The disk is a set of paths and does not tell files from folders. The model therefore does not capture that creating a category folder fails when a regular file stands at its path (`mkdir(parents=True, exist_ok=True)` raises when the path exists and is not a folder). In the source, a top-level file `Others` (no extension, so filed under Others) is never moved, and while it is there every move into Others fails when its folder is created. A top-level file `Images` (also filed under Others) blocks the Images folder until it has itself been moved. The outcomes supplied to the model may describe runs the operating system would refuse. `Executor.StepCreatesParent` and `Organizer.CategoryFolderCreated` state their conclusion only where such a run is excluded.
- Exceptions other than `OSError` and its subclasses are not modelled. In the source they would end the execution loop.
- Errors raised while planning are not modelled. `iterdir` (organizer.py:73), `is_file` (:75) and `exists` (:86) are outside any handler. `is_file` and `exists` re-raise most OS errors, for example a permission error when a category folder cannot be searched. `plan_organization` then ends with that error and returns no plan. `Planner.PlanOrganization` always returns a plan: its listing and disk snapshot are inputs that were read without error.
- `mkdir(parents=True)` is modelled as adding only the destination's parent. Its ancestor is the organized folder itself, which exists.
- Paths are strings joined with `/`. There is no normalisation, no symlink resolution and no case-insensitive comparison as on Windows.
- Lower-casing is ASCII only. Python's `str.lower` also folds non-ASCII letters.
- Suffixes follow pathlib up to Python 3.13: a trailing dot (`notes.`) gives an empty suffix. Python 3.14 reports `.` as the suffix there.
- The summary is a map from a category datatype to counts rather than a `Counter` keyed by folder-name strings. `Category.Name` gives the string, and a missing key counts zero, as in a `Counter`.
- Planner.Kept: its own contract only bounds the number of kept files. Membership and order are stated by `PlannerLaws.KeptMembers`, `PlannerLaws.KeptConcat` and `PlannerLaws.PlanFollowsListing`.
