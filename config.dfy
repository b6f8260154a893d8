/** The organizer's static configuration: the extension-to-category table,
    the fallback category and the names that are never organized. */
module Config {
  import opened Text
  import opened Paths

  /** The category folders. */
  datatype Category = Images | Documents | Videos | Audio | Archives | Others
  {
    /** The folder name of the category, as the source spells it. */
    function Name(): string
    {
      match this
      case Images => "Images"
      case Documents => "Documents"
      case Videos => "Videos"
      case Audio => "Audio"
      case Archives => "Archives"
      case Others => "Others"
    }
  }

  /** Extension (dotted, lower case) to category folder. */
  const FileExtMappings: map<string, Category> := map[
    // Images
    ".jpg" := Images, ".jpeg" := Images, ".png" := Images, ".gif" := Images, ".webp" := Images,
    // Documents
    ".pdf" := Documents, ".docx" := Documents, ".txt" := Documents, ".pptx" := Documents,
    ".xlsx" := Documents, ".csv" := Documents,
    // Videos
    ".mp4" := Videos, ".mov" := Videos, ".avi" := Videos, ".mkv" := Videos, ".ts" := Videos,
    // Audio
    ".mp3" := Audio, ".wav" := Audio, ".aac" := Audio,
    // Archives
    ".zip" := Archives, ".rar" := Archives, ".7z" := Archives
  ]

  /** Category of every file whose extension is not in the table. */
  const OtherCategory: Category := Others

  /** OS metadata files, compared in lower case. */
  const SkipFilenames: set<string> := {"desktop.ini", "thumbs.db", "ehthumbs.db", "autorun.inf"}

  /** Every category, each listed once. */
  const AllCategories: seq<Category> := [Images, Documents, Videos, Audio, Archives, Others]

  /** The category of a file name: the table entry for its lower-cased
      suffix, or the fallback category. */
  function CategoryOf(name: string): Category
  {
    var ext := Lower(Suffix(name));
    if ext in FileExtMappings then FileExtMappings[ext] else OtherCategory
  }

  /** A file falls back to "Others" exactly when its extension is not in
      the table: no table entry names the fallback category. */
  lemma OthersIffUnmapped(name: string)
    ensures CategoryOf(name) == OtherCategory <==> Lower(Suffix(name)) !in FileExtMappings
  {
  }

  /** Folder names are non-empty single path components, one per category. */
  lemma CategoryNames()
    ensures forall c: Category :: c.Name() != [] && '/' !in c.Name()
    ensures forall c: Category, d: Category :: c.Name() == d.Name() ==> c == d
  {
  }

  /** Every category is listed once in AllCategories. */
  lemma AllCategoriesListed()
    ensures forall c: Category :: c in AllCategories
    ensures forall i, j :: 0 <= i < j < |AllCategories| ==> AllCategories[i] != AllCategories[j]
  {
    forall c: Category
      ensures c in AllCategories
    {
      var i := match c
        case Images => 0
        case Documents => 1
        case Videos => 2
        case Audio => 3
        case Archives => 4
        case Others => 5;
      assert AllCategories[i] == c;
    }
  }

  /** Extensions are looked up in lower case. */
  lemma CategoryOfUpperCaseExtension()
    ensures CategoryOf("photo.JPG") == Images
  {
    LastIndexOfIs("photo.JPG", '.', 5);
    assert Lower(".JPG") == ".jpg";
  }

  /** The scenario files `notes.txt` and `archive.zip` go to their folders. */
  lemma CategoryOfKnownExtensions()
    ensures CategoryOf("notes.txt") == Documents
    ensures CategoryOf("archive.zip") == Archives
  {
    LastIndexOfIs("notes.txt", '.', 5);
    assert Lower(".txt") == ".txt";
    LastIndexOfIs("archive.zip", '.', 7);
    assert Lower(".zip") == ".zip";
  }

  /** A name without an extension and an unknown extension both fall back
      to Others. */
  lemma CategoryOfUnmapped()
    ensures CategoryOf("x") == Others
    ensures CategoryOf("setup.exe") == Others
  {
    LastIndexOfIs("setup.exe", '.', 5);
    assert Lower(".exe") == ".exe";
  }

  /** Only the part after the last dot is looked up. */
  lemma CategoryOfLastSuffix()
    ensures CategoryOf("backup.tar.7Z") == Archives
  {
    LastIndexOfIs("backup.tar.7Z", '.', 10);
    assert Lower(".7Z") == ".7z";
  }
}
