// File organisation (app/services/organizer.py): a processed document is moved
// to `storage/<case>/<category folder>/<date>_<stem>[_<n>]<ext>`, where the
// counter `n` is the first one that does not collide with an existing path.
//
// The file system is a pair of finite sets of paths (files and directories);
// the UTC date is a parameter.
module Organizer {
  import opened Strings
  import opened Paths
  import opened Results
  import Config

  /** `CATEGORY_FOLDERS` */
  const CategoryFolders: map<string, string> := map[
    "Deposition Transcript" := "transcripts",
    "Contract"              := "contracts",
    "Court Filing"          := "court_filings",
    "Correspondence"        := "correspondence",
    "Invoice"               := "invoices",
    "Medical Record"        := "medical_records",
    "Police Report"         := "police_reports",
    "Expert Report"         := "expert_reports",
    "Other"                 := "other"
  ]

  /** `CATEGORY_FOLDERS.get(category, "other")`: always one of the table's
      folders, the default being the folder of "Other". */
  function FolderFor(category: string): (folder: string)
    ensures folder in CategoryFolders.Values
  {
    if category in CategoryFolders then CategoryFolders[category]
    else assert CategoryFolders["Other"] == "other"; "other"
  }

  /** The folder table covers exactly the configured categories. */
  lemma FolderTableKeys()
    ensures forall c :: c in Config.DocumentCategories <==> c in CategoryFolders
  {
    assert CategoryFolders.Keys == set c | c in Config.DocumentCategories;
  }

  /** Every folder is a non-empty sanitised name (so it is one path component),
      and everything outside the table shares the folder of "Other". */
  lemma FolderNames(c: string)
    ensures FolderFor(c) != "" && IsSafeName(FolderFor(c))
    ensures c !in CategoryFolders ==> FolderFor(c) == FolderFor(Config.OtherCategory)
  {
  }

  /** No two categories of the table share a folder. */
  lemma FoldersDistinct(c: string, d: string)
    requires c in CategoryFolders && d in CategoryFolders && c != d
    ensures FolderFor(c) != FolderFor(d)
  {
  }

  // ---------------------------------------------------------------- _sanitize

  /** One character of the cleaning comprehension: alphanumerics, '-', '_' and
      ' ' are kept, anything else becomes '_'. */
  function CleanChar(c: char): char {
    if IsAlnum(c) || c == '-' || c == '_' || c == ' ' then c else '_'
  }

  function Clean(s: string): string {
    seq(|s|, i requires 0 <= i < |s| => CleanChar(s[i]))
  }

  /** `_sanitize(name)`: clean, strip, spaces to underscores, lower-case. The
      result holds only lower-case letters, digits, '-' and '_' (so no space
      and no path separator), and it is never longer than the name. */
  function Sanitize(name: string): (r: string)
    ensures IsSafeName(r)
    ensures ' ' !in r && '/' !in r && '.' !in r
    ensures |r| <= |name|
  {
    var kept := Strip(Clean(name));
    StripKeepsCleanChars(Clean(name));
    ReplaceLowerSafe(kept);
    Lower(ReplaceChar(kept, ' ', '_'))
  }

  /** The characters the cleaning step lets through. */
  predicate IsCleanChar(c: char) {
    IsAlnum(c) || c == '-' || c == '_' || c == ' '
  }

  /** Stripping only cuts characters off the ends, so the cleaned characters
      are all that is left. */
  lemma StripKeepsCleanChars(s: string)
    requires forall i :: 0 <= i < |s| ==> IsCleanChar(s[i])
    ensures forall i :: 0 <= i < |Strip(s)| ==> IsCleanChar(Strip(s)[i])
    ensures |Strip(s)| <= |s|
  {
    var l := StripLeft(s);
    forall i | 0 <= i < |l| ensures IsCleanChar(l[i]) {
      assert l[i] == s[|s| - |l| + i];
    }
  }

  /** Turning the spaces of cleaned characters into '_' and lower-casing gives
      a safe name. */
  lemma ReplaceLowerSafe(s: string)
    requires forall i :: 0 <= i < |s| ==> IsCleanChar(s[i])
    ensures IsSafeName(Lower(ReplaceChar(s, ' ', '_')))
    ensures var r := Lower(ReplaceChar(s, ' ', '_'));
            ' ' !in r && '/' !in r && '.' !in r
  {
    var r := Lower(ReplaceChar(s, ' ', '_'));
    forall i | 0 <= i < |r| ensures IsSafeChar(r[i]) && r[i] != ' ' && r[i] != '/' && r[i] != '.' {
      assert r[i] == LowerChar(if s[i] == ' ' then '_' else s[i]);
    }
  }

  /** The characters a sanitised name is made of. */
  predicate IsSafeChar(c: char) {
    IsLowerLetter(c) || IsDigit(c) || c == '-' || c == '_'
  }

  predicate IsSafeName(s: string) {
    forall i :: 0 <= i < |s| ==> IsSafeChar(s[i])
  }

  // A second, independent description of `Sanitize`: cut the spaces at both
  // ends, then map each remaining character on its own.

  function TrimLeftSpaces(s: string): string {
    if |s| > 0 && s[0] == ' ' then TrimLeftSpaces(s[1..]) else s
  }

  function TrimRightSpaces(s: string): string {
    if |s| > 0 && s[|s| - 1] == ' ' then TrimRightSpaces(s[..|s| - 1]) else s
  }

  /** The character a kept character of the name ends up as. */
  function SafeChar(c: char): char {
    if IsAlnum(c) then LowerChar(c) else if c == '-' then '-' else '_'
  }

  function MapSafe(s: string): string {
    seq(|s|, i requires 0 <= i < |s| => SafeChar(s[i]))
  }

  lemma {:induction false} StripLeftClean(s: string)
    ensures StripLeft(Clean(s)) == Clean(TrimLeftSpaces(s))
    decreases |s|
  {
    if |s| > 0 {
      if s[0] == ' ' {
        CleanLeadingSpace(s);
        StripLeftClean(s[1..]);
      } else {
        CleanLeadingKept(s);
      }
    }
  }

  lemma CleanLeadingSpace(s: string)
    requires |s| > 0 && s[0] == ' '
    ensures StripLeft(Clean(s)) == StripLeft(Clean(s[1..]))
  {
    var c := Clean(s);
    assert c[0] == ' ';
    assert c[1..] == Clean(s[1..]);
  }

  lemma CleanLeadingKept(s: string)
    requires |s| > 0 && s[0] != ' '
    ensures StripLeft(Clean(s)) == Clean(s)
  {
    assert Clean(s)[0] == CleanChar(s[0]);
  }

  lemma {:induction false} StripRightClean(s: string)
    ensures StripRight(Clean(s)) == Clean(TrimRightSpaces(s))
    decreases |s|
  {
    if |s| > 0 {
      if s[|s| - 1] == ' ' {
        CleanTrailingSpace(s);
        StripRightClean(s[..|s| - 1]);
      } else {
        CleanTrailingKept(s);
      }
    }
  }

  lemma CleanTrailingSpace(s: string)
    requires |s| > 0 && s[|s| - 1] == ' '
    ensures StripRight(Clean(s)) == StripRight(Clean(s[..|s| - 1]))
  {
    var c := Clean(s);
    assert c[|s| - 1] == ' ';
    assert c[..|s| - 1] == Clean(s[..|s| - 1]);
  }

  lemma CleanTrailingKept(s: string)
    requires |s| > 0 && s[|s| - 1] != ' '
    ensures StripRight(Clean(s)) == Clean(s)
  {
    assert Clean(s)[|s| - 1] == CleanChar(s[|s| - 1]);
  }

  /** `_sanitize` pinned down exactly: only the spaces at either end of the name
      are dropped (any other whitespace becomes '_'), and every remaining
      character becomes `SafeChar` of itself. */
  lemma SanitizeExact(name: string)
    ensures Sanitize(name) == MapSafe(TrimRightSpaces(TrimLeftSpaces(name)))
  {
    var l := TrimLeftSpaces(name);
    StripLeftClean(name);
    StripRightClean(l);
    var t := TrimRightSpaces(l);
    assert Strip(Clean(name)) == Clean(t);
    CleanThenMap(t);
  }

  /** After the strip, the replacement of spaces and the lower-casing act on each
      cleaned character as `SafeChar` acts on the original one. */
  lemma CleanThenMap(t: string)
    ensures Lower(ReplaceChar(Clean(t), ' ', '_')) == MapSafe(t)
  {
    var a := Lower(ReplaceChar(Clean(t), ' ', '_'));
    forall i | 0 <= i < |t| ensures a[i] == SafeChar(t[i]) {
      assert Clean(t)[i] == CleanChar(t[i]);
    }
  }

  lemma {:induction false} TrimmedNoLonger(s: string)
    ensures |TrimLeftSpaces(s)| <= |s| && |TrimRightSpaces(s)| <= |s|
    decreases |s|
  {
    if |s| > 0 {
      TrimmedNoLonger(s[1..]);
      TrimmedNoLonger(s[..|s| - 1]);
    }
  }

  /** A name that is already safe is left alone. */
  lemma SanitizeSafeName(s: string)
    requires IsSafeName(s)
    ensures Sanitize(s) == s
  {
    SanitizeExact(s);
    assert TrimLeftSpaces(s) == s;
    assert TrimRightSpaces(s) == s;
  }

  /** `_sanitize(_sanitize(x)) == _sanitize(x)` */
  lemma SanitizeIdempotent(name: string)
    ensures Sanitize(Sanitize(name)) == Sanitize(name)
  {
    SanitizeSafeName(Sanitize(name));
  }

  // ---------------------------------------------------------------- destination

  /** `settings.storage_dir / _sanitize(case_name) / folder_name`: its last
      component is the category's folder. */
  function TargetDir(caseName: string, category: string): (dir: string)
    ensures var folder := FolderFor(category);
            |folder| < |dir| && dir[|dir| - |folder| - 1..] == "/" + folder
  {
    FolderNames(category);
    JoinPath(JoinPath(Config.StorageDir, Sanitize(caseName)), FolderFor(category))
  }

  /** The directories `target_dir.mkdir(parents=True, exist_ok=True)` makes sure exist. */
  function TargetDirs(caseName: string, category: string): set<string> {
    {Config.StorageDir, JoinPath(Config.StorageDir, Sanitize(caseName)), TargetDir(caseName, category)}
  }

  /** Everything the destination name is built from. */
  datatype Destination = Destination(dir: string, date: string, stem: string, ext: string)
  {
    /** The file name tried with counter `k`: `<date>_<stem><ext>` for 0, and
        `<date>_<stem>_<k><ext>` after that. */
    function FileName(k: nat): string {
      if k == 0 then date + "_" + stem + ext
      else date + "_" + stem + "_" + NatToString(k) + ext
    }

    /** The path tried with counter `k`. */
    function Candidate(k: nat): string {
      JoinPath(dir, FileName(k))
    }
  }

  /** The destination of `original_filename` for a case, category and date:
      the stem is a sanitised name, and the extension is lower-case and holds
      no slash, so neither adds a directory level. */
  function DestinationFor(caseName: string, category: string, originalFilename: string, date: string): (d: Destination)
    ensures IsSafeName(d.stem) && '/' !in d.stem
    ensures Lower(d.ext) == d.ext && '/' !in d.ext
  {
    LowerIdempotent(Suffix(originalFilename));
    LowerKeepsSlashOut(Suffix(originalFilename));
    Destination(TargetDir(caseName, category), date, Sanitize(Stem(originalFilename)), Lower(Suffix(originalFilename)))
  }

  /** No two counters give the same path. */
  lemma CandidatesDistinct(d: Destination, j: nat, k: nat)
    requires j != k
    ensures d.Candidate(j) != d.Candidate(k)
  {
    var a, b := d.FileName(j), d.FileName(k);
    var pre := d.date + "_" + d.stem;
    if a == b && j != 0 && k != 0 {
      var sj, sk := NatToString(j), NatToString(k);
      assert |sj| == |sk|;
      assert a == pre + "_" + sj + d.ext;
      assert a[|pre| + 1..|pre| + 1 + |sj|] == sj;
      assert b[|pre| + 1..|pre| + 1 + |sk|] == sk;
      NatToStringInjective(j, k);
    }
    assert a != b;
    JoinPathTail(d.dir, a);
    JoinPathTail(d.dir, b);
  }

  /** If the first `n` candidates all exist, there are at least `n` existing
      paths: the collision loop cannot run past the number of existing paths. */
  lemma {:induction false} CandidatesBound(existing: set<string>, d: Destination, n: nat)
    requires forall j :: 0 <= j < n ==> d.Candidate(j) in existing
    ensures n <= |existing|
    decreases n
  {
    if n > 0 {
      var rest := existing - {d.Candidate(n - 1)};
      forall j | 0 <= j < n - 1 ensures d.Candidate(j) in rest {
        CandidatesDistinct(d, j, n - 1);
      }
      CandidatesBound(rest, d, n - 1);
    }
  }

  /** Counter `k` gives the first candidate that does not exist. */
  ghost predicate IsFirstFree(existing: set<string>, d: Destination, k: nat) {
    && d.Candidate(k) !in existing
    && forall j :: 0 <= j < k ==> d.Candidate(j) in existing
  }

  /** `p` is where the collision rule puts a file with destination `d`. */
  ghost predicate IsOrganizedPath(existing: set<string>, d: Destination, p: string) {
    exists k: nat :: p == d.Candidate(k) && IsFirstFree(existing, d, k)
  }

  /** The collision rule has one answer: the base name if it is free, otherwise
      the smallest free counter from 1 on. */
  lemma FirstFreeUnique(existing: set<string>, d: Destination, j: nat, k: nat)
    requires IsFirstFree(existing, d, j) && IsFirstFree(existing, d, k)
    ensures j == k
    ensures d.Candidate(0) !in existing ==> k == 0
    ensures d.Candidate(0) in existing ==> k >= 1
  {
  }

  /** The chosen path never exists beforehand, so nothing is overwritten. */
  lemma OrganizedPathIsNew(existing: set<string>, d: Destination, p: string)
    requires IsOrganizedPath(existing, d, p)
    ensures p !in existing
  {
  }

  /** Organising the same name again and again yields the base name, then `_1`,
      `_2`, ...: with the first `n` candidates taken, the next is candidate `n`. */
  lemma RepeatedCollisions(d: Destination, n: nat)
    ensures IsFirstFree(set j | 0 <= j < n :: d.Candidate(j), d, n)
  {
    var taken := set j | 0 <= j < n :: d.Candidate(j);
    if d.Candidate(n) in taken {
      var j :| 0 <= j < n && d.Candidate(j) == d.Candidate(n);
      CandidatesDistinct(d, j, n);
    }
  }

  /** Each candidate is a file directly inside `d.dir`: a single path component
      that starts with `<date>_<stem>` and ends with the extension. */
  lemma CandidateLayout(d: Destination, k: nat)
    requires '/' !in d.date && '/' !in d.stem && '/' !in d.ext
    ensures d.Candidate(k) == d.dir + "/" + d.FileName(k)
    ensures var name, pre := d.FileName(k), d.date + "_" + d.stem;
            && |pre| + |d.ext| <= |name|
            && name[..|pre|] == pre
            && name[|name| - |d.ext|..] == d.ext
            && '/' !in name
  {
    var pre := d.date + "_" + d.stem;
    if k > 0 {
      var s := NatToString(k);
      assert '/' !in s by {
        forall i | 0 <= i < |s| ensures s[i] != '/' {
          assert IsDigit(s[i]);
        }
      }
      assert d.FileName(k) == pre + ("_" + s) + d.ext;
    } else {
      assert d.FileName(k) == pre + d.ext;
    }
  }

  /** The target directory is `storage/<sanitised case>/<folder>`; the case level
      vanishes when the case name sanitises to nothing. */
  lemma TargetDirLayout(caseName: string, category: string)
    ensures TargetDir(caseName, category)
            == Config.StorageDir + "/" + (if Sanitize(caseName) == "" then "" else Sanitize(caseName) + "/") + FolderFor(category)
  {
    FolderNames(category);
  }
  /** The whole path a document is organised to:
      `storage/<sanitised case>/<folder>/<date>_<sanitised stem>[_<k>]<ext>`,
      where `k` is the first free counter (no `_<k>` when it is 0). */
  lemma OrganizedPathLayout(existing: set<string>, caseName: string, category: string,
                            originalFilename: string, date: string, p: string)
    requires IsOrganizedPath(existing, DestinationFor(caseName, category, originalFilename, date), p)
    ensures exists k: nat :: && IsFirstFree(existing, DestinationFor(caseName, category, originalFilename, date), k)
                             && p == OrganizedPath(caseName, category, originalFilename, date, k)
  {
    var d := DestinationFor(caseName, category, originalFilename, date);
    var k: nat :| p == d.Candidate(k) && IsFirstFree(existing, d, k);
    CandidatePath(caseName, category, originalFilename, date, k);
  }

  /** `storage/<sanitised case>/<folder>/<date>_<sanitised stem>[_<k>]<ext>`,
      spelled out from the pieces of `organize_document`. */
  function OrganizedPath(caseName: string, category: string, originalFilename: string, date: string, k: nat): string {
    (Config.StorageDir + "/" + (if Sanitize(caseName) == "" then "" else Sanitize(caseName) + "/") + FolderFor(category))
    + "/"
    + (date + "_" + Sanitize(Stem(originalFilename)) + (if k == 0 then "" else "_" + NatToString(k)) + Lower(Suffix(originalFilename)))
  }

  lemma CandidatePath(caseName: string, category: string, originalFilename: string, date: string, k: nat)
    ensures DestinationFor(caseName, category, originalFilename, date).Candidate(k)
            == OrganizedPath(caseName, category, originalFilename, date, k)
  {
    var d := DestinationFor(caseName, category, originalFilename, date);
    CandidateSpelled(d, k);
    TargetDirLayout(caseName, category);
  }

  /** A candidate path, spelled out. */
  lemma CandidateSpelled(d: Destination, k: nat)
    ensures d.Candidate(k) == d.dir + "/" + (d.date + "_" + d.stem + (if k == 0 then "" else "_" + NatToString(k)) + d.ext)
  {
    if k > 0 {
      assert d.FileName(k) == d.date + "_" + d.stem + ("_" + NatToString(k)) + d.ext;
    } else {
      assert d.FileName(k) == d.date + "_" + d.stem + "" + d.ext;
    }
  }


  /** Lower-casing adds no slash. */
  lemma LowerKeepsSlashOut(s: string)
    requires '/' !in s
    ensures '/' !in Lower(s)
  {
    forall i | 0 <= i < |s| ensures Lower(s)[i] != '/' {
      assert s[i] != '/';
    }
  }


  // ---------------------------------------------------------------- the collision loop

  /** The `while target_path.exists()` loop: try the base name, then counters 1,
      2, ... until a path is free. The loop ends because the set of existing
      paths is finite and no two counters give the same path. */
  method ChooseTarget(existing: set<string>, d: Destination) returns (target: string, ghost k: nat)
    ensures target == d.Candidate(k) && IsFirstFree(existing, d, k)
  {
    target := d.Candidate(0);
    var counter := 1;
    while target in existing
      invariant 1 <= counter
      invariant target == d.Candidate(counter - 1)
      invariant forall j :: 0 <= j < counter - 1 ==> d.Candidate(j) in existing
      decreases |existing| - counter + 1
    {
      CandidatesBound(existing, d, counter);
      target := d.Candidate(counter);
      counter := counter + 1;
    }
    k := counter - 1;
  }

  /** What `shutil.move` raises when the source file is missing. */
  function NoSuchFile(path: string): string {
    "[Errno 2] No such file or directory: '" + path + "'"
  }

  /** The file system as the organizer sees it. */
  class FileStore {
    var files: set<string>
    var dirs: set<string>

    constructor (files: set<string>, dirs: set<string>)
      ensures this.files == files && this.dirs == dirs
    {
      this.files := files;
      this.dirs := dirs;
    }

    /** `organize_document`: create the target directories, choose the first free
        name, then move the file there. The move fails, leaving the files as they
        were, when the source file does not exist. */
    method Organize(source: string, caseName: string, category: string, originalFilename: string, date: string)
      returns (r: Result<string, string>)
      modifies this
      ensures dirs == old(dirs) + TargetDirs(caseName, category)
      ensures r.Ok? <==> source in old(files)
      ensures r.Ok? ==> && IsOrganizedPath(old(files) + dirs, DestinationFor(caseName, category, originalFilename, date), r.value)
                        && r.value !in old(files) && r.value !in old(dirs)
                        && files == old(files) - {source} + {r.value}
      ensures r.Err? ==> r.error == NoSuchFile(source) && files == old(files)
    {
      r := MoveToFirstFree(source, DestinationFor(caseName, category, originalFilename, date), TargetDirs(caseName, category));
    }

    /** The steps of `organize_document` once the destination is known: make
        the directories `newDirs`, choose the first free name for `d` among the
        existing files and directories, and move `source` there. */
    method MoveToFirstFree(source: string, d: Destination, newDirs: set<string>) returns (r: Result<string, string>)
      modifies this
      ensures dirs == old(dirs) + newDirs
      ensures r.Ok? <==> source in old(files)
      ensures r.Ok? ==> && IsOrganizedPath(old(files) + dirs, d, r.value)
                        && r.value !in old(files) && r.value !in old(dirs)
                        && files == old(files) - {source} + {r.value}
      ensures r.Err? ==> r.error == NoSuchFile(source) && files == old(files)
    {
      dirs := dirs + newDirs;
      var target;
      ghost var k;
      target, k := ChooseTarget(files + dirs, d);
      if source !in files {
        return Err(NoSuchFile(source));
      }
      files := files - {source} + {target};
      r := Ok(target);
    }
  }
}
