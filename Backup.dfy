/**
 * The workspace backup script (backup/backup.py): log sanitising, path
 * safety and exclusion rules, the filtered directory scan, the archive file
 * list, retention of the newest archives, archiver lookup and the overall
 * control flow.
 *
 * Paths are Windows paths: an anchor (drive and root, such as `C:\`, or a
 * share such as `\\server\share\`) and the names below it. The file system,
 * the archiver process and the clock are parameters.
 */
module Backup {
  import opened Types
  import opened Text

  // ---------------------------------------------------------------------
  // Log sanitising
  // ---------------------------------------------------------------------

  predicate IsControl(c: char)
  {
    c == '\r' || c == '\n' || c == '\t'
  }

  /** sanitize_log_input() on a string: every CR, LF and TAB becomes `_`. */
  function SanitizeLogInput(text: string): (r: string)
    ensures |r| == |text|
  {
    if text == [] then []
    else [if IsControl(text[0]) then '_' else text[0]] + SanitizeLogInput(text[1..])
  }

  /** Character by character: controls become `_`, everything else is kept. */
  lemma {:induction false} SanitizeCharwise(text: string)
    ensures forall i :: 0 <= i < |text| ==>
      SanitizeLogInput(text)[i] == (if IsControl(text[i]) then '_' else text[i])
  {
    if text != [] {
      SanitizeCharwise(text[1..]);
      var r := SanitizeLogInput(text);
      forall i | 1 <= i < |text| ensures r[i] == (if IsControl(text[i]) then '_' else text[i]) {
        assert r[i] == SanitizeLogInput(text[1..])[i - 1];
      }
    }
  }

  /** The sanitised text contains no CR, LF or TAB. */
  lemma SanitizeRemovesControls(text: string)
    ensures forall i :: 0 <= i < |SanitizeLogInput(text)| ==> !IsControl(SanitizeLogInput(text)[i])
  {
    SanitizeCharwise(text);
  }

  /** Sanitising twice is sanitising once. */
  lemma SanitizeIdempotent(text: string)
    ensures SanitizeLogInput(SanitizeLogInput(text)) == SanitizeLogInput(text)
  {
    var r := SanitizeLogInput(text);
    SanitizeCharwise(text);
    SanitizeCharwise(r);
    assert forall i :: 0 <= i < |r| ==> SanitizeLogInput(r)[i] == r[i];
  }

  // ---------------------------------------------------------------------
  // Paths
  // ---------------------------------------------------------------------

  /** A Windows path: its anchor (possibly empty) and the names below it. */
  datatype WinPath = WinPath(anchor: string, names: seq<string>)

  /** `path.parts`: the anchor, when there is one, then the names. */
  function Parts(p: WinPath): seq<string>
  {
    (if p.anchor == "" then [] else [p.anchor]) + p.names
  }

  /** `str(path)`: the anchor followed by the names joined with backslashes. */
  function Str(p: WinPath): string
  {
    p.anchor + Join(p.names, "\\")
  }

  /** `path / name`. */
  function Child(p: WinPath, name: string): (c: WinPath)
    ensures c.anchor == p.anchor && c.names == p.names + [name]
  {
    WinPath(p.anchor, p.names + [name])
  }

  /** `path.name`: the last name, or empty for a bare anchor. */
  function Name(p: WinPath): string
  {
    if p.names == [] then "" else p.names[|p.names| - 1]
  }

  /**
   * _is_safe_path(): `resolved` is what resolving the path gave (an error
   * counts as unsafe); safe means no `..` part and no leading `\\`.
   */
  predicate IsSafePath(resolved: Result<WinPath>)
  {
    resolved.Success? && ".." !in Parts(resolved.value) && !StartsWith(Str(resolved.value), "\\\\")
  }

  /** A path with a `..` part, or one on a network share, is never safe. */
  lemma UnsafePaths(p: WinPath, share: string, names: seq<string>)
    ensures ".." in p.names ==> !IsSafePath(Success(p))
    ensures !IsSafePath(Success(WinPath("\\\\" + share, names)))
  {
    var q := WinPath("\\\\" + share, names);
    assert Str(q)[..2] == "\\\\";
  }

  // ---------------------------------------------------------------------
  // Exclusion rules
  // ---------------------------------------------------------------------

  /** The directory names never backed up. */
  const ExcludedDirs: seq<string> := [".venv", ".venv311", "data", "logs", "node_modules", "__pycache__", ".git"]

  /** The file extensions never backed up, as listed. */
  const ExcludedExtensions: seq<string> := [".pyc", ".rar", ".duckdb", ".duckdb.wal", ".pyo", ".pyd", ".so", ".dll", ".exe"]

  /** The index of the last `c` in `s`, or -1. */
  function LastIndexOf(s: string, c: char): (i: int)
    ensures -1 <= i < |s|
    ensures i >= 0 ==> s[i] == c
    ensures forall k :: i < k < |s| ==> s[k] != c
  {
    if s == [] then -1
    else if s[|s| - 1] == c then |s| - 1
    else LastIndexOf(s[..|s| - 1], c)
  }

  /** `path.suffix` of a name: from the last dot on, if that dot is neither first nor last. */
  function Suffix(name: string): (x: string)
    ensures x != "" ==> |x| >= 2 && x[0] == '.' && |x| < |name| && EndsWith(name, x)
    ensures forall k :: 0 < k < |x| ==> x[k] != '.'
  {
    var i := LastIndexOf(name, '.');
    if 0 < i < |name| - 1 then name[i..] else ""
  }

  /** A directory name matched against the path text, as `\dir\` inside or `\dir` at the end. */
  predicate MatchesDirPattern(s: string, dir: string)
  {
    Contains(s, "\\" + dir + "\\") || EndsWith(s, "\\" + dir)
  }

  /** The directory part of should_exclude(): a part, or the path text, names an excluded directory. */
  predicate InExcludedDir(p: WinPath)
  {
    || (exists i :: 0 <= i < |ExcludedDirs| && ExcludedDirs[i] in Parts(p))
    || (exists i :: 0 <= i < |ExcludedDirs| && MatchesDirPattern(Str(p), ExcludedDirs[i]))
  }

  /** should_exclude() as written: the extension test uses only the last suffix. */
  predicate ShouldExclude(p: WinPath)
  {
    InExcludedDir(p) || Suffix(Name(p)) in ExcludedExtensions
  }

  /** The one listed extension with two dots can never be a suffix. */
  lemma WalNeverASuffix(name: string)
    ensures Suffix(name) != ".duckdb.wal"
  {
    assert ".duckdb.wal"[7] == '.';
  }

  /** So a write-ahead log file escapes the extension test as written. */
  lemma WalFileNotExcludedAsWritten(stem: string)
    requires stem != "" && '.' !in stem
    ensures Suffix(stem + ".duckdb.wal") == ".wal"
    ensures Suffix(stem + ".duckdb.wal") !in ExcludedExtensions
  {
    var name := stem + ".duckdb.wal";
    var i := |stem| + 7;
    assert name[i] == '.';
    assert name[i..] == ".wal";
    assert LastIndexOf(name, '.') == i;
  }

  /** The extension test as intended: the name ends with a listed extension and is longer than it. */
  predicate HasExcludedExtension(name: string)
  {
    exists i :: 0 <= i < |ExcludedExtensions| && |ExcludedExtensions[i]| < |name| && EndsWith(name, ExcludedExtensions[i])
  }

  /** should_exclude() with the extension test as intended. */
  predicate ShouldExcludeFixed(p: WinPath)
  {
    InExcludedDir(p) || HasExcludedExtension(Name(p))
  }

  /** Every suffix in the list is a listed ending the name is longer than. */
  lemma WrittenImpliesFixed(p: WinPath)
    ensures ShouldExclude(p) ==> ShouldExcludeFixed(p)
  {
    var name := Name(p);
    var x := Suffix(name);
    if x in ExcludedExtensions {
      var i :| 0 <= i < |ExcludedExtensions| && ExcludedExtensions[i] == x;
      assert |ExcludedExtensions[i]| < |name| && EndsWith(name, ExcludedExtensions[i]);
    }
  }

  /** A name `<stem>.duckdb.wal` ends with the fourth listed extension. */
  lemma WalHasExcludedExtension(stem: string)
    ensures stem != "" ==> HasExcludedExtension(stem + ".duckdb.wal")
  {
    if stem != "" {
      var name := stem + ".duckdb.wal";
      assert name[|name| - 11..] == ".duckdb.wal";
      assert |ExcludedExtensions[3]| < |name| && EndsWith(name, ExcludedExtensions[3]);
    }
  }

  /** The corrected test excludes every path the written one does, and also write-ahead logs. */
  lemma FixedExtendsAsWritten(p: WinPath, stem: string)
    ensures ShouldExclude(p) ==> ShouldExcludeFixed(p)
    ensures stem != "" ==> HasExcludedExtension(stem + ".duckdb.wal")
  {
    WrittenImpliesFixed(p);
    WalHasExcludedExtension(stem);
  }

  /** Which exclusion test a scan applies: should_exclude() as written, or with the extension test as intended. */
  datatype ExclusionRule = AsWritten | AsIntended

  predicate Excludes(rule: ExclusionRule, p: WinPath)
  {
    match rule
    case AsWritten => ShouldExclude(p)
    case AsIntended => ShouldExcludeFixed(p)
  }

  // ---------------------------------------------------------------------
  // The workspace scan
  // ---------------------------------------------------------------------

  /**
   * One directory entry: a directory (with whether listing it succeeds and
   * what it lists), a regular file, or anything else.
   */
  datatype Entry = Dir(name: string, readable: bool, entries: seq<Entry>) | File(name: string) | Other(name: string)

  function Size(e: Entry): nat
  {
    match e
    case Dir(_, _, es) => 1 + SizeAll(es)
    case File(_) => 1
    case Other(_) => 1
  }

  function SizeAll(es: seq<Entry>): nat
  {
    if es == [] then 0 else Size(es[0]) + SizeAll(es[1..])
  }

  lemma {:induction false} SizeAllBound(es: seq<Entry>, k: nat)
    requires k < |es|
    ensures Size(es[k]) <= SizeAll(es)
    decreases k
  {
    if k > 0 {
      SizeAllBound(es[1..], k - 1);
    }
  }

  /** Whether a directory entry at the top of the workspace is the backup folder (names compared ignoring case). */
  predicate IsBackupName(name: string)
  {
    AsciiLower(name) == "backup"
  }

  /**
   * scan_directory(dir): nothing if the directory cannot be listed;
   * otherwise, entry by entry, the files the entry contributes.
   */
  function Scan(rule: ExclusionRule, dir: WinPath, readable: bool, es: seq<Entry>, root: bool): seq<WinPath>
    decreases SizeAll(es), 1
  {
    if !readable || es == [] then []
    else EntryFiles(rule, dir, es[0], root) + Scan(rule, dir, true, es[1..], root)
  }

  /**
   * What one entry contributes: an excluded directory, or the backup folder
   * at the top, nothing; another directory its own scan; a file itself
   * unless excluded; anything else nothing.
   */
  function EntryFiles(rule: ExclusionRule, dir: WinPath, e: Entry, root: bool): seq<WinPath>
    decreases Size(e), 0
  {
    match e
    case Dir(n, readable, kids) =>
      if n in ExcludedDirs || (root && IsBackupName(n)) then [] else Scan(rule, Child(dir, n), readable, kids, false)
    case File(n) =>
      if Excludes(rule, Child(dir, n)) then [] else [Child(dir, n)]
    case Other(_) => []
  }

  /** Appending one chunk to what is done moves it off what remains. */
  lemma ShiftChunk<T>(done: seq<T>, chunk: seq<T>, rest: seq<T>, total: seq<T>)
    requires done + (chunk + rest) == total
    ensures (done + chunk) + rest == total
  {
    assert (done + chunk) + rest == done + (chunk + rest);
  }

  /** One step of the scan specification: the first remaining entry, then the rest. */
  lemma ScanStep(rule: ExclusionRule, dir: WinPath, es: seq<Entry>, k: nat, root: bool)
    requires k < |es|
    ensures Scan(rule, dir, true, es[k..], root) == EntryFiles(rule, dir, es[k], root) + Scan(rule, dir, true, es[k + 1..], root)
  {
    assert es[k..][1..] == es[k + 1..];
  }

  /** scan_directory() as a recursive loop over the listing, appending what each entry contributes. */
  method ScanDirectory(rule: ExclusionRule, dir: WinPath, readable: bool, entries: seq<Entry>, root: bool) returns (files: seq<WinPath>)
    decreases SizeAll(entries), 1
    ensures files == Scan(rule, dir, readable, entries, root)
  {
    files := [];
    if !readable {
      return;
    }
    var k := 0;
    while k < |entries|
      invariant k <= |entries|
      invariant files + Scan(rule, dir, true, entries[k..], root) == Scan(rule, dir, true, entries, root)
    {
      var rest := Scan(rule, dir, true, entries[k + 1..], root);
      ScanStep(rule, dir, entries, k, root);
      SizeAllBound(entries, k);
      var part := ScanEntry(rule, dir, entries[k], root);
      ShiftChunk(files, part, rest, Scan(rule, dir, true, entries, root));
      files := files + part;
      k := k + 1;
    }
    assert files + [] == files;
  }

  /** The body of the listing loop for one entry: skip, recurse into a directory, or keep a file. */
  method ScanEntry(rule: ExclusionRule, dir: WinPath, e: Entry, root: bool) returns (part: seq<WinPath>)
    decreases Size(e), 0
    ensures part == EntryFiles(rule, dir, e, root)
  {
    match e {
      case Dir(n, subReadable, kids) =>
        if n in ExcludedDirs || (root && IsBackupName(n)) {
          part := [];
        } else {
          part := ScanDirectory(rule, Child(dir, n), subReadable, kids, false);
        }
      case File(n) =>
        part := if Excludes(rule, Child(dir, n)) then [] else [Child(dir, n)];
      case Other(_) =>
        part := [];
    }
  }

  /** `p` lies strictly below `dir`. */
  predicate Below(p: WinPath, dir: WinPath)
  {
    p.anchor == dir.anchor && |p.names| > |dir.names| && p.names[..|dir.names|] == dir.names
  }

  /** Everything a scan collects lies below the scanned directory and passes the exclusion test. */
  lemma {:induction false} ScanFacts(rule: ExclusionRule, dir: WinPath, readable: bool, es: seq<Entry>, root: bool)
    decreases SizeAll(es), 1
    ensures forall p :: p in Scan(rule, dir, readable, es, root) ==> Below(p, dir) && !Excludes(rule, p)
    ensures root ==> forall p :: p in Scan(rule, dir, readable, es, root) ==>
      |p.names| <= |dir.names| + 1 || !IsBackupName(p.names[|dir.names|])
  {
    if readable && es != [] {
      EntryFacts(rule, dir, es[0], root);
      ScanFacts(rule, dir, true, es[1..], root);
    }
  }

  /** The same for the files one directory entry contributes. */
  lemma {:induction false} EntryFacts(rule: ExclusionRule, dir: WinPath, e: Entry, root: bool)
    decreases Size(e), 0
    ensures forall p :: p in EntryFiles(rule, dir, e, root) ==> Below(p, dir) && !Excludes(rule, p)
    ensures root ==> forall p :: p in EntryFiles(rule, dir, e, root) ==>
      |p.names| <= |dir.names| + 1 || !IsBackupName(p.names[|dir.names|])
  {
    match e
    case Dir(n, readable, kids) =>
      if !(n in ExcludedDirs || (root && IsBackupName(n))) {
        var c := Child(dir, n);
        ScanFacts(rule, c, readable, kids, false);
        forall p | p in EntryFiles(rule, dir, e, root)
          ensures Below(p, dir) && p.names[|dir.names|] == n
        {
          assert Below(p, c);
          assert p.names[..|dir.names|] == p.names[..|c.names|][..|dir.names|];
          assert p.names[|dir.names|] == p.names[..|c.names|][|dir.names|];
        }
      }
    case File(n) =>
    case Other(_) =>
  }

  /**
   * get_file_list_optimized(): every file the workspace scan returns, as the
   * program runs it, passes should_exclude() as written, has no excluded
   * directory among its parts and does not lie inside the backup folder.
   */
  lemma ScanResultsAllowed(ws: WinPath, readable: bool, es: seq<Entry>)
    ensures forall p :: p in Scan(AsWritten, ws, readable, es, true) ==>
      && Below(p, ws)
      && !ShouldExclude(p)
      && (forall i :: 0 <= i < |ExcludedDirs| ==> ExcludedDirs[i] !in Parts(p))
      && !(|p.names| > |ws.names| + 1 && IsBackupName(p.names[|ws.names|]))
  {
    ScanFacts(AsWritten, ws, readable, es, true);
  }

  /**
   * The scan with the intended extension test keeps the same guarantees,
   * passes the intended test as well, and keeps only files the written scan
   * keeps.
   */
  lemma IntendedScanAllowed(ws: WinPath, readable: bool, es: seq<Entry>)
    ensures forall p :: p in Scan(AsIntended, ws, readable, es, true) ==>
      && Below(p, ws)
      && !ShouldExclude(p)
      && !ShouldExcludeFixed(p)
      && (forall i :: 0 <= i < |ExcludedDirs| ==> ExcludedDirs[i] !in Parts(p))
      && !(|p.names| > |ws.names| + 1 && IsBackupName(p.names[|ws.names|]))
      && p in Scan(AsWritten, ws, readable, es, true)
  {
    ScanFacts(AsIntended, ws, readable, es, true);
    IntendedScanWithinWritten(ws, readable, es, true);
    forall p | p in Scan(AsIntended, ws, readable, es, true) ensures !ShouldExclude(p) {
      FixedExtendsAsWritten(p, "");
    }
  }

  /** Every file the intended scan keeps, the written scan keeps too. */
  lemma {:induction false} IntendedScanWithinWritten(dir: WinPath, readable: bool, es: seq<Entry>, root: bool)
    decreases SizeAll(es), 1
    ensures forall p :: p in Scan(AsIntended, dir, readable, es, root) ==> p in Scan(AsWritten, dir, readable, es, root)
  {
    if readable && es != [] {
      IntendedEntryWithinWritten(dir, es[0], root);
      IntendedScanWithinWritten(dir, true, es[1..], root);
    }
  }

  /** The same for the files one directory entry contributes. */
  lemma {:induction false} IntendedEntryWithinWritten(dir: WinPath, e: Entry, root: bool)
    decreases Size(e), 0
    ensures forall p :: p in EntryFiles(AsIntended, dir, e, root) ==> p in EntryFiles(AsWritten, dir, e, root)
  {
    match e
    case Dir(n, readable, kids) =>
      IntendedScanWithinWritten(Child(dir, n), readable, kids, false);
    case File(n) =>
      FixedExtendsAsWritten(Child(dir, n), "");
    case Other(_) =>
  }

  /**
   * A workspace holding only a DuckDB write-ahead log: the program's scan
   * returns that file, the intended scan returns nothing.
   */
  lemma WalFileScannedAsWritten()
    ensures Scan(AsWritten, WinPath("F:\\", ["ws"]), true, [File("db.duckdb.wal")], true) == [WinPath("F:\\", ["ws", "db.duckdb.wal"])]
    ensures Scan(AsIntended, WinPath("F:\\", ["ws"]), true, [File("db.duckdb.wal")], true) == []
  {
    var ws := WinPath("F:\\", ["ws"]);
    assert Child(ws, "db.duckdb.wal") == WinPath("F:\\", ["ws", "db.duckdb.wal"]);
    ScanOneFile(AsWritten, ws, "db.duckdb.wal");
    ScanOneFile(AsIntended, ws, "db.duckdb.wal");
    WalPathExclusion();
  }

  /** A listing of one file contributes that file unless the test excludes it. */
  lemma ScanOneFile(rule: ExclusionRule, dir: WinPath, name: string)
    ensures Scan(rule, dir, true, [File(name)], true) ==
      if Excludes(rule, Child(dir, name)) then [] else [Child(dir, name)]
  {
    assert [File(name)][1..] == [];
  }

  /** `F:\ws\db.duckdb.wal` passes the written test and fails the intended one. */
  lemma WalPathExclusion()
    ensures !ShouldExclude(WinPath("F:\\", ["ws", "db.duckdb.wal"]))
    ensures ShouldExcludeFixed(WinPath("F:\\", ["ws", "db.duckdb.wal"]))
  {
    var p := WinPath("F:\\", ["ws", "db.duckdb.wal"]);
    assert Name(p) == "db" + ".duckdb.wal";
    WalPathOutsideExcludedDirs();
    WalFileNotExcludedAsWritten("db");
    FixedExtendsAsWritten(p, "db");
  }

  /** `F:\ws\db.duckdb.wal` lies in no excluded directory. */
  lemma WalPathOutsideExcludedDirs()
    ensures !InExcludedDir(WinPath("F:\\", ["ws", "db.duckdb.wal"]))
  {
    var p := WinPath("F:\\", ["ws", "db.duckdb.wal"]);
    assert Parts(p) == ["F:\\", "ws", "db.duckdb.wal"];
    WalPartsClear();
    WalPathText();
    WalTextLetters();
    WalPatternsMiss("F:\\ws\\db.duckdb.wal");
  }

  lemma WalPartsClear()
    ensures forall i :: 0 <= i < |ExcludedDirs| ==> ExcludedDirs[i] !in ["F:\\", "ws", "db.duckdb.wal"]
  {
  }

  lemma WalTextLetters()
    ensures forall c :: c in "F:\\ws\\db.duckdb.wal" ==> c !in "vto_g"
  {
  }

  lemma WalPathText()
    ensures Str(WinPath("F:\\", ["ws", "db.duckdb.wal"])) == "F:\\ws\\db.duckdb.wal"
  {
    assert Join(["ws", "db.duckdb.wal"], "\\") == "ws" + "\\" + Join(["db.duckdb.wal"], "\\");
  }

  /** Each excluded directory name has a letter that `text` lacks. */
  lemma WalPatternsMiss(text: string)
    requires forall c :: c in text ==> c !in "vto_g"
    ensures forall i :: 0 <= i < |ExcludedDirs| ==> !MatchesDirPattern(text, ExcludedDirs[i])
  {
    MissingCharNotMatched(text, ".venv", 'v');
    MissingCharNotMatched(text, ".venv311", 'v');
    MissingCharNotMatched(text, "data", 't');
    MissingCharNotMatched(text, "logs", 'o');
    MissingCharNotMatched(text, "node_modules", 'o');
    MissingCharNotMatched(text, "__pycache__", '_');
    MissingCharNotMatched(text, ".git", 'g');
  }

  /** A directory name with a character the path text lacks cannot match it. */
  lemma MissingCharNotMatched(s: string, dir: string, c: char)
    requires c in dir && c !in s
    ensures !MatchesDirPattern(s, dir)
  {
    var j :| 0 <= j < |dir| && dir[j] == c;
    assert ("\\" + dir + "\\")[j + 1] == c;
    assert ("\\" + dir)[j + 1] == c;
    ContainsUsesChars(s, "\\" + dir + "\\", c);
    EndsWithUsesChars(s, "\\" + dir, c);
  }

  // ---------------------------------------------------------------------
  // The archive file list
  // ---------------------------------------------------------------------

  /** The number of leading names two name lists share, compared ignoring case. */
  function CommonPrefixLength(a: seq<string>, b: seq<string>): (n: nat)
    ensures n <= |a| && n <= |b|
  {
    if a == [] || b == [] || AsciiLower(a[0]) != AsciiLower(b[0]) then 0
    else 1 + CommonPrefixLength(a[1..], b[1..])
  }

  /** A list shares all of itself with any list it is a prefix of. */
  lemma {:induction false} CommonPrefixOfExtension(a: seq<string>, b: seq<string>)
    requires |a| <= |b| && b[..|a|] == a
    ensures CommonPrefixLength(a, b) == |a|
  {
    if a != [] {
      assert a[0] == b[0];
      assert b[1..][..|a| - 1] == a[1..];
      CommonPrefixOfExtension(a[1..], b[1..]);
    }
  }

  /**
   * `os.path.relpath(path, start)` on Windows, as a list of names: an error
   * when the two lie on different drives; otherwise one `..` for each name
   * of `start` below the shared prefix, then the rest of `path`.
   */
  function RelPath(p: WinPath, start: WinPath): (r: Result<seq<string>>)
    ensures r.Failure? <==> AsciiLower(p.anchor) != AsciiLower(start.anchor)
  {
    if AsciiLower(p.anchor) != AsciiLower(start.anchor) then Failure("path is on a different drive")
    else
      var i := CommonPrefixLength(start.names, p.names);
      Success(seq(|start.names| - i, _ => "..") + p.names[i..])
  }

  /** The text of a relative path: `.` for no names, else the names joined with backslashes. */
  function RelText(rel: seq<string>): string
  {
    if rel == [] then "." else Join(rel, "\\")
  }

  /** `s.replace('\\', '/')`. */
  function ReplaceBackslashes(s: string): (t: string)
    ensures |t| == |s|
  {
    if s == [] then [] else [if s[0] == '\\' then '/' else s[0]] + ReplaceBackslashes(s[1..])
  }

  lemma {:induction false} ReplaceConcat(a: string, b: string)
    ensures ReplaceBackslashes(a + b) == ReplaceBackslashes(a) + ReplaceBackslashes(b)
  {
    if a != [] {
      var c := if a[0] == '\\' then '/' else a[0];
      assert (a + b)[0] == a[0] && (a + b)[1..] == a[1..] + b;
      ReplaceConcat(a[1..], b);
      calc {
        ReplaceBackslashes(a + b);
        [c] + ReplaceBackslashes(a[1..] + b);
        [c] + (ReplaceBackslashes(a[1..]) + ReplaceBackslashes(b));
        ([c] + ReplaceBackslashes(a[1..])) + ReplaceBackslashes(b);
      }
    } else {
      assert a + b == b;
    }
  }

  lemma {:induction false} ReplaceKeepsPlain(s: string)
    requires '\\' !in s
    ensures ReplaceBackslashes(s) == s
  {
    if s != [] {
      ReplaceKeepsPlain(s[1..]);
    }
  }

  /** Rewriting the backslashes of names joined by backslashes joins them with slashes. */
  lemma {:induction false} ReplaceJoin(parts: seq<string>)
    requires forall k :: 0 <= k < |parts| ==> '\\' !in parts[k]
    ensures ReplaceBackslashes(Join(parts, "\\")) == Join(parts, "/")
  {
    if |parts| == 1 {
      ReplaceKeepsPlain(parts[0]);
    } else if |parts| > 1 {
      ReplaceJoin(parts[1..]);
      ReplaceConcat(parts[0] + "\\", Join(parts[1..], "\\"));
      ReplaceConcat(parts[0], "\\");
      ReplaceKeepsPlain(parts[0]);
    }
  }

  /** The line the file list gets for one file, or none when relpath() fails. */
  function TempLine(ws: WinPath, p: WinPath): (line: Option<string>)
    ensures line.None? <==> AsciiLower(p.anchor) != AsciiLower(ws.anchor)
  {
    match RelPath(p, ws)
    case Failure(_) => None
    case Success(rel) => Some(ReplaceBackslashes(RelText(rel)))
  }

  /** What one file contributes to the file list: its line, or nothing for a file on another drive. */
  function LineOf(ws: WinPath, p: WinPath): seq<string>
  {
    var line := TempLine(ws, p);
    if line.Some? then [line.value] else []
  }

  /** The lines of the file list for `files` in order, skipping the files on other drives. */
  function TempLines(ws: WinPath, files: seq<WinPath>): seq<string>
  {
    if files == [] then [] else LineOf(ws, files[0]) + TempLines(ws, files[1..])
  }

  lemma TempLinesStep(ws: WinPath, files: seq<WinPath>, k: nat)
    requires k < |files|
    ensures TempLines(ws, files[k..]) == LineOf(ws, files[k]) + TempLines(ws, files[k + 1..])
  {
    assert files[k..][1..] == files[k + 1..];
  }

  /** temp_file_list(): the loop writing one line per file. */
  method WriteFileList(ws: WinPath, files: seq<WinPath>) returns (lines: seq<string>)
    ensures lines == TempLines(ws, files)
  {
    lines := [];
    var k := 0;
    while k < |files|
      invariant k <= |files|
      invariant lines + TempLines(ws, files[k..]) == TempLines(ws, files)
    {
      TempLinesStep(ws, files, k);
      ShiftChunk(lines, LineOf(ws, files[k]), TempLines(ws, files[k + 1..]), TempLines(ws, files));
      var line := TempLine(ws, files[k]);
      if line.Some? {
        lines := lines + [line.value];
      } else {
        assert lines + [] == lines;
      }
      k := k + 1;
    }
    assert lines + [] == lines;
  }

  /** A name as a Windows file system allows it: non-empty, with no backslash. */
  predicate IsPlainName(n: string)
  {
    n != "" && '\\' !in n
  }

  /** A file below the workspace gets its names below the workspace, joined with slashes. */
  lemma TempLineBelow(ws: WinPath, p: WinPath)
    requires Below(p, ws)
    requires forall k :: 0 <= k < |p.names| ==> IsPlainName(p.names[k])
    ensures TempLine(ws, p) == Some(Join(p.names[|ws.names|..], "/"))
  {
    CommonPrefixOfExtension(ws.names, p.names);
    var rel := p.names[|ws.names|..];
    var i := CommonPrefixLength(ws.names, p.names);
    var ups: seq<string> := seq(|ws.names| - i, _ => "..");
    assert ups == [];
    assert ups + p.names[i..] == rel;
    assert RelPath(p, ws) == Success(rel);
    ReplaceJoin(rel);
  }

  /** For files below the workspace the list has exactly one line per file, in order. */
  lemma {:induction false} TempLinesBelow(ws: WinPath, files: seq<WinPath>)
    requires forall i :: 0 <= i < |files| ==> Below(files[i], ws)
    requires forall i, k :: 0 <= i < |files| && 0 <= k < |files[i].names| ==> IsPlainName(files[i].names[k])
    ensures |TempLines(ws, files)| == |files|
    ensures forall i :: 0 <= i < |files| ==>
      |ws.names| < |files[i].names| && TempLines(ws, files)[i] == Join(files[i].names[|ws.names|..], "/")
  {
    if files != [] {
      TempLineBelow(ws, files[0]);
      TempLinesBelow(ws, files[1..]);
      var lines := TempLines(ws, files);
      assert lines == [Join(files[0].names[|ws.names|..], "/")] + TempLines(ws, files[1..]);
      forall i | 1 <= i < |files| ensures lines[i] == Join(files[i].names[|ws.names|..], "/") {
        assert lines[i] == TempLines(ws, files[1..])[i - 1];
      }
    }
  }

  // ---------------------------------------------------------------------
  // Retention of the newest archives
  // ---------------------------------------------------------------------

  /** How many archives are kept. */
  const DefaultKeepCount: nat := 250

  /** One entry of the backup folder: its name, whether it is a regular file, and its mtime or the error reading it. */
  datatype FolderEntry = FolderEntry(name: string, isFile: bool, mtime: Result<real>)

  /** An archive and its modification time. */
  datatype Archive = Archive(name: string, mtime: real)

  predicate IsArchiveEntry(e: FolderEntry)
  {
    e.isFile && (EndsWith(e.name, ".rar") || EndsWith(e.name, ".zip"))
  }

  /**
   * The archives of the folder listing in listing order; reading the mtime
   * of an archive can fail, and then the whole collection fails.
   */
  function CollectArchives(listing: seq<FolderEntry>): (r: Result<seq<Archive>>)
    ensures r.Success? ==> |r.value| <= |listing|
  {
    if listing == [] then Success([])
    else
      var rest := CollectArchives(listing[1..]);
      var e := listing[0];
      if !IsArchiveEntry(e) then rest
      else if e.mtime.Failure? then Failure(e.mtime.error)
      else if rest.Failure? then rest
      else Success([Archive(e.name, e.mtime.value)] + rest.value)
  }

  /**
   * Only regular files named `*.rar` or `*.zip` are collected, in listing
   * order with their mtimes; the collection fails exactly when one of them
   * has an mtime that cannot be read.
   */
  lemma {:induction false} CollectArchivesFacts(listing: seq<FolderEntry>)
    ensures var r := CollectArchives(listing);
      r.Success? <==> forall i :: 0 <= i < |listing| && IsArchiveEntry(listing[i]) ==> listing[i].mtime.Success?
    ensures var r := CollectArchives(listing);
      r.Success? ==> forall a :: a in r.value <==>
        exists i :: 0 <= i < |listing| && IsArchiveEntry(listing[i]) && listing[i].mtime.Success? &&
                    a == Archive(listing[i].name, listing[i].mtime.value)
  {
    if listing != [] {
      CollectArchivesFacts(listing[1..]);
      var r, rest := CollectArchives(listing), CollectArchives(listing[1..]);
      assert forall i :: 0 < i < |listing| ==> listing[i] == listing[1..][i - 1];
      if r.Success? {
        forall a | a in r.value
          ensures exists i :: 0 <= i < |listing| && IsArchiveEntry(listing[i]) && listing[i].mtime.Success? &&
                              a == Archive(listing[i].name, listing[i].mtime.value)
        {
          if a !in rest.value {
            assert a == Archive(listing[0].name, listing[0].mtime.value);
          } else {
            var j :| 0 <= j < |listing[1..]| && IsArchiveEntry(listing[1..][j]) && listing[1..][j].mtime.Success? &&
                     a == Archive(listing[1..][j].name, listing[1..][j].mtime.value);
            assert listing[j + 1] == listing[1..][j];
          }
        }
        forall i | 0 <= i < |listing| && IsArchiveEntry(listing[i]) && listing[i].mtime.Success?
          ensures Archive(listing[i].name, listing[i].mtime.value) in r.value
        {
          if i > 0 {
            assert listing[1..][i - 1] == listing[i];
          }
        }
      }
    }
  }

  /** Insert an archive in front of the first one that is not newer (stable for equal times). */
  function InsertNewestFirst(a: Archive, s: seq<Archive>): (r: seq<Archive>)
    ensures |r| == |s| + 1
  {
    if s == [] || a.mtime >= s[0].mtime then [a] + s
    else [s[0]] + InsertNewestFirst(a, s[1..])
  }

  /** The archives ordered newest first, equal times in their original order. */
  function SortNewestFirst(s: seq<Archive>): (r: seq<Archive>)
    ensures |r| == |s|
  {
    if s == [] then [] else InsertNewestFirst(s[0], SortNewestFirst(s[1..]))
  }

  predicate NewestFirst(s: seq<Archive>)
  {
    forall i, j :: 0 <= i < j < |s| ==> s[i].mtime >= s[j].mtime
  }

  predicate NoNewerThan(bound: real, s: seq<Archive>)
  {
    forall j :: 0 <= j < |s| ==> s[j].mtime <= bound
  }

  lemma {:induction false} InsertPermutes(a: Archive, s: seq<Archive>)
    ensures multiset(InsertNewestFirst(a, s)) == multiset(s) + multiset{a}
  {
    if s != [] && a.mtime < s[0].mtime {
      InsertPermutes(a, s[1..]);
      assert s == [s[0]] + s[1..];
    }
  }

  /** cleanup's sort only reorders: the same archives, each as often. */
  lemma {:induction false} SortPermutes(s: seq<Archive>)
    ensures multiset(SortNewestFirst(s)) == multiset(s)
  {
    if s != [] {
      SortPermutes(s[1..]);
      InsertPermutes(s[0], SortNewestFirst(s[1..]));
      assert s == [s[0]] + s[1..];
    }
  }

  lemma {:induction false} InsertBounded(a: Archive, s: seq<Archive>, bound: real)
    requires NoNewerThan(bound, s) && a.mtime <= bound
    ensures NoNewerThan(bound, InsertNewestFirst(a, s))
  {
    if s != [] && a.mtime < s[0].mtime {
      InsertBounded(a, s[1..], bound);
    }
  }

  lemma {:induction false} InsertKeepsOrder(a: Archive, s: seq<Archive>)
    requires NewestFirst(s)
    ensures NewestFirst(InsertNewestFirst(a, s))
  {
    if s != [] && a.mtime < s[0].mtime {
      var t := InsertNewestFirst(a, s[1..]);
      InsertKeepsOrder(a, s[1..]);
      InsertBounded(a, s[1..], s[0].mtime);
      var r := [s[0]] + t;
      forall i, j | 0 <= i < j < |r| ensures r[i].mtime >= r[j].mtime {
        assert r[j] == t[j - 1];
        if i > 0 {
          assert r[i] == t[i - 1];
        }
      }
    }
  }

  /** cleanup's sort: the result is ordered newest first. */
  lemma {:induction false} SortIsNewestFirst(s: seq<Archive>)
    ensures NewestFirst(SortNewestFirst(s))
  {
    if s != [] {
      SortIsNewestFirst(s[1..]);
      InsertKeepsOrder(s[0], SortNewestFirst(s[1..]));
    }
  }

  /** The archives cleanup_old_backups() tries to delete: none if the listing or an mtime fails or few enough exist. */
  function ToDelete(listing: Result<seq<FolderEntry>>, keepCount: nat): seq<Archive>
  {
    if listing.Failure? then []
    else
      var archives := CollectArchives(listing.value);
      if archives.Failure? || |archives.value| <= keepCount then []
      else SortNewestFirst(archives.value)[keepCount..]
  }

  /**
   * Retention keeps the `keepCount` newest archives and tries to delete all
   * others, each no newer than any it keeps; with few enough archives
   * nothing is deleted.
   */
  lemma RetentionKeepsNewest(listing: seq<FolderEntry>, keepCount: nat)
    ensures var archives := CollectArchives(listing);
      archives.Success? && |archives.value| <= keepCount ==> ToDelete(Success(listing), keepCount) == []
    ensures var archives := CollectArchives(listing);
      archives.Success? && |archives.value| > keepCount ==>
        var sorted := SortNewestFirst(archives.value);
        var kept, dropped := sorted[..keepCount], ToDelete(Success(listing), keepCount);
        && |kept| == keepCount && |dropped| == |archives.value| - keepCount
        && multiset(kept) + multiset(dropped) == multiset(archives.value)
        && (forall i, j :: 0 <= i < |kept| && 0 <= j < |dropped| ==> kept[i].mtime >= dropped[j].mtime)
  {
    var archives := CollectArchives(listing);
    if archives.Success? && |archives.value| > keepCount {
      SortIsNewestFirst(archives.value);
      SortPermutes(archives.value);
      SplitNewestFirst(SortNewestFirst(archives.value), keepCount);
    }
  }

  /** Cutting a newest-first list keeps every archive, and no archive after the cut is newer than one before it. */
  lemma SplitNewestFirst(sorted: seq<Archive>, keepCount: nat)
    requires NewestFirst(sorted) && keepCount <= |sorted|
    ensures multiset(sorted[..keepCount]) + multiset(sorted[keepCount..]) == multiset(sorted)
    ensures forall i, j :: 0 <= i < keepCount && 0 <= j < |sorted| - keepCount ==>
      sorted[..keepCount][i].mtime >= sorted[keepCount..][j].mtime
  {
    assert sorted == sorted[..keepCount] + sorted[keepCount..];
    forall i, j | 0 <= i < keepCount && 0 <= j < |sorted| - keepCount
      ensures sorted[..keepCount][i].mtime >= sorted[keepCount..][j].mtime
    {
      assert sorted[..keepCount][i] == sorted[i] && sorted[keepCount..][j] == sorted[keepCount + j];
    }
  }

  /** The names of the archives, in order. */
  function Names(s: seq<Archive>): (r: seq<string>)
    ensures |r| == |s|
  {
    if s == [] then [] else [s[0].name] + Names(s[1..])
  }

  /** What removing one archive contributes: its name if the removal succeeds. */
  function RemovedOne(a: Archive, unlinkOk: string -> bool): seq<string>
  {
    if unlinkOk(a.name) then [a.name] else []
  }

  /** The archives whose removal succeeds, in order. */
  function Removed(s: seq<Archive>, unlinkOk: string -> bool): seq<string>
  {
    if s == [] then [] else RemovedOne(s[0], unlinkOk) + Removed(s[1..], unlinkOk)
  }

  /**
   * cleanup_old_backups(): removal is attempted for every archive beyond the
   * newest `keepCount`, in order, and a failed removal does not stop the
   * rest. Returns the names attempted and the names removed.
   */
  method CleanupOldBackups(listing: Result<seq<FolderEntry>>, keepCount: nat, unlinkOk: string -> bool)
    returns (attempted: seq<string>, removed: seq<string>)
    ensures attempted == Names(ToDelete(listing, keepCount))
    ensures removed == Removed(ToDelete(listing, keepCount), unlinkOk)
  {
    attempted, removed := RemoveEach(ToDelete(listing, keepCount), unlinkOk);
  }

  lemma NamesStep(doomed: seq<Archive>, k: nat)
    requires k < |doomed|
    ensures Names(doomed[k..]) == [doomed[k].name] + Names(doomed[k + 1..])
  {
    assert doomed[k..][1..] == doomed[k + 1..];
  }

  lemma RemovedStep(doomed: seq<Archive>, k: nat, unlinkOk: string -> bool)
    requires k < |doomed|
    ensures Removed(doomed[k..], unlinkOk) == RemovedOne(doomed[k], unlinkOk) + Removed(doomed[k + 1..], unlinkOk)
  {
    assert doomed[k..][1..] == doomed[k + 1..];
  }

  /** One turn of the deletion loop keeps both loop invariants. */
  lemma RemovalStep(doomed: seq<Archive>, k: nat, unlinkOk: string -> bool, attempted: seq<string>, removed: seq<string>)
    requires k < |doomed|
    requires attempted + Names(doomed[k..]) == Names(doomed)
    requires removed + Removed(doomed[k..], unlinkOk) == Removed(doomed, unlinkOk)
    ensures (attempted + [doomed[k].name]) + Names(doomed[k + 1..]) == Names(doomed)
    ensures (removed + RemovedOne(doomed[k], unlinkOk)) + Removed(doomed[k + 1..], unlinkOk) == Removed(doomed, unlinkOk)
  {
    NamesStep(doomed, k);
    RemovedStep(doomed, k, unlinkOk);
    ShiftChunk(attempted, [doomed[k].name], Names(doomed[k + 1..]), Names(doomed));
    ShiftChunk(removed, RemovedOne(doomed[k], unlinkOk), Removed(doomed[k + 1..], unlinkOk), Removed(doomed, unlinkOk));
  }

  /** The deletion loop: tries each archive in turn and carries on after a failed removal. */
  method RemoveEach(doomed: seq<Archive>, unlinkOk: string -> bool) returns (attempted: seq<string>, removed: seq<string>)
    ensures attempted == Names(doomed)
    ensures removed == Removed(doomed, unlinkOk)
  {
    attempted, removed := [], [];
    var k := 0;
    while k < |doomed|
      invariant k <= |doomed|
      invariant attempted + Names(doomed[k..]) == Names(doomed)
      invariant removed + Removed(doomed[k..], unlinkOk) == Removed(doomed, unlinkOk)
    {
      var name := doomed[k].name;
      RemovalStep(doomed, k, unlinkOk, attempted, removed);
      if unlinkOk(name) {
        removed := removed + [name];
      } else {
        assert removed + [] == removed;
      }
      attempted := attempted + [name];
      k := k + 1;
    }
    assert doomed[k..] == [];
    assert attempted + [] == attempted;
    assert removed + [] == removed;
  }

  /** Removed names are among the attempted ones, and all are attempted when every removal succeeds. */
  lemma {:induction false} RemovedAreAttempted(s: seq<Archive>, unlinkOk: string -> bool)
    ensures |Removed(s, unlinkOk)| <= |s|
    ensures forall n :: n in Removed(s, unlinkOk) ==> n in Names(s) && unlinkOk(n)
    ensures (forall i :: 0 <= i < |s| ==> unlinkOk(s[i].name)) ==> Removed(s, unlinkOk) == Names(s)
  {
    if s != [] {
      RemovedAreAttempted(s[1..], unlinkOk);
      assert Names(s) == [s[0].name] + Names(s[1..]);
    }
  }

  // ---------------------------------------------------------------------
  // Archiver lookup
  // ---------------------------------------------------------------------

  /** The archiver locations tried, in order, when none is on the search path. */
  const RarInstallPaths: seq<string> := [
    "C:\\Program Files\\WinRAR\\WinRAR.exe",
    "C:\\Program Files (x86)\\WinRAR\\WinRAR.exe",
    "C:\\Program Files\\WinRAR\\Rar.exe",
    "C:\\Program Files (x86)\\WinRAR\\Rar.exe"
  ]

  /** Python truthiness of a possibly missing string. */
  predicate Truthy(s: Option<string>)
  {
    s.Some? && s.value != ""
  }

  /** The first of `paths[i..]` that exists. */
  function FirstExisting(paths: seq<string>, present: string -> bool, i: nat): Option<string>
    requires i <= |paths|
    decreases |paths| - i
  {
    if i == |paths| then None
    else if present(paths[i]) then Some(paths[i])
    else FirstExisting(paths, present, i + 1)
  }

  /** The first existing path is the earliest one that exists, and there is none only if none exists. */
  lemma {:induction false} FirstExistingIsFirst(paths: seq<string>, present: string -> bool, i: nat)
    requires i <= |paths|
    decreases |paths| - i
    ensures var r := FirstExisting(paths, present, i);
      && (r.None? <==> forall k :: i <= k < |paths| ==> !present(paths[k]))
      && (r.Some? ==> exists k :: i <= k < |paths| && r.value == paths[k] && present(paths[k])
                         && forall j :: i <= j < k ==> !present(paths[j]))
  {
    if i < |paths| && !present(paths[i]) {
      FirstExistingIsFirst(paths, present, i + 1);
    }
  }

  /** What find_rar_executable() returns: a search-path hit for rar, else for winrar, else the first installed path. */
  function RarLookup(whichRar: Option<string>, whichWinrar: Option<string>, present: string -> bool): Option<string>
  {
    if Truthy(whichRar) then whichRar
    else if Truthy(whichWinrar) then whichWinrar
    else FirstExisting(RarInstallPaths, present, 0)
  }

  /** find_rar_executable(): the search path first, then the install paths in order. */
  method FindRarExecutable(whichRar: Option<string>, whichWinrar: Option<string>, present: string -> bool)
    returns (r: Option<string>)
    ensures r == RarLookup(whichRar, whichWinrar, present)
  {
    if Truthy(whichRar) {
      return whichRar;
    }
    if Truthy(whichWinrar) {
      return whichWinrar;
    }
    var k := 0;
    while k < |RarInstallPaths|
      invariant k <= |RarInstallPaths|
      invariant FirstExisting(RarInstallPaths, present, k) == FirstExisting(RarInstallPaths, present, 0)
    {
      if present(RarInstallPaths[k]) {
        return Some(RarInstallPaths[k]);
      }
      k := k + 1;
    }
    r := None;
  }

  // ---------------------------------------------------------------------
  // Creating the backup
  // ---------------------------------------------------------------------

  /** The workspace and its backup folder. */
  datatype Workspace = Workspace(path: WinPath, backupDir: WinPath)

  /**
   * The WorkspaceBackup constructor: `resolved` is the resolved workspace
   * path, or the error resolving raised; an unsafe path is refused.
   */
  function NewWorkspace(given: string, resolved: Result<WinPath>): (r: Result<Workspace>)
    ensures r.Success? <==> IsSafePath(resolved)
    ensures r.Success? ==> r.value.path == resolved.value && r.value.backupDir == Child(resolved.value, "backup")
    ensures resolved.Success? && !IsSafePath(resolved) ==> r == Failure("Unsicherer Workspace-Pfad: " + given)
  {
    match resolved
    case Failure(e) => Failure(e)
    case Success(path) =>
      if !IsSafePath(resolved) then Failure("Unsicherer Workspace-Pfad: " + given)
      else Success(Workspace(path, Child(path, "backup")))
  }

  /** The backup folder is exactly the top-level entry the scan skips as the backup folder. */
  lemma {:induction false} AsciiLowerConcat(a: string, b: string)
    ensures AsciiLower(a + b) == AsciiLower(a) + AsciiLower(b)
  {
    if a != [] {
      AsciiLowerConcat(a[1..], b);
      assert (a + b)[1..] == a[1..] + b;
    } else {
      assert a + b == b;
    }
  }

  /** Lower-casing leaves a lower-case name unchanged. */
  lemma LowerBackupName()
    ensures AsciiLower("backup") == "backup"
  {
    var s := "backup";
    assert AsciiLower(s[5..]) == "p";
    assert AsciiLower(s[4..]) == "up";
    assert AsciiLower(s[3..]) == "kup";
    assert AsciiLower(s[2..]) == "ckup";
    assert AsciiLower(s[1..]) == "ackup";
  }

  lemma {:induction false} JoinSnoc(parts: seq<string>, name: string, sep: string)
    ensures Join(parts + [name], sep) == if parts == [] then name else Join(parts, sep) + sep + name
  {
    if |parts| > 1 {
      JoinSnoc(parts[1..], name, sep);
      assert (parts + [name])[1..] == parts[1..] + [name];
    }
  }

  /** The text every child of `p` starts with: `p` itself and, unless `p` is a bare anchor, a separator. */
  function ChildPrefix(p: WinPath): string
  {
    p.anchor + (if p.names == [] then "" else Join(p.names, "\\") + "\\")
  }

  lemma StrChild(p: WinPath, name: string)
    ensures Str(Child(p, name)) == ChildPrefix(p) + name
  {
    JoinSnoc(p.names, name, "\\");
  }

  /** Lower-cased texts with a common prefix are equal exactly when their rests are. */
  lemma LowerCancel(prefix: string, a: string, b: string)
    ensures AsciiLower(prefix + a) == AsciiLower(prefix + b) <==> AsciiLower(a) == AsciiLower(b)
  {
    AsciiLowerConcat(prefix, a);
    AsciiLowerConcat(prefix, b);
    var low := AsciiLower(prefix);
    if low + AsciiLower(a) == low + AsciiLower(b) {
      assert (low + AsciiLower(a))[|low|..] == AsciiLower(a);
      assert (low + AsciiLower(b))[|low|..] == AsciiLower(b);
    }
  }

  /**
   * At the top level of the scan, an entry is the backup folder (paths
   * compared case-insensitively, as Windows paths are) exactly when its
   * name is `backup` in any letter case.
   */
  lemma BackupFolderMatch(w: Workspace, name: string)
    requires w.backupDir == Child(w.path, "backup")
    ensures AsciiLower(Str(Child(w.path, name))) == AsciiLower(Str(w.backupDir)) <==> IsBackupName(name)
  {
    StrChild(w.path, name);
    StrChild(w.path, "backup");
    LowerCancel(ChildPrefix(w.path), name, "backup");
    LowerBackupName();
  }

  /** The archive name for a `%Y%m%d_%H%M%S` timestamp. */
  function BackupName(timestamp: string): string
  {
    "movie-mcp-prototype_backup_" + timestamp + ".rar"
  }

  /** `path.with_suffix(s)` on a name: its suffix replaced by `s`. */
  function WithSuffix(name: string, suffix: string): string
  {
    name[..|name| - |Suffix(name)|] + suffix
  }

  /** The fallback archive has the same name with `.zip` in place of `.rar`. */
  lemma ZipFallbackName(timestamp: string)
    requires '.' !in timestamp
    ensures WithSuffix(BackupName(timestamp), ".zip") == "movie-mcp-prototype_backup_" + timestamp + ".zip"
  {
    var prefix := "movie-mcp-prototype_backup_" + timestamp;
    var name := BackupName(timestamp);
    assert '.' !in "movie-mcp-prototype_backup_";
    assert forall k :: 0 <= k < |prefix| ==> name[k] == prefix[k] && name[k] != '.';
    assert name[|prefix|] == '.';
    assert LastIndexOf(name, '.') == |prefix|;
    assert Suffix(name) == ".rar";
    assert name[..|name| - 4] == prefix;
  }

  /** The archiver command line: add, recurse, best compression, the archive, the file list. */
  function RarCommand(exe: string, archive: WinPath, listFile: string): seq<string>
  {
    [exe, "a", "-r", "-m5", Str(archive), "@" + listFile]
  }

  /** What one archiver run reports: nothing if it timed out or could not start, else its exit code. */
  datatype RarRun = RarRun(listFile: Result<string>, exitCode: Option<int>, archiveExists: bool)

  /** create_rar_backup_winrar(): success needs the file list, exit code 0 and the archive on disk. */
  function RarSucceeded(run: RarRun): (ok: bool)
    ensures ok <==> run.listFile.Success? && run.exitCode == Some(0) && run.archiveExists
  {
    match run.listFile
    case Failure(_) => false
    case Success(_) => run.exitCode.Some? && run.exitCode.value == 0 && run.archiveExists
  }

  /**
   * The archive create_rar_backup() writes, and how: with the archiver (and
   * the command line it runs once the file list is written), or as a ZIP.
   */
  datatype Attempt = WithRar(archive: WinPath, command: Option<seq<string>>) | WithZip(archive: WinPath)

  /**
   * create_rar_backup(): with an archiver, a RAR archive under the backup
   * folder; without one, a ZIP archive of the same name with suffix `.zip`.
   * `zipOk` says whether the ZIP archive was written and found afterwards.
   */
  function CreateRarBackup(w: Workspace, timestamp: string, rarExe: Option<string>, run: RarRun, zipOk: bool): (r: (Attempt, bool))
    ensures rarExe.None? ==> r.0 == WithZip(Child(w.backupDir, WithSuffix(BackupName(timestamp), ".zip"))) && r.1 == zipOk
    ensures rarExe.Some? ==> r.0.WithRar? && r.0.archive == Child(w.backupDir, BackupName(timestamp)) && r.1 == RarSucceeded(run)
    ensures rarExe.Some? ==> (r.0.command.Some? <==> run.listFile.Success?)
    ensures rarExe.Some? && run.listFile.Success? ==>
      var cmd := r.0.command.value;
      |cmd| == 6 && cmd[0] == rarExe.value && cmd[4] == Str(r.0.archive) && cmd[5] == "@" + run.listFile.value
  {
    var name := BackupName(timestamp);
    if rarExe.None? then (WithZip(Child(w.backupDir, WithSuffix(name, ".zip"))), zipOk)
    else
      var archive := Child(w.backupDir, name);
      var command := if run.listFile.Success? then Some(RarCommand(rarExe.value, archive, run.listFile.value)) else None;
      (WithRar(archive, command), RarSucceeded(run))
  }

  /**
   * run_backup(): create the archive and, only if that succeeded, clean up
   * old archives. Returns whether the backup succeeded and what the cleanup
   * attempted and removed.
   */
  method RunBackup(w: Workspace, timestamp: string,
                   whichRar: Option<string>, whichWinrar: Option<string>, present: string -> bool,
                   run: RarRun, zipOk: bool,
                   listing: Result<seq<FolderEntry>>, unlinkOk: string -> bool)
    returns (ok: bool, attempted: seq<string>, removed: seq<string>)
    ensures ok == CreateRarBackup(w, timestamp, RarLookup(whichRar, whichWinrar, present), run, zipOk).1
    ensures !ok ==> attempted == [] && removed == []
    ensures ok ==>
      attempted == Names(ToDelete(listing, DefaultKeepCount)) &&
      removed == Removed(ToDelete(listing, DefaultKeepCount), unlinkOk)
  {
    var rarExe := FindRarExecutable(whichRar, whichWinrar, present);
    var (_, created) := CreateRarBackup(w, timestamp, rarExe, run, zipOk);
    attempted, removed := [], [];
    if created {
      attempted, removed := CleanupOldBackups(listing, DefaultKeepCount, unlinkOk);
    }
    ok := created;
  }

  /**
   * main()'s exit status: 0 only when the workspace was accepted, exists on
   * disk and the backup succeeded.
   */
  function ExitStatus(workspace: Result<Workspace>, workspaceExists: bool, succeeded: bool): (status: int)
    ensures status == 0 <==> workspace.Success? && workspaceExists && succeeded
    ensures status == 0 || status == 1
  {
    if workspace.Failure? || !workspaceExists then 1
    else if succeeded then 0 else 1
  }
}
