/**
 * The organization policy (`organize_file`): the destination directory chosen
 * by the rule from the file's extension and the current date, the first free
 * name `name.ext`, `name(1).ext`, `name(2).ext`, … in that directory, and the
 * move of the staged file there.
 */
module Organizer {
  import opened Wrappers
  import opened Strings
  import opened Paths
  import opened FileSystems

  /** The three organization rules a configuration may name. */
  datatype Rule = ByDate | ByType | ByTypeThenDate

  /** The rule named by the `organization_rule` setting; any other name is unknown. */
  function ParseRule(name: string): (r: Option<Rule>)
    ensures r == Some(ByDate) <==> name == "date"
    ensures r == Some(ByType) <==> name == "type"
    ensures r == Some(ByTypeThenDate) <==> name == "type_then_date"
    ensures r == None <==> name != "date" && name != "type" && name != "type_then_date"
  {
    if name == "date" then Some(ByDate)
    else if name == "type" then Some(ByType)
    else if name == "type_then_date" then Some(ByTypeThenDate)
    else None
  }

  /** `os.path.splitext(name)[1].lower().replace('.', '')` */
  function NormalizeExtension(fileName: string): (ext: string)
  {
    Remove(Lower(SplitExt(fileName).1), '.')
  }

  /**
   * The normalised extension is the text after the extension's dot,
   * lower-cased, or empty when the name has no extension.
   */
  lemma NormalizeExtensionIsLoweredSuffix(fileName: string)
    ensures var ext := SplitExt(fileName).1;
      NormalizeExtension(fileName) == if ext == "" then "" else Lower(ext[1..])
    ensures '.' !in NormalizeExtension(fileName) && '/' !in NormalizeExtension(fileName)
    ensures forall i :: 0 <= i < |NormalizeExtension(fileName)| ==> !IsUpper(NormalizeExtension(fileName)[i])
  {
    var ext := SplitExt(fileName).1;
    if ext != "" {
      var tail := ext[1..];
      SplitAt(ext, 0);
      assert '/' !in tail by {
        SuffixLacks(ext, 0, 1, '/');
      }
      LowerLacks(tail, '.');
      LowerLacks(tail, '/');
      assert Lower(ext) == [LowerChar(ext[0])] + Lower(tail);
      RemoveAppend([LowerChar(ext[0])], Lower(tail), '.');
      RemoveSingle(LowerChar(ext[0]), '.');
    }
  }

  /** `ext.capitalize()`, or "Otros" for a file without an extension. */
  function TypeFolder(ext: string): (folder: string)
    ensures folder != ""
    ensures ext == "" ==> folder == "Otros"
    ensures ext != "" ==> |folder| == |ext| && !IsLower(folder[0])
    ensures ext != "" ==> forall i :: 1 <= i < |folder| ==> !IsUpper(folder[i])
    ensures ext != "" ==> folder[0] == UpperChar(ext[0])
    ensures ext != "" ==> forall i :: 1 <= i < |ext| ==> folder[i] == LowerChar(ext[i])
    ensures '/' !in ext ==> '/' !in folder
  {
    if ext != "" then
      var c := Capitalize(ext);
      assert '/' !in ext ==> '/' !in c by {
        if '/' !in ext {
          forall i | 0 <= i < |c| ensures c[i] != '/' {
            assert ext[i] != '/';
          }
        }
      }
      c
    else "Otros"
  }

  /** The first and second sub-folder the rule picks; an empty second one means none. */
  function SubFolders(rule: Rule, ext: string, today: string): (string, string)
  {
    match rule
    case ByDate => (today, "")
    case ByType => (TypeFolder(ext), "")
    case ByTypeThenDate => (TypeFolder(ext), today)
  }

  /** The directory the file is moved into. */
  function DestinationDir(base: string, rule: Rule, ext: string, today: string): (dir: string)
  {
    var sub := SubFolders(rule, ext, today);
    if sub.1 != "" then Join(Join(base, sub.0), sub.1) else Join(base, sub.0)
  }

  /** The base folder as a directory `os.makedirs` creates: none when the base is the working directory `""`. */
  function BaseDirs(base: string): (dirs: set<string>)
  {
    if base == "" then {} else {base}
  }

  /** The directories `os.makedirs` guarantees to exist before the move. */
  function CreatedDirs(base: string, rule: Rule, ext: string, today: string): (dirs: set<string>)
  {
    BaseDirs(base) + {Join(base, SubFolders(rule, ext, today).0), DestinationDir(base, rule, ext, today)}
  }

  /** A name that is neither empty nor absolute is joined to a folder without a trailing separator by one separator. */
  lemma JoinPlain(a: string, b: string)
    requires a != "" && a[|a| - 1] != '/'
    requires b != "" && b[0] != '/'
    ensures Join(a, b) == a + "/" + b
  {
    assert b[..1] == [b[0]];
    assert a[|a| - 1..] == [a[|a| - 1]];
  }

  /** The type folder of a normalised extension is a single relative name. */
  lemma TypeFolderIsName(fileName: string)
    ensures var folder := TypeFolder(NormalizeExtension(fileName));
      folder != "" && '/' !in folder
  {
    NormalizeExtensionIsLoweredSuffix(fileName);
  }

  /**
   * With a plain base folder and a date, the rules give `base/date`,
   * `base/Ext` (or `base/Otros`) and `base/Ext/date`.
   */
  lemma DestinationLayout(base: string, fileName: string, today: string)
    requires base != "" && base[|base| - 1] != '/'
    requires today != "" && today[0] != '/'
    ensures var folder := TypeFolder(NormalizeExtension(fileName));
      && DestinationDir(base, ByDate, NormalizeExtension(fileName), today) == base + "/" + today
      && DestinationDir(base, ByType, NormalizeExtension(fileName), today) == base + "/" + folder
      && DestinationDir(base, ByTypeThenDate, NormalizeExtension(fileName), today)
           == base + "/" + folder + "/" + today
  {
    var folder := TypeFolder(NormalizeExtension(fileName));
    TypeFolderIsName(fileName);
    assert folder[0] in folder && folder[|folder| - 1] in folder;
    JoinPlain(base, today);
    JoinPlain(base, folder);
    var p := base + "/" + folder;
    assert p[|p| - 1] == folder[|folder| - 1];
    JoinPlain(p, today);
  }

  /** A name `stem.ext` whose stem does not start with a dot has the extension `ext`, lower-cased ("report.PDF" gives "pdf"). */
  lemma ExtensionOfName(stem: string, ext: string)
    requires stem != "" && stem[0] != '.' && '/' !in stem
    requires '.' !in ext && '/' !in ext
    ensures NormalizeExtension(stem + "." + ext) == Lower(ext)
  {
    SplitExtOf(stem, ext, 0);
    NormalizeExtensionIsLoweredSuffix(stem + "." + ext);
    assert ("." + ext)[1..] == ext;
  }

  /** Files with the extension "csv" go to the folder "Csv". */
  lemma CsvTypeFolder()
    ensures TypeFolder("csv") == "Csv"
  {
    var c := Capitalize("csv");
    assert c[0] == UpperChar('c') == 'C';
    assert c[1] == LowerChar('s') && c[2] == LowerChar('v');
  }

  /**
   * The name tried at attempt `k` for a file split into `stem` and `ext`: the
   * file's own name first, then `stem(k)ext`.
   */
  function CandidateName(stem: string, ext: string, k: nat): (name: string)
  {
    if k == 0 then stem + ext else stem + "(" + NatToString(k) + ")" + ext
  }

  /** The path tried at attempt `k`. */
  function Candidate(dir: string, stem: string, ext: string, k: nat): (path: string)
  {
    Join(dir, CandidateName(stem, ext, k))
  }

  lemma CandidateNameHasNoSeparator(stem: string, ext: string, k: nat)
    requires '/' !in stem && '/' !in ext
    ensures '/' !in CandidateName(stem, ext, k)
  {
    assert '/' !in NatToString(k);
  }

  /** Two attempts never try the same name. */
  lemma CandidateNameInjective(stem: string, ext: string, j: nat, k: nat)
    requires CandidateName(stem, ext, j) == CandidateName(stem, ext, k)
    ensures j == k
  {
    if j > 0 && k > 0 {
      var a, b := NatToString(j), NatToString(k);
      assert ')' !in a && ')' !in b;
      CounterInjective(stem, a, b, ext);
      NatToStringInjective(j, k);
    }
  }

  /** The counter between the brackets is recovered from the name. */
  lemma CounterInjective(stem: string, a: string, b: string, ext: string)
    requires ')' !in a && ')' !in b
    requires stem + "(" + a + ")" + ext == stem + "(" + b + ")" + ext
    ensures a == b
  {
    var x := stem + "(" + a + ")" + ext;
    var y := stem + "(" + b + ")" + ext;
    var n := |stem| + 1;
    var s, t := a + (")" + ext), b + (")" + ext);
    assert x[n..] == s;
    assert y[n..] == t;
    FindAppend(a, ")" + ext, ')');
    FindAppend(b, ")" + ext, ')');
    assert s[..|a|] == a;
    assert t[..|b|] == b;
  }

  /** Two attempts never try the same path. */
  lemma CandidateInjective(dir: string, stem: string, ext: string, j: nat, k: nat)
    requires '/' !in stem && '/' !in ext
    requires Candidate(dir, stem, ext, j) == Candidate(dir, stem, ext, k)
    ensures j == k
  {
    CandidateNameHasNoSeparator(stem, ext, j);
    CandidateNameHasNoSeparator(stem, ext, k);
    var x, y := CandidateName(stem, ext, j), CandidateName(stem, ext, k);
    RelativeName(x);
    RelativeName(y);
    JoinInjective(dir, x, y);
    CandidateNameInjective(stem, ext, j, k);
  }

  /** For "a.txt" the attempts are "a.txt", "a(1).txt", "a(2).txt", …: the counter goes between stem and extension. */
  lemma AttemptNames(stem: string, ext: string)
    ensures CandidateName(stem, ext, 0) == stem + ext
    ensures CandidateName(stem, ext, 1) == stem + "(1)" + ext
    ensures CandidateName(stem, ext, 12) == stem + "(12)" + ext
  {
    assert NatToString(12) == NatToString(1) + [DigitChar(2)];
  }

  /** A second file of the same name goes to `stem(1)ext` when that is free. */
  lemma SecondCopyNumbered(existing: set<string>, dir: string, stem: string, ext: string)
    requires Join(dir, stem + ext) in existing && Join(dir, stem + "(1)" + ext) !in existing
    ensures FirstFreeAt(existing, dir, stem, ext, Join(dir, stem + "(1)" + ext), 1)
  {
    AttemptNames(stem, ext);
  }

  /** `path` is the first attempt for `fileName` that does not exist: every earlier attempt does. */
  ghost predicate IsFirstFree(existing: set<string>, dir: string, fileName: string, path: string)
  {
    var parts := SplitExt(fileName);
    exists k: nat :: FirstFreeAt(existing, dir, parts.0, parts.1, path, k)
  }

  /** `path` is attempt `k`, it does not exist, and every earlier attempt does. */
  predicate FirstFreeAt(existing: set<string>, dir: string, stem: string, ext: string, path: string, k: nat)
  {
    && path !in existing
    && path == Candidate(dir, stem, ext, k)
    && forall j: nat :: j < k ==> Candidate(dir, stem, ext, j) in existing
  }

  /** There is only one first free path. */
  lemma FirstFreeUnique(existing: set<string>, dir: string, fileName: string, p: string, q: string)
    requires IsFirstFree(existing, dir, fileName, p) && IsFirstFree(existing, dir, fileName, q)
    ensures p == q
  {
    var stem, ext := SplitExt(fileName).0, SplitExt(fileName).1;
    var kp: nat :| FirstFreeAt(existing, dir, stem, ext, p, kp);
    var kq: nat :| FirstFreeAt(existing, dir, stem, ext, q, kq);
    assert kp < kq ==> Candidate(dir, stem, ext, kp) in existing;
    assert kq < kp ==> Candidate(dir, stem, ext, kq) in existing;
  }

  /** When the file's own name is free it is kept. */
  lemma FreeNameKept(existing: set<string>, dir: string, fileName: string)
    requires Join(dir, fileName) !in existing
    ensures IsFirstFree(existing, dir, fileName, Join(dir, fileName))
  {
    var stem, ext := SplitExt(fileName).0, SplitExt(fileName).1;
    assert FirstFreeAt(existing, dir, stem, ext, Join(dir, fileName), 0);
  }

  /** The paths of the first `n` attempts. */
  ghost function Tried(dir: string, stem: string, ext: string, n: nat): (tried: set<string>)
  {
    if n == 0 then {} else Tried(dir, stem, ext, n - 1) + {Candidate(dir, stem, ext, n - 1)}
  }

  /** No attempt repeats the path of an earlier one. */
  lemma {:induction false} NotTriedYet(dir: string, stem: string, ext: string, n: nat, k: nat)
    requires '/' !in stem && '/' !in ext && n <= k
    ensures Candidate(dir, stem, ext, k) !in Tried(dir, stem, ext, n)
  {
    if n > 0 {
      NotTriedYet(dir, stem, ext, n - 1, k);
      if Candidate(dir, stem, ext, k) == Candidate(dir, stem, ext, n - 1) {
        CandidateInjective(dir, stem, ext, k, n - 1);
      }
    }
  }

  /** All attempts before `n` were taken when their paths are among the existing ones. */
  lemma {:induction false} TriedExisting(existing: set<string>, dir: string, stem: string, ext: string, n: nat)
    requires Tried(dir, stem, ext, n) <= existing
    ensures forall j: nat :: j < n ==> Candidate(dir, stem, ext, j) in existing
  {
    if n > 0 {
      TriedExisting(existing, dir, stem, ext, n - 1);
    }
  }

  /** Each collision leaves one existing path fewer for the later attempts to run into. */
  lemma CollisionShrinks(existing: set<string>, dir: string, stem: string, ext: string, n: nat)
    requires '/' !in stem && '/' !in ext
    requires Candidate(dir, stem, ext, n) in existing
    ensures |existing - Tried(dir, stem, ext, n + 1)| < |existing - Tried(dir, stem, ext, n)|
  {
    NotTriedYet(dir, stem, ext, n, n);
    assert Candidate(dir, stem, ext, n) in existing - Tried(dir, stem, ext, n);
    ProperSubsetSmaller(existing - Tried(dir, stem, ext, n + 1), existing - Tried(dir, stem, ext, n));
  }

  lemma ProperSubsetSmaller<T>(a: set<T>, b: set<T>)
    requires a < b
    ensures |a| < |b|
  {
    var x :| x in b && x !in a;
    var c := b - a;
    assert x in c;
    assert b == a + c;
    assert a * c == {};
    assert |a + c| + |a * c| == |a| + |c|;
  }

  /**
   * The collision loop of `organize_file`: try `name`, then `stem(1)ext`,
   * `stem(2)ext`, … in `dir` until a path that does not exist. It stops for
   * every finite set of existing paths.
   */
  method FirstFreePath(existing: set<string>, dir: string, fileName: string) returns (path: string)
    requires '/' !in fileName
    ensures path !in existing
    ensures IsFirstFree(existing, dir, fileName, path)
  {
    var parts := SplitExt(fileName);
    var stem, ext := parts.0, parts.1;
    assert '/' !in stem && '/' !in ext by {
      assert stem + ext == fileName;
    }
    var k;
    path, k := FirstFreeAttempt(existing, dir, stem, ext);
  }

  /** The loop itself, over the name already split into `stem` and `ext`; `k` is the attempt that was free. */
  method FirstFreeAttempt(existing: set<string>, dir: string, stem: string, ext: string)
    returns (path: string, k: nat)
    requires '/' !in stem && '/' !in ext
    ensures FirstFreeAt(existing, dir, stem, ext, path, k)
  {
    path := Join(dir, stem + ext);
    var counter: nat := 1;
    while path in existing
      invariant counter >= 1 && path == Candidate(dir, stem, ext, counter - 1)
      invariant Tried(dir, stem, ext, counter - 1) <= existing
      decreases |existing - Tried(dir, stem, ext, counter - 1)|
    {
      CollisionShrinks(existing, dir, stem, ext, counter - 1);
      var newFileName := stem + "(" + NatToString(counter) + ")" + ext;
      path := Join(dir, newFileName);
      counter := counter + 1;
    }
    TriedExisting(existing, dir, stem, ext, counter - 1);
    k := counter - 1;
  }

  /**
   * `organize_file` without the clock and without the real `shutil.move`:
   * `today` is the date text, `moveSucceeds` whether the move would succeed.
   */
  method OrganizeFile(fs: FileSystem, filePath: string, base: string, ruleName: string, today: string,
                      moveSucceeds: bool)
    returns (r: Option<string>)
    modifies fs
    ensures filePath == "" || filePath !in old(fs.paths) ==> r == None && fs.paths == old(fs.paths)
    ensures ParseRule(ruleName) == None ==> r == None && fs.paths == old(fs.paths)
    ensures r.Some? ==> moveSucceeds && r.value in fs.paths && filePath !in fs.paths
    ensures filePath != "" && filePath in old(fs.paths) && ParseRule(ruleName).Some? ==>
      var name := Basename(filePath);
      var rule := ParseRule(ruleName).value;
      var ext := NormalizeExtension(name);
      var made := old(fs.paths) + CreatedDirs(base, rule, ext, today);
      && (r.Some? <==> moveSucceeds)
      && (r.Some? ==> IsFirstFree(made, DestinationDir(base, rule, ext, today), name, r.value))
      && fs.paths == if r.Some? then (made - {filePath}) + {r.value} else made
  {
    if filePath == "" || filePath !in fs.paths {
      return None;
    }
    var fileName := Basename(filePath);
    var fileExtension := NormalizeExtension(fileName);
    var rule := ParseRule(ruleName);
    if rule.None? {
      return None;
    }
    var subFolders := SubFolders(rule.value, fileExtension, today);
    var destinationDir := DestinationDir(base, rule.value, fileExtension, today);
    var firstDir := Join(base, subFolders.0);
    ghost var created := CreatedDirs(base, rule.value, fileExtension, today);
    assert created == BaseDirs(base) + {firstDir, destinationDir};
    r := PlaceFile(fs, filePath, fileName, base, firstDir, destinationDir, created, moveSucceeds);
  }

  /**
   * The part of `organize_file` after the destination is known: create the
   * folders, find the first free name there, and move the file.
   */
  method PlaceFile(fs: FileSystem, filePath: string, fileName: string, base: string, firstDir: string,
                   destinationDir: string, ghost created: set<string>, moveSucceeds: bool)
    returns (r: Option<string>)
    requires filePath in fs.paths && '/' !in fileName
    requires created == BaseDirs(base) + {firstDir, destinationDir}
    modifies fs
    ensures var made := old(fs.paths) + created;
      && (r.Some? <==> moveSucceeds)
      && (r.Some? ==> r.value !in made && r.value in fs.paths && filePath !in fs.paths)
      && (r.Some? ==> IsFirstFree(made, destinationDir, fileName, r.value))
      && fs.paths == if r.Some? then (made - {filePath}) + {r.value} else made
  {
    if base != "" {
      fs.MakeDirs(base);
    }
    fs.MakeDirs(firstDir);
    fs.MakeDirs(destinationDir);
    ghost var made := old(fs.paths) + created;
    assert fs.paths == made;
    var finalPath := FirstFreePath(fs.paths, destinationDir, fileName);
    if moveSucceeds {
      assert filePath in made && filePath != finalPath;
      fs.Move(filePath, finalPath);
      assert filePath !in fs.paths && finalPath in fs.paths;
      r := Some(finalPath);
    } else {
      r := None;
    }
  }
}
