/**
 * The file-name convention of saved pipelines.  A pipeline called `name`,
 * saved under `identifier` in `saving_folder`, is written as the archive
 * `<saving_folder>/<identifier>^_^<name>.zip`; loading lists the folder and
 * recovers every name saved under the same saving path.
 *
 * The file system is a class holding, for every directory, the entries
 * `os.listdir` reports, each one a file, a directory or something else
 * (what `os.path.isfile` and `os.path.isdir` tell apart).  `os.remove`
 * drops one entry.  `os.path.abspath` is the identity here.
 */
module Saving {
  import opened Wrappers
  import opened Text
  import opened PathOps

  /** `SAVING_DELIM`. */
  const SavingDelim: string := "^_^"

  /** What `isfile` / `isdir` report for an entry of a directory. */
  datatype Kind = File | Directory | Other

  /** One name of `os.listdir(folder)` and its kind. */
  datatype Entry = Entry(name: string, kind: Kind)

  /** The names in one directory listing are pairwise distinct. */
  ghost predicate DistinctNames(entries: seq<Entry>) {
    forall i, j :: 0 <= i < j < |entries| ==> entries[i].name != entries[j].name
  }

  /** s starts with prefix: `s.startswith(prefix)`. */
  predicate StartsWith(s: string, prefix: string) {
    |prefix| <= |s| && s[..|prefix|] == prefix
  }

  /** Which entries a removal pass deletes. */
  datatype Rule =
    | Named(name: string)      // `os.remove(os.path.join(folder, name))`
    | Prefixed(prefix: string) // every non-directory whose name starts with prefix
    | Stem(stem: string)       // every non-directory whose name without its extension is stem

  predicate Doomed(rule: Rule, e: Entry) {
    match rule
    case Named(n) => e.name == n
    case Prefixed(p) => e.kind != Directory && StartsWith(e.name, p)
    case Stem(s) => e.kind != Directory && Splitext(e.name).0 == s
  }

  /** The rule as a test on entries. */
  function DoomedBy(rule: Rule): Entry -> bool {
    e => Doomed(rule, e)
  }

  /** The entries a removal pass leaves, in their order. */
  function Survivors(entries: seq<Entry>, doomed: Entry -> bool): (r: seq<Entry>)
    ensures |r| <= |entries|
  {
    if entries == [] then []
    else (if doomed(entries[0]) then [] else [entries[0]]) + Survivors(entries[1..], doomed)
  }

  /** Exactly the entries the test does not doom survive. */
  lemma {:induction false} SurvivorsMembers(entries: seq<Entry>, doomed: Entry -> bool)
    ensures forall e :: e in Survivors(entries, doomed) <==> e in entries && !doomed(e)
  {
    if entries != [] {
      SurvivorsMembers(entries[1..], doomed);
      assert entries == [entries[0]] + entries[1..];
    }
  }

  lemma {:induction false} SurvivorsConcat(a: seq<Entry>, b: seq<Entry>, doomed: Entry -> bool)
    ensures Survivors(a + b, doomed) == Survivors(a, doomed) + Survivors(b, doomed)
  {
    if a != [] {
      SurvivorsConcat(a[1..], b, doomed);
      var head := if doomed(a[0]) then [] else [a[0]];
      assert (a + b)[1..] == a[1..] + b;
      assert Survivors(a + b, doomed) == head + Survivors(a[1..] + b, doomed);
      assert Survivors(a, doomed) == head + Survivors(a[1..], doomed);
      assert head + (Survivors(a[1..], doomed) + Survivors(b, doomed)) == (head + Survivors(a[1..], doomed)) + Survivors(b, doomed);
    } else {
      assert a + b == b;
    }
  }

  lemma {:induction false} SurvivorsOfKept(s: seq<Entry>, doomed: Entry -> bool)
    requires forall e :: e in s ==> !doomed(e)
    ensures Survivors(s, doomed) == s
  {
    if s != [] {
      SurvivorsOfKept(s[1..], doomed);
    }
  }

  /** A pass over a listing of distinct names leaves a listing of distinct names. */
  lemma {:induction false} SurvivorsDistinct(s: seq<Entry>, doomed: Entry -> bool)
    requires DistinctNames(s)
    ensures DistinctNames(Survivors(s, doomed))
  {
    if s != [] {
      SurvivorsDistinct(s[1..], doomed);
      SurvivorsMembers(s[1..], doomed);
      var rest := Survivors(s[1..], doomed);
      forall e | e in rest ensures e.name != s[0].name {
        var j :| 0 <= j < |s[1..]| && s[1..][j] == e;
        assert s[j + 1] == e;
      }
    }
  }

  /**
   * The file system: the listing of every directory.  A class because
   * `_make_saving_path` deletes entries in place.
   */
  class FileSystem {
    var folders: map<string, seq<Entry>>

    ghost predicate Valid()
      reads this
    {
      forall f :: f in folders ==> DistinctNames(folders[f])
    }

    /** A file system whose listings, like those of `os.listdir`, never name an entry twice. */
    constructor (folders: map<string, seq<Entry>>)
      requires forall f :: f in folders ==> DistinctNames(folders[f])
      ensures this.folders == folders
      ensures Valid()
    {
      this.folders := folders;
    }

    /** `os.remove(os.path.join(folder, name))` on an entry of folder. */
    method Remove(folder: string, name: string)
      requires folder in folders
      modifies this
      ensures folders == old(folders)[folder := Survivors(old(folders)[folder], DoomedBy(Named(name)))]
    {
      folders := folders[folder := Survivors(folders[folder], DoomedBy(Named(name)))];
    }
  }

  /** Entry i of a listing of distinct names is the only entry of the listing with its name. */
  lemma OnlyOneNamed(listing: seq<Entry>, i: nat, e: Entry)
    requires DistinctNames(listing) && i < |listing|
    requires e in listing[..i] || e in listing[i + 1..]
    ensures e.name != listing[i].name
  {
    if e in listing[..i] {
      var j :| 0 <= j < i && listing[..i][j] == e;
      assert listing[j] == e;
    } else {
      var j :| 0 <= j < |listing[i + 1..]| && listing[i + 1..][j] == e;
      assert listing[i + 1 + j] == e;
    }
  }

  /** Filtering entry i when the first i entries are filtered already: the filtered front and the rest are unchanged by the pass of the next step. */
  lemma RemoveStepKept(listing: seq<Entry>, i: nat, doomed: Entry -> bool)
    requires i < |listing| && !doomed(listing[i])
    ensures Survivors(listing[..i], doomed) + listing[i..] == Survivors(listing[..i + 1], doomed) + listing[i + 1..]
  {
    var x := listing[i];
    assert listing[..i + 1] == listing[..i] + [x];
    SurvivorsConcat(listing[..i], [x], doomed);
    assert listing[i..] == [x] + listing[i + 1..];
  }

  /** Deleting the doomed entry i by name, when the first i entries are filtered already, filters the first i + 1. */
  lemma RemoveStepDoomed(listing: seq<Entry>, i: nat, doomed: Entry -> bool, named: Entry -> bool)
    requires DistinctNames(listing) && i < |listing| && doomed(listing[i])
    requires forall e :: named(e) <==> e.name == listing[i].name
    ensures Survivors(Survivors(listing[..i], doomed) + listing[i..], named)
        == Survivors(listing[..i + 1], doomed) + listing[i + 1..]
  {
    var x := listing[i];
    var front, back := Survivors(listing[..i], doomed), listing[i + 1..];
    assert listing[..i + 1] == listing[..i] + [x];
    SurvivorsConcat(listing[..i], [x], doomed);
    assert listing[i..] == [x] + back;
    SurvivorsMembers(listing[..i], doomed);
    forall e | e in front ensures !named(e) {
      OnlyOneNamed(listing, i, e);
    }
    forall e | e in back ensures !named(e) {
      OnlyOneNamed(listing, i, e);
    }
    SurvivorsConcat(front, [x] + back, named);
    SurvivorsConcat([x], back, named);
    SurvivorsOfKept(front, named);
    SurvivorsOfKept(back, named);
    assert Survivors([x], named) == [];
    assert Survivors([x] + back, named) == back;
    assert Survivors([x], doomed) == [];
    assert Survivors(listing[..i + 1], doomed) == front;
  }

  /** Replacing one listing by a listing of distinct names keeps every listing distinct. */
  lemma UpdateValid(folders: map<string, seq<Entry>>, folder: string, listing: seq<Entry>)
    requires forall f :: f in folders ==> DistinctNames(folders[f])
    requires DistinctNames(listing)
    ensures var m := folders[folder := listing]; forall f :: f in m ==> DistinctNames(m[f])
  {
  }

  /**
   * The removal loop of `_make_saving_path` over `os.listdir(folder)`:
   * every entry the rule dooms is removed, one `os.remove` at a time, and
   * every other entry of every directory stays.
   */
  method RemoveWhere(fs: FileSystem, folder: string, rule: Rule)
    requires fs.Valid() && folder in fs.folders
    modifies fs
    ensures fs.Valid()
    ensures fs.folders == old(fs.folders)[folder := Survivors(old(fs.folders)[folder], DoomedBy(rule))]
  {
    var listing := fs.folders[folder];
    var doomed := DoomedBy(rule);
    assert listing[..0] + listing[0..] == listing;
    assert old(fs.folders)[folder := listing] == old(fs.folders);
    for i := 0 to |listing|
      invariant fs.folders == old(fs.folders)[folder := Survivors(listing[..i], doomed) + listing[i..]]
    {
      if doomed(listing[i]) {
        var named := DoomedBy(Named(listing[i].name));
        RemoveStepDoomed(listing, i, doomed, named);
        fs.Remove(folder, listing[i].name);
      } else {
        RemoveStepKept(listing, i, doomed);
      }
    }
    assert listing[..|listing|] == listing;
    assert listing[|listing|..] == [];
    assert Survivors(listing, doomed) + [] == Survivors(listing, doomed);
    SurvivorsDistinct(listing, doomed);
    UpdateValid(old(fs.folders), folder, Survivors(listing, doomed));
  }

  /** `_to_saving_path`: the identifier itself without a folder, else the folder joined with it. */
  function ToSavingPath(identifier: string, savingFolder: Option<string>): (r: string)
    ensures savingFolder.None? ==> r == identifier
    ensures savingFolder.Some? ==> Basename(r) == Basename(identifier)
    ensures savingFolder.Some? && NoSep(identifier) ==> Basename(r) == identifier
    ensures savingFolder.Some? && IsDirName(savingFolder.value) && NoSep(identifier) ==> Dirname(r) == savingFolder.value
  {
    match savingFolder
    case None => identifier
    case Some(folder) =>
      SplitOfJoin(folder, identifier);
      BasenameOfAnyJoin(folder, identifier);
      Join(folder, identifier)
  }

  /**
   * `_make_saving_path(name, saving_path, remove_existing)` as written: the
   * result is the saving path, the delimiter and the name; when removal is
   * asked for and the saving folder is a directory, every non-directory
   * entry whose name starts with `identifier^_^name` is deleted.
   */
  method MakeSavingPath(fs: FileSystem, name: string, savingPath: string, removeExisting: bool) returns (r: string)
    requires fs.Valid()
    modifies fs
    ensures r == savingPath + SavingDelim + name
    ensures fs.Valid()
    ensures var folder := Dirname(savingPath);
      fs.folders == if removeExisting && folder in old(fs.folders)
        then old(fs.folders)[folder := Survivors(old(fs.folders)[folder], DoomedBy(Prefixed(Basename(savingPath) + SavingDelim + name)))]
        else old(fs.folders)
  {
    var folder, identifier := Dirname(savingPath), Basename(savingPath);
    if folder in fs.folders && removeExisting {
      RemoveWhere(fs, folder, Prefixed(identifier + SavingDelim + name));
    }
    r := savingPath + SavingDelim + name;
  }

  /**
   * `_make_saving_path` with the removal it evidently intends: only the
   * non-directory entries whose name without extension is exactly
   * `identifier^_^name`, the archives of this very name.
   */
  method MakeSavingPathByStem(fs: FileSystem, name: string, savingPath: string, removeExisting: bool) returns (r: string)
    requires fs.Valid()
    modifies fs
    ensures r == savingPath + SavingDelim + name
    ensures fs.Valid()
    ensures var folder := Dirname(savingPath);
      fs.folders == if removeExisting && folder in old(fs.folders)
        then old(fs.folders)[folder := Survivors(old(fs.folders)[folder], DoomedBy(Stem(Basename(savingPath) + SavingDelim + name)))]
        else old(fs.folders)
  {
    var folder, identifier := Dirname(savingPath), Basename(savingPath);
    if folder in fs.folders && removeExisting {
      RemoveWhere(fs, folder, Stem(identifier + SavingDelim + name));
    }
    r := savingPath + SavingDelim + name;
  }

  /**
   * The key under which `_fetch_saving_paths` lists an entry of base, or
   * None when it skips it: a file, extension ".zip", the delimiter in the
   * stem, and the text before the last piece of the split, joined to base,
   * equal to the saving path; the key is the last piece.
   */
  function Candidate(e: Entry, base: string, savingPath: string): (r: Option<string>)
    ensures r.Some? ==> e.kind == File && Splitext(e.name).1 == ".zip"
  {
    if e.kind != File then None
    else
      var (stem, ext) := Splitext(e.name);
      if ext != ".zip" then None else StemKey(stem, base, savingPath)
  }

  /** The key a ".zip" stem gives: its last piece, when it holds the delimiter and the rest joined to base is the saving path. */
  function StemKey(stem: string, base: string, savingPath: string): Option<string> {
    if !Contains(stem, SavingDelim) || Join(base, StemFront(stem)) != savingPath then None
    else Some(StemLast(stem))
  }

  /** All pieces of the split but the last, joined back with the delimiter. */
  function StemFront(stem: string): string
    requires Contains(stem, SavingDelim)
  {
    var pieces := SplitOn(stem, SavingDelim);
    JoinWith(SavingDelim, pieces[..|pieces| - 1])
  }

  /** The last piece of the split. */
  function StemLast(stem: string): string {
    var pieces := SplitOn(stem, SavingDelim);
    pieces[|pieces| - 1]
  }

  /** A text holding the delimiter is its front, the delimiter and its last piece, which holds no delimiter. */
  lemma LastPiece(s: string)
    requires Contains(s, SavingDelim)
    ensures s == StemFront(s) + SavingDelim + StemLast(s)
    ensures !Contains(StemLast(s), SavingDelim)
  {
    SplitLast(s, SavingDelim);
  }

  /**
   * The stem of an entry with a key is some text that joins base to the
   * saving path, the delimiter, and the key, which holds no delimiter.
   */
  lemma CandidateStem(e: Entry, base: string, savingPath: string)
    requires Candidate(e, base, savingPath).Some?
    ensures var key := Candidate(e, base, savingPath).value;
      && !Contains(key, SavingDelim)
      && exists front :: Join(base, front) == savingPath && Splitext(e.name).0 == front + SavingDelim + key
  {
    StemKeyPieces(Splitext(e.name).0, base, savingPath);
  }

  /** A stem with a key is some text that joins base to the saving path, the delimiter, and the key. */
  lemma StemKeyPieces(stem: string, base: string, savingPath: string)
    requires StemKey(stem, base, savingPath).Some?
    ensures var key := StemKey(stem, base, savingPath).value;
      && !Contains(key, SavingDelim)
      && exists front :: Join(base, front) == savingPath && stem == front + SavingDelim + key
  {
    LastPiece(stem);
    var front := StemFront(stem);
    assert Join(base, front) == savingPath && stem == front + SavingDelim + StemLast(stem);
  }

  /** The candidate test for one saving path, as a function on entries. */
  function CandidateOf(base: string, savingPath: string): Entry -> Option<string> {
    e => Candidate(e, base, savingPath)
  }

  /** The map the fetch loop builds over entries: every key mapped to `savingPath^_^key`. */
  function Fetched(entries: seq<Entry>, keyOf: Entry -> Option<string>, savingPath: string): (r: map<string, string>)
    ensures forall key :: key in r ==> r[key] == savingPath + SavingDelim + key
  {
    if entries == [] then map[]
    else
      var prev := Fetched(entries[..|entries| - 1], keyOf, savingPath);
      match keyOf(entries[|entries| - 1])
      case None => prev
      case Some(key) => prev[key := savingPath + SavingDelim + key]
  }

  /** One more entry adds its key, if it has one. */
  lemma FetchedStep(entries: seq<Entry>, i: nat, keyOf: Entry -> Option<string>, savingPath: string)
    requires i < |entries|
    ensures var prev := Fetched(entries[..i], keyOf, savingPath);
      Fetched(entries[..i + 1], keyOf, savingPath) == match keyOf(entries[i])
        case None => prev
        case Some(key) => prev[key := savingPath + SavingDelim + key]
  {
    assert entries[..i + 1][..i] == entries[..i];
  }

  /** The fetched keys are exactly the keys of the entries. */
  lemma {:induction false} FetchedKeys(entries: seq<Entry>, keyOf: Entry -> Option<string>, savingPath: string)
    ensures forall key :: key in Fetched(entries, keyOf, savingPath) <==>
      exists j :: 0 <= j < |entries| && keyOf(entries[j]) == Some(key)
  {
    if entries != [] {
      var front := entries[..|entries| - 1];
      FetchedKeys(front, keyOf, savingPath);
      forall key ensures (exists j :: 0 <= j < |entries| && keyOf(entries[j]) == Some(key)) <==>
        (exists j :: 0 <= j < |front| && keyOf(front[j]) == Some(key)) || keyOf(entries[|entries| - 1]) == Some(key)
      {
        if j :| 0 <= j < |entries| && keyOf(entries[j]) == Some(key) {
          if j < |front| {
            assert front[j] == entries[j];
          }
        }
        if j :| 0 <= j < |front| && keyOf(front[j]) == Some(key) {
          assert entries[j] == front[j];
        }
      }
    }
  }

  /** paths holds exactly the keys of the listing's candidates, each mapped to its saving path. */
  ghost predicate IsFetched(paths: map<string, string>, entries: seq<Entry>, base: string, savingPath: string) {
    && (forall key :: key in paths <==> exists j :: 0 <= j < |entries| && Candidate(entries[j], base, savingPath) == Some(key))
    && (forall key :: key in paths ==> paths[key] == savingPath + SavingDelim + key)
  }

  /** The map of the fetch loop is the fetched map the saving scheme promises. */
  lemma FetchedIsFetched(entries: seq<Entry>, base: string, savingPath: string)
    ensures IsFetched(Fetched(entries, CandidateOf(base, savingPath), savingPath), entries, base, savingPath)
  {
    FetchedKeys(entries, CandidateOf(base, savingPath), savingPath);
  }

  /** Why `_fetch_saving_paths` raises: `os.listdir` of a path that is no directory. */
  datatype FetchError = NotADirectory(path: string)

  /**
   * `_fetch_saving_paths(identifier, saving_folder)`: lists the directory of
   * the saving path and maps every name saved under that saving path to
   * `_make_saving_path(name, saving_path, False)`.
   */
  method FetchSavingPaths(fs: FileSystem, identifier: string, savingFolder: Option<string>)
    returns (r: Result<map<string, string>, FetchError>)
    ensures var savingPath := ToSavingPath(identifier, savingFolder);
      && (r.Err? <==> Dirname(savingPath) !in fs.folders)
      && (r.Err? ==> r.error == NotADirectory(Dirname(savingPath)))
      && (r.Ok? ==> IsFetched(r.value, fs.folders[Dirname(savingPath)], Dirname(savingPath), savingPath))
  {
    var savingPath := ToSavingPath(identifier, savingFolder);
    var base := Dirname(savingPath);
    if base !in fs.folders {
      return Err(NotADirectory(base));
    }
    var paths := FetchFrom(fs.folders[base], base, savingPath);
    r := Ok(paths);
  }

  /** The loop of `_fetch_saving_paths` over the listing of base. */
  method FetchFrom(listing: seq<Entry>, base: string, savingPath: string) returns (paths: map<string, string>)
    ensures IsFetched(paths, listing, base, savingPath)
  {
    ghost var keyOf := CandidateOf(base, savingPath);
    paths := map[];
    for i := 0 to |listing|
      invariant paths == Fetched(listing[..i], keyOf, savingPath)
    {
      var key := Candidate(listing[i], base, savingPath);
      FetchedStep(listing, i, keyOf, savingPath);
      assert keyOf(listing[i]) == key;
      match key
      case None =>
      case Some(name) =>
        paths := paths[name := savingPath + SavingDelim + name];
    }
    assert listing[..|listing|] == listing;
    FetchedIsFetched(listing, base, savingPath);
  }

  /**
   * The separator written after an identifier is matched where it stands
   * exactly when the identifier does not end in "^_".
   */
  lemma NoStraddleDelim(t: string)
    ensures NoStraddle(t, SavingDelim) <==> !(|t| >= 2 && t[|t| - 2..] == "^_")
  {
    var s := t + SavingDelim;
    forall j | |t| - 3 < j < |t| && 0 <= j
      ensures OccursAt(s, SavingDelim, j) <==> j == |t| - 2 && t[|t| - 2..] == "^_"
    {
      assert s[j .. j + 3] == [s[j], s[j + 1], s[j + 2]];
      if j == |t| - 1 {
        assert s[j + 1] == '^';
      } else {
        assert s[j] == t[j] && s[j + 1] == t[j + 1] && s[j + 2] == '^';
        assert t[|t| - 2..] == [t[j], t[j + 1]];
      }
    }
    if |t| >= 2 && t[|t| - 2..] == "^_" {
      assert OccursAt(s, SavingDelim, |t| - 2);
    }
  }

  /** The archive `<saving path>^_^<name>.zip` that saving name under the saving path writes. */
  function Archive(savingPath: string, name: string): string {
    savingPath + SavingDelim + name + ".zip"
  }

  /** The archive lies in the folder of the saving path, as the identifier, the delimiter, the name and ".zip". */
  lemma ArchiveLocation(savingPath: string, name: string)
    requires NoSep(name)
    ensures Dirname(Archive(savingPath, name)) == Dirname(savingPath)
    ensures Basename(Archive(savingPath, name)) == Basename(savingPath) + SavingDelim + name + ".zip"
  {
    var tail := SavingDelim + name + ".zip";
    assert Archive(savingPath, name) == savingPath + tail;
    NoSepConcat(SavingDelim, name);
    NoSepConcat(SavingDelim + name, ".zip");
    AppendComponentText(savingPath, tail);
  }

  /** The stem `identifier^_^name` splits into the pieces of the identifier and the name. */
  lemma StemPieces(t: string, name: string)
    requires NoStraddle(t, SavingDelim) && !Contains(name, SavingDelim)
    ensures Contains(t + SavingDelim + name, SavingDelim)
    ensures StemLast(t + SavingDelim + name) == name && StemFront(t + SavingDelim + name) == t
  {
    var stem := t + SavingDelim + name;
    SplitAppend(t, SavingDelim, name);
    var pieces := SplitOn(stem, SavingDelim);
    assert pieces[..|pieces| - 1] == SplitOn(t, SavingDelim);
    JoinSplit(t, SavingDelim);
  }

  /**
   * An archive named `identifier^_^name.zip` in the folder of a normal
   * saving path is fetched under name, when the name holds no delimiter and
   * no '/' and no match of the delimiter straddles the end of the identifier.
   */
  lemma ArchiveKey(savingPath: string, name: string)
    requires IsNormal(savingPath)
    requires NoSep(name) && !Contains(name, SavingDelim)
    requires NoStraddle(Basename(savingPath), SavingDelim)
    ensures Candidate(Entry(Basename(savingPath) + SavingDelim + name + ".zip", File), Dirname(savingPath), savingPath) == Some(name)
  {
    var t := Basename(savingPath);
    var stem := t + SavingDelim + name;
    assert NoSep(stem) by {
      forall j | 0 <= j < |stem| ensures stem[j] != '/' {
        if j < |t| { assert stem[j] == t[j]; }
        else if j >= |t| + 3 { assert stem[j] == name[j - |t| - 3]; }
      }
    }
    assert HasNonDot(stem, 0, |stem|) by { assert stem[|t|] == '^'; }
    SplitextOf(stem, ".zip");
    ArchiveStemKey(savingPath, name);
  }

  /** The stem `identifier^_^name` of a normal saving path gives the key name. */
  lemma ArchiveStemKey(savingPath: string, name: string)
    requires IsNormal(savingPath)
    requires !Contains(name, SavingDelim)
    requires NoStraddle(Basename(savingPath), SavingDelim)
    ensures StemKey(Basename(savingPath) + SavingDelim + name, Dirname(savingPath), savingPath) == Some(name)
  {
    JoinDirBase(savingPath);
    StemPieces(Basename(savingPath), name);
  }

  /**
   * Round trip: the archive that saving `name` writes under a normal saving
   * path lies in the folder of the saving path, and fetching from that
   * folder lists it under `name` -- provided the name holds no delimiter
   * and no '/', and the identifier does not end in "^_".
   */
  lemma SavedIsFetched(savingPath: string, name: string)
    requires IsNormal(savingPath)
    requires NoSep(name) && !Contains(name, SavingDelim)
    requires var t := Basename(savingPath); !(|t| >= 2 && t[|t| - 2..] == "^_")
    ensures var archive := Archive(savingPath, name);
      && Dirname(archive) == Dirname(savingPath)
      && Candidate(Entry(Basename(archive), File), Dirname(savingPath), savingPath) == Some(name)
  {
    NoStraddleDelim(Basename(savingPath));
    ArchiveLocation(savingPath, name);
    ArchiveKey(savingPath, name);
  }

  /**
   * A stem `front^_^key`, where front joined to the folder of a normal path
   * gives back that path, has the path's identifier as front.
   */
  lemma FrontIsIdentifier(entryName: string, stem: string, front: string, key: string, savingPath: string)
    requires IsNormal(savingPath) && NoSep(entryName)
    requires entryName == stem + ".zip" && stem == front + SavingDelim + key
    requires Join(Dirname(savingPath), front) == savingPath
    ensures front == Basename(savingPath)
    ensures entryName == Basename(savingPath) + SavingDelim + key + ".zip"
  {
    assert NoSep(front) by {
      forall j | 0 <= j < |front| ensures front[j] != '/' {
        assert front[j] == stem[j] == entryName[j];
      }
    }
    BasenameOfJoin(Dirname(savingPath), front);
  }

  /**
   * Conversely, an entry of the folder of a normal saving path that is
   * fetched under key is the archive that saving key writes there.
   */
  lemma FetchedIsSaved(e: Entry, savingPath: string)
    requires IsNormal(savingPath) && NoSep(e.name)
    requires Candidate(e, Dirname(savingPath), savingPath).Some?
    ensures var key := Candidate(e, Dirname(savingPath), savingPath).value;
      e.kind == File && e.name == Basename(savingPath) + SavingDelim + key + ".zip"
  {
    var base, key := Dirname(savingPath), Candidate(e, Dirname(savingPath), savingPath).value;
    CandidateStem(e, base, savingPath);
    var front :| Join(base, front) == savingPath && Splitext(e.name).0 == front + SavingDelim + key;
    FrontIsIdentifier(e.name, Splitext(e.name).0, front, key, savingPath);
  }

  /** Texts with a common prefix start one with the other as their rests do. */
  lemma StartsWithCommon(p: string, a: string, b: string)
    ensures StartsWith(p + a, p + b) <==> StartsWith(a, b)
  {
    if |b| <= |a| {
      assert (p + a)[..|p + b|] == p + a[..|b|];
      if (p + a)[..|p + b|] == p + b {
        assert a[..|b|] == (p + a[..|b|])[|p|..];
      }
    }
  }

  /**
   * The removal of `_make_saving_path` as written: an archive fetched under
   * key is deleted before saving name exactly when `key + ".zip"` starts
   * with name -- not only when key is name.
   */
  lemma PrefixRemovalDooms(e: Entry, savingPath: string, name: string)
    requires IsNormal(savingPath) && NoSep(e.name)
    requires Candidate(e, Dirname(savingPath), savingPath).Some?
    ensures var key := Candidate(e, Dirname(savingPath), savingPath).value;
      Doomed(Prefixed(Basename(savingPath) + SavingDelim + name), e) <==> StartsWith(key + ".zip", name)
  {
    var t, key := Basename(savingPath), Candidate(e, Dirname(savingPath), savingPath).value;
    FetchedIsSaved(e, savingPath);
    PrefixOfArchive(t, key, name);
  }

  lemma PrefixOfArchive(t: string, key: string, name: string)
    ensures StartsWith(t + SavingDelim + key + ".zip", t + SavingDelim + name) <==> StartsWith(key + ".zip", name)
  {
    assert t + SavingDelim + key + ".zip" == (t + SavingDelim) + (key + ".zip");
    StartsWithCommon(t + SavingDelim, key + ".zip", name);
  }

  /**
   * The input that shows it: saving "fcnn" under a saving path deletes the
   * archive that saving "fcnn2" wrote there, which fetching lists under
   * "fcnn2".  Any name extended by a non-empty text does the same.
   */
  lemma AsWrittenRemovesOtherModel(savingPath: string, name: string, more: string)
    requires IsNormal(savingPath)
    requires var t := Basename(savingPath); !(|t| >= 2 && t[|t| - 2..] == "^_")
    requires NoSep(name + more) && !Contains(name + more, SavingDelim) && more != []
    ensures var other := Entry(Basename(Archive(savingPath, name + more)), File);
      && Dirname(Archive(savingPath, name + more)) == Dirname(savingPath)
      && Candidate(other, Dirname(savingPath), savingPath) == Some(name + more)
      && name + more != name
      && Doomed(Prefixed(Basename(savingPath) + SavingDelim + name), other)
  {
    var t, key := Basename(savingPath), name + more;
    SavedIsFetched(savingPath, key);
    ArchiveLocation(savingPath, key);
    assert key != name by { assert |key| > |name|; }
    ArchiveDoomedByPrefix(t, key, name);
  }

  /** `t^_^key.zip` is removed by the prefix `t^_^name` when key + ".zip" starts with name. */
  lemma ArchiveDoomedByPrefix(t: string, key: string, name: string)
    requires |name| <= |key| && key[..|name|] == name
    ensures Doomed(Prefixed(t + SavingDelim + name), Entry(t + SavingDelim + key + ".zip", File))
  {
    PrefixOfArchive(t, key, name);
    assert (key + ".zip")[..|name|] == name;
  }

  /** The stem of `t^_^key.zip` is `t^_^name` exactly when key is name. */
  lemma StemOfArchive(stem: string, t: string, key: string, name: string)
    requires stem + ".zip" == t + SavingDelim + key + ".zip"
    ensures stem == t + SavingDelim + name <==> key == name
  {
    assert stem == t + SavingDelim + key by {
      assert stem == (stem + ".zip")[..|stem|];
    }
    if stem == t + SavingDelim + name {
      assert key == stem[|t| + 3..] == name;
    }
  }

  /**
   * The removal evidently intended, by stem: an archive fetched under key is
   * deleted before saving name exactly when key is name.
   */
  lemma SupersededIffSameKey(e: Entry, savingPath: string, name: string)
    requires IsNormal(savingPath) && NoSep(e.name)
    requires Candidate(e, Dirname(savingPath), savingPath).Some?
    ensures var key := Candidate(e, Dirname(savingPath), savingPath).value;
      Doomed(Stem(Basename(savingPath) + SavingDelim + name), e) <==> key == name
  {
    var key := Candidate(e, Dirname(savingPath), savingPath).value;
    FetchedIsSaved(e, savingPath);
    var (stem, ext) := Splitext(e.name);
    StemOfArchive(stem, Basename(savingPath), key, name);
  }
}
