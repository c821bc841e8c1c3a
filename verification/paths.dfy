/** Path and name handling of the public operations: slash stripping of
    remote paths, the folder normalisation and target name of `Upload`, the
    `specific_file` filter of `Download`, and the split of a folder listing
    into files and folders in `FetchAllFiles`. */
module Paths {
  import opened Common
  import opened Text

  const Slash: char := '/'
  const Backslash: char := '\\'

  // ---------------------------------------------------------------------------
  // Remote paths

  /** `path.lstrip("/").rstrip("/")`. */
  function StripSlashes(path: string): (r: string)
    ensures |r| == 0 || (r[0] != Slash && r[|r| - 1] != Slash)
  {
    RStrip(LStrip(path, Slash), Slash)
  }

  /** All characters are slashes. */
  ghost predicate AllSlashes(s: string)
  {
    forall i :: 0 <= i < |s| ==> s[i] == Slash
  }

  /** Stripping removes slashes from the two ends only: the result sits at
      some offset `k` of the path, and everything before and after it is
      slashes. */
  lemma StripSlashesRemovesOnlyEnds(path: string)
    ensures var r := StripSlashes(path);
      exists k :: 0 <= k <= |path| - |r| && path[k..k + |r|] == r
        && AllSlashes(path[..k]) && AllSlashes(path[k + |r|..])
  {
    var l := LStrip(path, Slash);
    var r := RStrip(l, Slash);
    var k := |path| - |l|;
    assert l == path[k..];
    assert r == l[..|r|];
    assert path[k..k + |r|] == r;
    StrippedFrontIsSlashes(path);
    StrippedBackIsSlashes(path, k, l);
  }

  /** What `lstrip("/")` removes is slashes. */
  lemma StrippedFrontIsSlashes(path: string)
    ensures AllSlashes(path[..|path| - |LStrip(path, Slash)|])
  {
    var k := |path| - |LStrip(path, Slash)|;
    forall i | 0 <= i < k ensures path[..k][i] == Slash {
      assert path[..k][i] == path[i];
    }
  }

  /** What `rstrip("/")` then removes is slashes. */
  lemma StrippedBackIsSlashes(path: string, k: nat, l: string)
    requires k <= |path| && l == path[k..]
    ensures AllSlashes(path[k + |RStrip(l, Slash)|..])
  {
    var r := RStrip(l, Slash);
    var tail := path[k + |r|..];
    forall i | 0 <= i < |tail| ensures tail[i] == Slash {
      assert tail[i] == l[|r| + i];
    }
  }


  /** Stripping twice is stripping once. */
  lemma StripSlashesIdempotent(path: string)
    ensures StripSlashes(StripSlashes(path)) == StripSlashes(path)
  {
    StripSlashesKeepsClean(StripSlashes(path));
  }

  /** A path without slashes at either end is left as it is. */
  lemma StripSlashesKeepsClean(path: string)
    requires |path| == 0 || (path[0] != Slash && path[|path| - 1] != Slash)
    ensures StripSlashes(path) == path
  {
  }

  /** Upload's normalisation of the target folder: prepend "/" unless the
      path starts with one, then append "/" unless it ends with one. An empty
      path fails on `path_onedrive[0]`. */
  function UploadFolder(path: string): (r: Result<string>)
    ensures path == "" <==> r.Err?
    ensures r.Err? ==> r.fault == PathEmpty
    ensures r.Ok? ==> |r.value| > 0 && r.value[0] == Slash && r.value[|r.value| - 1] == Slash
  {
    if |path| == 0 then Err(PathEmpty)
    else
      var lead := if path[0] != Slash then [Slash] + path else path;
      var both := if lead[|lead| - 1] != Slash then lead + [Slash] else lead;
      Ok(both)
  }

  /** The normalised folder is the path with at most one slash added at each
      end, and exactly the path when it already starts and ends with one. */
  lemma UploadFolderAddsAtMostOneSlashEachEnd(path: string)
    requires path != ""
    ensures exists a, b ::
      && (a == "" || a == [Slash]) && (b == "" || b == [Slash])
      && UploadFolder(path).value == a + path + b
    ensures UploadFolder(path).value == path <==> path[0] == Slash && path[|path| - 1] == Slash
  {
    var a: string := if path[0] != Slash then [Slash] else "";
    var lead := a + path;
    var b: string := if lead[|lead| - 1] != Slash then [Slash] else "";
    assert UploadFolder(path).value == a + path + b;
  }

  /** Normalising a normalised folder changes nothing. */
  lemma UploadFolderIdempotent(path: string)
    requires path != ""
    ensures UploadFolder(UploadFolder(path).value) == UploadFolder(path)
  {
  }

  // ---------------------------------------------------------------------------
  // Upload target name

  /** The name a local file is uploaded under:
      `filename.replace("\\", "/").split("/")[-1]`. */
  function UploadName(filename: string): (r: string)
    ensures Slash !in r
  {
    LastPart(Replace(filename, Backslash, Slash), Slash)
  }

  /** The target name is the last component of the path after backslashes
      became slashes: it holds no separator of either kind, and the rest of
      the path is empty or ends with a separator. */
  lemma UploadNameIsLastComponent(filename: string)
    ensures Slash !in UploadName(filename)
    ensures Backslash !in UploadName(filename)
    ensures exists dir ::
      && Replace(filename, Backslash, Slash) == dir + UploadName(filename)
      && (dir == [] || dir[|dir| - 1] == Slash)
  {
    var s := Replace(filename, Backslash, Slash);
    LastPartIsSuffix(s, Slash);
    var dir :| s == dir + LastPart(s, Slash) && (dir == [] || dir[|dir| - 1] == Slash);
    var name := UploadName(filename);
    assert forall k :: 0 <= k < |name| ==> name[k] == s[|dir| + k];
  }

  /** A file name without separators is uploaded under its own name. */
  lemma UploadNamePlain(filename: string)
    requires Slash !in filename && Backslash !in filename
    ensures UploadName(filename) == filename
  {
    var s := Replace(filename, Backslash, Slash);
    assert s == filename;
    SplitNoSeparator(filename, Slash);
  }

  /** The path part of the PUT URL for one file:
      `path_onedrive + filename.split("/")[-1]` after the folder was
      normalised; an empty folder fails as in `UploadFolder`. */
  function UploadTarget(path: string, filename: string): (r: Result<string>)
    ensures r.Err? <==> path == ""
  {
    var folder :- UploadFolder(path);
    Ok(folder + UploadName(filename))
  }

  /** The target starts with a slash, consists of the normalised folder
      followed by the upload name, and its last component, split on "/",
      is that name again: the remote file is named after the local file's
      last path component. */
  lemma UploadTargetShape(path: string, filename: string)
    requires path != ""
    ensures var t := UploadTarget(path, filename).value;
      var folder := UploadFolder(path).value;
      && |t| > 0 && t[0] == Slash
      && t[..|folder|] == folder
      && LastPart(t, Slash) == UploadName(filename)
  {
    var folder := UploadFolder(path).value;
    var name := UploadName(filename);
    UploadNameIsLastComponent(filename);
    var init := folder[..|folder| - 1];
    assert folder == init + [Slash];
    assert folder + name == init + [Slash] + name;
    LastPartAfterSeparator(init, Slash, name);
  }

  // ---------------------------------------------------------------------------
  // Download filter

  /** The condition under which Download starts a worker for `name`:
      `(specific_file != "" and specific_file == filename) or specific_file == ""`. */
  predicate Selected(specific: string, name: string)
    ensures Selected(specific, name) <==> specific in {"", name}
  {
    (specific != "" && specific == name) || specific == ""
  }

  /** The filter selects every file when no specific file is given, and
      otherwise exactly the file of that name. */
  lemma SelectedMeaning(specific: string, name: string)
    ensures Selected(specific, name) <==> specific == "" || specific == name
    ensures specific != "" ==> (Selected(specific, name) <==> name == specific)
  {
  }

  // ---------------------------------------------------------------------------
  // Folder listing

  /** One child of a folder listing: its name, its id, and whether it has a
      "folder" key. */
  datatype Child = Child(name: string, id: string, isFolder: bool)

  /** A Python dict from names to ids, in insertion order. */
  type NameMap = seq<(string, string)>

  function Keys(d: NameMap): (ks: seq<string>)
    ensures |ks| == |d|
    ensures forall i :: 0 <= i < |d| ==> ks[i] == d[i].0
  {
    if |d| == 0 then [] else [d[0].0] + Keys(d[1..])
  }

  /** No key occurs twice. */
  ghost predicate UniqueKeys(d: NameMap)
  {
    forall i, j :: 0 <= i < j < |d| ==> d[i].0 != d[j].0
  }

  /** `d.get(k)`. */
  function Lookup(d: NameMap, k: string): Option<string>
  {
    if |d| == 0 then None else if d[0].0 == k then Some(d[0].1) else Lookup(d[1..], k)
  }

  /** `d[k] = v`: an existing key keeps its position and takes the new value;
      a new key goes to the end. */
  function Put(d: NameMap, k: string, v: string): (r: NameMap)
    ensures Lookup(r, k) == Some(v)
    ensures forall k' :: k' != k ==> Lookup(r, k') == Lookup(d, k')
    ensures k in Keys(d) ==> Keys(r) == Keys(d)
    ensures k !in Keys(d) ==> Keys(r) == Keys(d) + [k]
    ensures UniqueKeys(d) ==> UniqueKeys(r)
  {
    if |d| == 0 then [(k, v)]
    else if d[0].0 == k then [(k, v)] + d[1..]
    else
      var rest := Put(d[1..], k, v);
      assert Keys(d) == [d[0].0] + Keys(d[1..]);
      [d[0]] + rest
  }

  /** The loop of `FetchAllFiles` over `response["value"]`: folders into one
      dict, everything else into the other. The result is (files, folders). */
  function SplitListing(children: seq<Child>): (r: (NameMap, NameMap))
    ensures UniqueKeys(r.0) && UniqueKeys(r.1)
  {
    if |children| == 0 then ([], [])
    else
      var c := children[|children| - 1];
      var (files, folders) := SplitListing(children[..|children| - 1]);
      if c.isFolder then (files, Put(folders, c.name, c.id))
      else (Put(files, c.name, c.id), folders)
  }

  /** The id of the last child named `name` whose kind is `folder`: a
      description of the result that does not build dicts. */
  function LastId(children: seq<Child>, name: string, folder: bool): Option<string>
  {
    if |children| == 0 then None
    else
      var c := children[|children| - 1];
      if c.name == name && c.isFolder == folder then Some(c.id)
      else LastId(children[..|children| - 1], name, folder)
  }

  /** Every name maps to the id of the last listed child of that name and
      kind; a name with no such child is absent. */
  lemma {:induction false} SplitListingLastWins(children: seq<Child>, name: string)
    ensures Lookup(SplitListing(children).0, name) == LastId(children, name, false)
    ensures Lookup(SplitListing(children).1, name) == LastId(children, name, true)
    decreases |children|
  {
    if |children| > 0 {
      SplitListingLastWins(children[..|children| - 1], name);
    }
  }

  /** The dict of one kind: files for `false`, folders for `true`. */
  function Side(split: (NameMap, NameMap), folder: bool): NameMap
  {
    if folder then split.1 else split.0
  }

  /** Some child has this name and kind. */
  ghost predicate Listed(children: seq<Child>, name: string, folder: bool)
  {
    exists i :: 0 <= i < |children| && children[i].name == name && children[i].isFolder == folder
  }

  /** One more child adds its name to the dict of its kind and nothing else. */
  lemma SplitListingKeysStep(children: seq<Child>, folder: bool, name: string)
    requires |children| > 0
    ensures var init := children[..|children| - 1];
      var c := children[|children| - 1];
      name in Keys(Side(SplitListing(children), folder)) <==>
        name in Keys(Side(SplitListing(init), folder)) || (c.isFolder == folder && c.name == name)
  {
  }

  /** A child is listed in the whole listing iff it is listed before the
      last child or is the last child. */
  lemma ListedStep(children: seq<Child>, folder: bool, name: string)
    requires |children| > 0
    ensures var init := children[..|children| - 1];
      var c := children[|children| - 1];
      Listed(children, name, folder) <==> Listed(init, name, folder) || (c.isFolder == folder && c.name == name)
  {
    var init := children[..|children| - 1];
    if Listed(init, name, folder) {
      var i :| 0 <= i < |init| && init[i].name == name && init[i].isFolder == folder;
      assert children[i] == init[i];
    }
    if Listed(children, name, folder) {
      var i :| 0 <= i < |children| && children[i].name == name && children[i].isFolder == folder;
      if i < |init| {
        assert init[i] == children[i];
      }
    }
  }

  /** The files dict holds exactly the names of the non-folder children, and
      the folders dict exactly the names of the folder children. */
  lemma {:induction false} SplitListingKeys(children: seq<Child>, folder: bool, name: string)
    ensures name in Keys(Side(SplitListing(children), folder)) <==> Listed(children, name, folder)
    decreases |children|
  {
    if |children| > 0 {
      SplitListingKeys(children[..|children| - 1], folder, name);
      SplitListingKeysStep(children, folder, name);
      ListedStep(children, folder, name);
    }
  }
}
