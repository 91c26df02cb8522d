/** Switching the content layout of a torrent in the add-torrent dialog. */
module ContentLayout {
  import opened Strings
  import opened Paths
  import opened CleanPaths
  import opened RootFolders

  datatype Layout = Original | Subfolder | NoSubfolder

  /** `suffixFor` stands for the MIME database: the suffix it knows for a file name, or "". */
  function Extension(p: Path, suffixFor: string -> string): string {
    if suffixFor(p) != "" then "." + suffixFor(p)
    else
      var filename := p[LastIndexOf(p, SEPARATOR) + 1..];
      var dot := if filename == "" then -1 else LastIndexOf(filename[..|filename| - 1], '.');
      if dot == -1 then "" else filename[dot..]
  }

  function RemovedExtension(p: Path, suffixFor: string -> string): Path {
    var n := |Extension(p, suffixFor)|;
    if n <= |p| then p[..|p| - n] else ""
  }

  /** A known suffix and its dot are taken off. */
  lemma KnownSuffixIsRemoved(q: Path, suffix: string, suffixFor: string -> string)
    requires suffix != "" && suffixFor(q + "." + suffix) == suffix
    ensures RemovedExtension(q + "." + suffix, suffixFor) == q
  {
    var p := q + "." + suffix;
    assert p[..|p| - |"." + suffix|] == q;
  }

  /** A folder part is empty or ends with a separator. */
  predicate IsFolderPart(folder: Path) {
    folder == "" || folder[|folder| - 1] == SEPARATOR
  }

  lemma LastItemIs(folder: Path, name: string)
    requires IsFolderPart(folder) && SEPARATOR !in name
    ensures LastIndexOf(folder + name, SEPARATOR) + 1 == |folder|
    ensures (folder + name)[|folder|..] == name
  {
    var p := folder + name;
    assert forall k | |folder| <= k < |p| :: p[k] == name[k - |folder|];
    assert folder != "" ==> p[|folder| - 1] == SEPARATOR;
  }

  /** With no suffix known, the text from the last dot on is taken off, a dot at the very end not counting. */
  lemma LastDotIsRemoved(folder: Path, stem: string, ext: string, suffixFor: string -> string)
    requires IsFolderPart(folder) && suffixFor(folder + (stem + "." + ext)) == ""
    requires SEPARATOR !in stem && SEPARATOR !in ext && ext != "" && '.' !in ext[..|ext| - 1]
    ensures RemovedExtension(folder + (stem + "." + ext), suffixFor) == folder + stem
  {
    hide RemovedExtension;
    hide LastIndexOf;
    hide IsFolderPart;
    var name := stem + "." + ext;
    assert SEPARATOR !in name;
    LastItemIs(folder, name);
    LastDotIs(stem, ext);
    CutAt(folder, name, |stem|, suffixFor);
    assert name[..|stem|] == stem;
  }

  /** What is taken off when the last dot of the last item is at `dot`. */
  lemma CutAt(folder: Path, name: string, dot: nat, suffixFor: string -> string)
    requires suffixFor(folder + name) == "" && dot < |name|
    requires LastIndexOf(folder + name, SEPARATOR) + 1 == |folder|
    requires LastIndexOf(name[..|name| - 1], '.') == dot
    ensures RemovedExtension(folder + name, suffixFor) == folder + name[..dot]
  {
    hide LastIndexOf;
    var p := folder + name;
    assert p[|folder|..] == name;
    assert Extension(p, suffixFor) == name[dot..];
    assert p[..|p| - |name[dot..]|] == folder + name[..dot];
  }

  lemma LastDotIs(stem: string, ext: string)
    requires ext != "" && '.' !in ext[..|ext| - 1]
    ensures var name := stem + "." + ext; LastIndexOf(name[..|name| - 1], '.') == |stem|
  {
    var name := stem + "." + ext;
    var front := name[..|name| - 1];
    assert front[|stem|] == '.';
    forall k | |stem| < k < |front|
      ensures front[k] != '.'
    {
      assert front[k] == ext[..|ext| - 1][k - |stem| - 1];
    }
  }

  /** Without a known suffix and without a dot before the last character of its last item a path is left as it is. */
  lemma NoDotIsLeft(folder: Path, name: string, suffixFor: string -> string)
    requires IsFolderPart(folder) && suffixFor(folder + name) == ""
    requires SEPARATOR !in name && (name != "" ==> '.' !in name[..|name| - 1])
    ensures RemovedExtension(folder + name, suffixFor) == folder + name
  {
    LastItemIs(folder, name);
  }

  /** The file paths and the layout they are in. */
  datatype State = State(paths: seq<Path>, current: Layout)

  function OriginalLayout(root: Path): Layout {
    if root == "" then NoSubfolder else Subfolder
  }

  function Resolve(root: Path, layout: Layout): Layout {
    if layout == Original then OriginalLayout(root) else layout
  }

  /** One call of `applyContentLayout`, for a torrent whose original root folder is `root`. */
  function Switch(root: Path, suffixFor: string -> string, s: State, layout: Layout): State {
    var target := Resolve(root, layout);
    if target == s.current || s.paths == [] then s
    else if target == NoSubfolder then State(Stripped(s.paths), target)
    else State(WithRoot(s.paths, if root != "" then root else RemovedExtension(s.paths[0], suffixFor)), target)
  }

  function Start(original: seq<Path>): State {
    State(original, OriginalLayout(RootFolder(original)))
  }

  /** Any sequence of layout switches, from the paths in the metadata. */
  function Run(original: seq<Path>, suffixFor: string -> string, layouts: seq<Layout>): State
    decreases |layouts|
  {
    if layouts == [] then Start(original)
    else Switch(RootFolder(original), suffixFor, Run(original, suffixFor, layouts[..|layouts| - 1]), layouts[|layouts| - 1])
  }

  /** What a layout means, read off the original paths alone. */
  function Canonical(original: seq<Path>, suffixFor: string -> string, layout: Layout): seq<Path>
    requires original != []
  {
    var root := RootFolder(original);
    var target := Resolve(root, layout);
    if target == OriginalLayout(root) then original
    else if target == NoSubfolder then Stripped(original)
    else WithRoot(original, RemovedExtension(original[0], suffixFor))
  }

  /** The dialog's adaptor: it rewrites the caller's list of file paths in place. */
  class TorrentContentAdaptor {
    const suffixFor: string -> string
    const filePaths: array<Path>
    const originalRootFolder: Path
    var currentContentLayout: Layout

    function Value(): State
      reads this, filePaths
    {
      State(filePaths[..], currentContentLayout)
    }

    constructor (metadataPaths: seq<Path>, filePaths: array<Path>, suffixFor: string -> string)
      ensures this.filePaths == filePaths && this.suffixFor == suffixFor
      ensures originalRootFolder == RootFolder(metadataPaths)
      ensures filePaths[..] == metadataPaths ==> Value() == Start(metadataPaths)
    {
      this.filePaths := filePaths;
      this.suffixFor := suffixFor;
      var root := FindRootFolder(metadataPaths);
      originalRootFolder := root;
      currentContentLayout := if root == "" then NoSubfolder else Subfolder;
    }

    method ApplyContentLayout(contentLayout: Layout)
      requires filePaths.Length > 0
      modifies this`currentContentLayout, filePaths
      ensures Value() == Switch(originalRootFolder, suffixFor, old(Value()), contentLayout)
    {
      var original := if originalRootFolder == "" then NoSubfolder else Subfolder;
      var target := if contentLayout == Original then original else contentLayout;
      if target != currentContentLayout {
        if target == NoSubfolder {
          StripRootFolder(filePaths);
        } else {
          var root := if original == Subfolder then originalRootFolder else RemovedExtension(filePaths[0], suffixFor);
          AddRootFolder(filePaths, root);
        }
        currentContentLayout := target;
      }
    }
  }

  // ----- History independence -----

  /** Metadata paths: clean, relative, not empty. */
  ghost predicate IsMetadata(original: seq<Path>) {
    original != [] && forall i | 0 <= i < |original| ::
      IsClean(original[i]) && !IsAbsolute(original[i]) && original[i] != ""
  }

  ghost predicate OnlyNames(paths: seq<Path>) {
    forall i | 0 <= i < |paths| :: AllNames(Items(paths[i]))
  }

  /**
   * When the two layouts can be told apart again: the files share a root folder, or the name that
   * would become the root folder comes down to a single item at most.
   */
  ghost predicate Reversible(original: seq<Path>, suffixFor: string -> string) {
    original != [] &&
    (RootFolder(original) != ""
     || (OnlyNames(original) && |CleanItems(RemovedExtension(original[0], suffixFor))| <= 1))
  }

  /** The layout chosen last; at first the original one. */
  function LastChosen(layouts: seq<Layout>): Layout {
    if layouts == [] then Original else layouts[|layouts| - 1]
  }

  /** After these switches the paths are those of the last chosen layout. */
  ghost predicate EndsCanonical(original: seq<Path>, suffixFor: string -> string, layouts: seq<Layout>)
    requires original != []
  {
    Run(original, suffixFor, layouts).paths == Canonical(original, suffixFor, LastChosen(layouts))
  }

  /** So it is after any switches; in particular `Original` brings back the originals. */
  ghost predicate HistoryIndependent(original: seq<Path>, suffixFor: string -> string) {
    original != [] && forall layouts: seq<Layout> :: EndsCanonical(original, suffixFor, layouts)
  }

  /** Adding the shared root again undoes the stripping. */
  lemma AddUndoesStrip(original: seq<Path>)
    requires IsMetadata(original) && RootFolder(original) != ""
    ensures WithRoot(Stripped(original), RootFolder(original)) == original
  {
    var root := RootFolder(original);
    RootFolderIffShared(original, root);
    forall i | 0 <= i < |original|
      ensures Div(root, Stripped(original)[i]) == original[i]
    {
      var p := original[i];
      StripTakesFirstItem(original, root, i);
      SplitFree(HERE, SEPARATOR);
      CleanRelativeItems(p);
      CleanItemsNormal(p);
      assert IsName(Items(p)[1]) || Items(p)[1] == UP;
      JoinStartsWithFirst(Items(p)[1..]);
    }
  }

  /** The path below an added root folder: the root's clean items followed by the path's names. */
  lemma AddedPath(root: Path, p: Path)
    requires root != "" && !IsAbsolute(root) && AllNames(Items(p))
    ensures Div(root, p) == Render(CleanItems(root) + Items(p), false)
    ensures Items(Div(root, p)) == CleanItems(root) + Items(p)
    ensures !IsAbsolute(Div(root, p))
  {
    assert p != "" by {
      SplitFree("", SEPARATOR);
    }
    DivItems(root, p);
    NormaliseNames(CleanItems(root), Items(p), false);
    CleanItemsNormal(root);
    var items := CleanItems(root) + Items(p);
    assert IsNormal(items, false);
    RenderedItems(items, false);
  }

  /** Stripping after adding a folder: leaves everything but the first of all the items. */
  lemma StripAfterAdd(original: seq<Path>, root: Path)
    requires original != [] && OnlyNames(original) && root != "" && !IsAbsolute(root)
    requires CleanItems(root) != []
    ensures var added := WithRoot(original, root);
            && |Stripped(added)| == |original|
            && forall i | 0 <= i < |original| ::
                 Stripped(added)[i] == JoinItems(CleanItems(root)[1..] + Items(original[i]))
  {
    var added := WithRoot(original, root);
    var items := CleanItems(root);
    CleanItemsNormal(root);
    forall i | 0 <= i < |original|
      ensures Items(added[i]) == items + Items(original[i]) && !IsAbsolute(added[i])
    {
      AddedPath(root, original[i]);
    }
    assert SharesRoot(added, items[0]);
    forall i | 0 <= i < |original|
      ensures |Stripped(added)| == |original|
      ensures Stripped(added)[i] == JoinItems(items[1..] + Items(original[i]))
    {
      StripTakesFirstItem(added, items[0], i);
      assert (items + Items(original[i]))[1..] == items[1..] + Items(original[i]);
    }
  }

  /** Adding a folder that comes down to nothing changes nothing. */
  lemma AddNothing(original: seq<Path>, root: Path)
    requires OnlyNames(original) && !IsAbsolute(root) && CleanItems(root) == []
    ensures WithRoot(original, root) == original
  {
    forall i | 0 <= i < |original|
      ensures Div(root, original[i]) == original[i]
    {
      JoinSplit(original[i], SEPARATOR);
      if root != "" {
        AddedPath(root, original[i]);
        assert CleanItems(root) + Items(original[i]) == Items(original[i]);
      }
    }
  }

  lemma RemovedExtensionRelative(p: Path, suffixFor: string -> string)
    requires !IsAbsolute(p)
    ensures !IsAbsolute(RemovedExtension(p, suffixFor))
  {
  }

  lemma NamesAreRelative(original: seq<Path>)
    requires OnlyNames(original)
    ensures AllRelative(original)
  {
    forall i | 0 <= i < |original|
      ensures !IsAbsolute(original[i])
    {
      AbsoluteFirstItem(original[i]);
      assert IsName(Items(original[i])[0]);
    }
  }

  lemma AbsoluteFirstItem(p: Path)
    ensures IsAbsolute(p) ==> Items(p)[0] == ""
  {
  }

  /** Without a shared root: stripping the added folder restores the originals exactly for a single-item folder name. */
  lemma StripUndoesAddIff(original: seq<Path>, suffixFor: string -> string)
    requires original != [] && OnlyNames(original) && RootFolder(original) == ""
    ensures var root := RemovedExtension(original[0], suffixFor);
            Stripped(WithRoot(original, root)) == original <==> |CleanItems(root)| <= 1
  {
    var root := RemovedExtension(original[0], suffixFor);
    NamesAreRelative(original);
    RemovedExtensionRelative(original[0], suffixFor);
    var items := CleanItems(root);
    if items == [] {
      AddNothing(original, root);
    } else {
      assert root != "" by {
        SplitFree("", SEPARATOR);
        assert Normalise([], [""], false) == Normalise(Push([], "", false), [], false);
      }
      StripAfterAdd(original, root);
      var stripped := Stripped(WithRoot(original, root));
      if |items| == 1 {
        forall i | 0 <= i < |original|
          ensures stripped[i] == original[i]
        {
          JoinSplit(original[i], SEPARATOR);
          assert items[1..] + Items(original[i]) == Items(original[i]);
        }
      } else {
        LongerRestDiffers(items[1..], original[0], root);
        assert stripped[0] != original[0];
      }
    }
  }

  lemma LongerRestDiffers(extra: seq<string>, p: Path, root: Path)
    requires CleanItems(root) != [] && extra == CleanItems(root)[1..]
    requires extra != [] && AllNames(Items(p))
    ensures JoinItems(extra + Items(p)) != p
  {
    CleanItemsNormal(root);
    var items := extra + Items(p);
    assert Free(items, SEPARATOR);
    SplitJoin(items, SEPARATOR);
  }

  /** The invariant of every run: the paths of the current layout. */
  ghost predicate InLayout(original: seq<Path>, suffixFor: string -> string, s: State)
    requires original != []
  {
    && s.current in {Subfolder, NoSubfolder}
    && s.paths == Canonical(original, suffixFor, s.current)
  }

  lemma SwitchStaysInLayout(original: seq<Path>, suffixFor: string -> string, s: State, layout: Layout)
    requires IsMetadata(original) && Reversible(original, suffixFor)
    requires InLayout(original, suffixFor, s)
    ensures var t := Switch(RootFolder(original), suffixFor, s, layout);
            InLayout(original, suffixFor, t) && t.current == Resolve(RootFolder(original), layout)
  {
    var root := RootFolder(original);
    if root != "" {
      AddUndoesStrip(original);
    } else {
      StripUndoesAddIff(original, suffixFor);
    }
  }

  lemma {:induction false} RunStaysInLayout(original: seq<Path>, suffixFor: string -> string, layouts: seq<Layout>)
    requires IsMetadata(original) && Reversible(original, suffixFor)
    ensures var s := Run(original, suffixFor, layouts);
            && InLayout(original, suffixFor, s)
            && s.current == Resolve(RootFolder(original), LastChosen(layouts))
    decreases |layouts|
  {
    if layouts != [] {
      RunStaysInLayout(original, suffixFor, layouts[..|layouts| - 1]);
      SwitchStaysInLayout(original, suffixFor, Run(original, suffixFor, layouts[..|layouts| - 1]), layouts[|layouts| - 1]);
    }
  }

  /** Layout switching forgets its history for reversible metadata. */
  lemma LayoutHistoryIndependent(original: seq<Path>, suffixFor: string -> string)
    requires IsMetadata(original) && Reversible(original, suffixFor)
    ensures HistoryIndependent(original, suffixFor)
  {
    forall layouts: seq<Layout>
      ensures EndsCanonical(original, suffixFor, layouts)
    {
      RunStaysInLayout(original, suffixFor, layouts);
    }
  }

  /** And for no other metadata: then one switch to `Subfolder` and back already changes the paths. */
  lemma HistoryIndependentIff(original: seq<Path>, suffixFor: string -> string)
    requires IsMetadata(original) && OnlyNames(original)
    ensures HistoryIndependent(original, suffixFor) <==> Reversible(original, suffixFor)
  {
    hide Run;
    hide Stripped;
    hide WithRoot;
    hide RootFolder;
    hide Canonical;
    hide CleanItems;
    hide RemovedExtension;
    if Reversible(original, suffixFor) {
      LayoutHistoryIndependent(original, suffixFor);
    } else {
      StripUndoesAddIff(original, suffixFor);
      ThereAndBack(original, suffixFor);
      assert !EndsCanonical(original, suffixFor, [Subfolder, NoSubfolder]);
    }
  }

  /** Without a shared root: to `Subfolder` and back. */
  lemma ThereAndBack(original: seq<Path>, suffixFor: string -> string)
    requires original != [] && RootFolder(original) == ""
    ensures Run(original, suffixFor, [Subfolder, NoSubfolder]).paths ==
            Stripped(WithRoot(original, RemovedExtension(original[0], suffixFor)))
    ensures Canonical(original, suffixFor, NoSubfolder) == original
  {
    hide RootFolder;
    hide RemovedExtension;
    var there := [Subfolder];
    var back := [Subfolder, NoSubfolder];
    assert there[..0] == [] && back[..1] == there;
    assert Run(original, suffixFor, []) == Start(original);
    assert Run(original, suffixFor, there) == Switch("", suffixFor, Start(original), Subfolder);
  }

  /** A first file that lies in no directory is enough, whatever its name and extension and however many files follow. */
  lemma FlatFirstFileReversible(original: seq<Path>, suffixFor: string -> string)
    requires original != [] && OnlyNames(original) && |Items(original[0])| == 1
    ensures Reversible(original, suffixFor)
  {
    var p, root := original[0], RemovedExtension(original[0], suffixFor);
    JoinSplit(p, SEPARATOR);
    assert p == Items(p)[0];
    assert SEPARATOR !in root;
    SplitFree(root, SEPARATOR);
    assert Normalise([], [root], IsAbsolute(root)) == Normalise(Push([], root, IsAbsolute(root)), [], IsAbsolute(root));
  }

  /** What the user sees after any switches of a torrent whose files share a folder: without it, or as they were. */
  lemma SharedRootLayouts(original: seq<Path>, suffixFor: string -> string, root: Path, layouts: seq<Layout>, last: Layout)
    requires IsMetadata(original) && SharesRoot(original, root)
    ensures var paths := Run(original, suffixFor, layouts + [last]).paths;
            if last == NoSubfolder then
              |paths| == |original| && forall i | 0 <= i < |original| :: original[i] == root + "/" + paths[i]
            else paths == original
  {
    hide Run;
    hide RootFolder;
    hide Stripped;
    hide SharesRoot;
    RootFolderIffShared(original, root);
    SwitchesEnd(original, suffixFor, layouts, last);
    if last == NoSubfolder {
      SharedIsNotEmpty(original, root);
      StripTakesFirstItem(original, root, 0);
      forall i | 0 <= i < |original|
        ensures |Stripped(original)| == |original| && original[i] == root + "/" + Stripped(original)[i]
      {
        StripTakesFirstItem(original, root, i);
        assert "/" == [SEPARATOR];
      }
    }
  }

  lemma SharedIsNotEmpty(original: seq<Path>, root: Path)
    requires SharesRoot(original, root)
    ensures original != [] && root != ""
  {
  }

  lemma SwitchesEnd(original: seq<Path>, suffixFor: string -> string, layouts: seq<Layout>, last: Layout)
    requires IsMetadata(original) && Reversible(original, suffixFor)
    ensures Run(original, suffixFor, layouts + [last]).paths == Canonical(original, suffixFor, last)
  {
    LayoutHistoryIndependent(original, suffixFor);
    assert EndsCanonical(original, suffixFor, layouts + [last]);
  }

  /** And of one whose first file lies in no folder: below a folder of that file's name without its extension, or as they were. */
  lemma FlatFirstLayouts(original: seq<Path>, stem: string, ext: string, suffixFor: string -> string, layouts: seq<Layout>, last: Layout)
    requires IsMetadata(original) && OnlyNames(original) && original[0] == stem + "." + ext
    requires IsName(stem) && SEPARATOR !in ext && ext != "" && '.' !in ext[..|ext| - 1]
    requires suffixFor(original[0]) in {"", ext}
    ensures var paths := Run(original, suffixFor, layouts + [last]).paths;
            |paths| == |original| &&
            forall i | 0 <= i < |original| :: paths[i] == if last == Subfolder then stem + "/" + original[i] else original[i]
  {
    hide Run;
    hide CleanItems;
    hide RemovedExtension;
    hide IsClean;
    var file := original[0];
    if suffixFor(file) == "" {
      assert "" + file == file && "" + stem == stem;
      LastDotIsRemoved("", stem, ext, suffixFor);
    } else {
      KnownSuffixIsRemoved(stem, ext, suffixFor);
    }
    SplitFree(file, SEPARATOR);
    FlatFirstFileReversible(original, suffixFor);
    SwitchesEnd(original, suffixFor, layouts, last);
    forall i | 0 <= i < |original|
      ensures Div(stem, original[i]) == stem + "/" + original[i]
    {
      FolderAndPath(stem, original[i]);
    }
  }

  lemma FolderAndPath(folder: string, p: Path)
    requires IsName(folder) && AllNames(Items(p))
    ensures Div(folder, p) == folder + "/" + p
  {
    hide Div;
    SplitFree(folder, SEPARATOR);
    NormaliseNames([], [folder], false);
    assert [] + [folder] == [folder];
    AddedPath(folder, p);
    JoinConcat([folder], Items(p), SEPARATOR);
    JoinSplit(p, SEPARATOR);
  }

  /** No switch changes how many files there are. */
  lemma {:induction false} RunKeepsLength(original: seq<Path>, suffixFor: string -> string, layouts: seq<Layout>)
    ensures |Run(original, suffixFor, layouts).paths| == |original|
    decreases |layouts|
  {
    if layouts != [] {
      RunKeepsLength(original, suffixFor, layouts[..|layouts| - 1]);
    }
  }
}
