/** The profile's path converter: paths stored relative to the profile directory, so it can be moved. */
module PortablePaths {
  import opened Strings
  import opened Paths
  import opened CleanPaths
  import opened RelativePaths

  function ToPortablePath(base: Path, path: Path): Path {
    if path == "" then path else RelativePathOf(base, path)
  }

  function FromPortablePath(base: Path, portablePath: Path): Path {
    if portablePath == "" || IsAbsolute(portablePath) then portablePath else Div(base, portablePath)
  }

  /**
   * Storing and reading back gives the clean form of an absolute path, and for a relative path the
   * absolute path it denotes from the base.
   */
  lemma PortableRoundTrip(base: Path, path: Path)
    requires IsAbsolute(base)
    ensures FromPortablePath(base, ToPortablePath(base, path)) ==
            if path == "" then ""
            else if IsAbsolute(path) then MakePath(path)
            else Div(base, path)
  {
    if path != "" {
      RelativePathIs(base, path);
      RelativeLeadsBack(base, path);
      PortableIsRelative(base, path);
      MakePathCleans(path);
      if !IsAbsolute(path) {
        MakePathCleans(base + [SEPARATOR] + path);
      }
    }
  }

  /** What is stored never depends on where the profile lies: it is a relative, clean, non-empty path. */
  lemma PortableIsRelative(base: Path, path: Path)
    requires IsAbsolute(base) && path != ""
    ensures var p := ToPortablePath(base, path); !IsAbsolute(p) && IsClean(p) && p != ""
  {
    hide IsClean;
    hide CleanItems;
    hide Ups;
    hide Render;
    hide IsAbsolute;
    hide IsNormal;
    hide RelativePathOf;
    RelativePathIs(base, path);
    var d, f := CleanItems(base), FileItems(base, path);
    var k := CommonLength(d, f);
    RenderedIsRelative(Ups(|d| - k) + f[k..]);
  }

  lemma RenderedIsRelative(items: seq<string>)
    requires IsNormal(items, false)
    ensures var p := Render(items, false); !IsAbsolute(p) && IsClean(p) && p != ""
  {
    RenderedIsClean(items, false);
    if items != [] {
      RenderedItems(items, false);
    }
  }

  /** What is read: an absolute path as it is, names as the place below the base, nothing as nothing. */
  lemma PortableReads(base: seq<string>, portablePath: Path)
    requires AllNames(base)
    ensures IsAbsolute(portablePath) || portablePath == "" ==> FromPortablePath(PathOf(base), portablePath) == portablePath
    ensures !IsAbsolute(portablePath) && AllNames(Items(portablePath)) ==>
              FromPortablePath(PathOf(base), portablePath) == PathOf(base + Items(portablePath))
  {
    if !IsAbsolute(portablePath) && AllNames(Items(portablePath)) {
      NamesAreNotAbsolute(portablePath);
      RenderedIsClean(base, true);
      DivItems(PathOf(base), portablePath);
      NormaliseNames(base, Items(portablePath), true);
    }
  }

  /** A clean absolute path comes back unchanged, and distinct ones are stored distinctly. */
  lemma CleanPathComesBack(base: Path, p: Path, q: Path)
    requires IsAbsolute(base) && IsAbsolute(p) && IsAbsolute(q) && IsClean(p) && IsClean(q)
    ensures FromPortablePath(base, ToPortablePath(base, p)) == p
    ensures ToPortablePath(base, p) == ToPortablePath(base, q) ==> p == q
  {
    PortableRoundTrip(base, p);
    PortableRoundTrip(base, q);
  }

  /** Read back under another base, a path from inside the profile is at the same place inside the new one. */
  lemma PortableMoves(oldBase: seq<string>, newBase: seq<string>, inside: seq<string>)
    requires AllNames(oldBase) && AllNames(newBase) && AllNames(inside)
    ensures FromPortablePath(PathOf(newBase), ToPortablePath(PathOf(oldBase), PathOf(oldBase + inside)))
            == PathOf(newBase + inside)
  {
    RelativePathBelow(oldBase, inside);
    RelativePathBelow(newBase, inside);
    RenderedIsClean(newBase + inside, true);
    PortableRoundTrip(PathOf(newBase), PathOf(newBase + inside));
  }
}
