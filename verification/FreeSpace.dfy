/** The free-space query of the add-torrent dialog: ask a path, then its ancestors, until one answers. */
module FreeSpace {
  import opened Paths

  /**
   * `queryFreeDiskSpace`. `freeSpace` stands for the storage query, which answers with a negative
   * number for a directory that does not exist.
   */
  method QueryFreeDiskSpace(path: Path, freeSpace: Path -> int) returns (space: int)
    ensures var chain := Chain(path);
            exists k | 0 <= k < |chain| ::
              && space == freeSpace(chain[k])
              && (forall i | 0 <= i < k :: freeSpace(chain[i]) < 0)
              && (k < |chain| - 1 ==> space >= 0)
    ensures IsAbsolute(path) && freeSpace("/") >= 0 ==> space >= 0
    ensures freeSpace(path) >= 0 ==> space == freeSpace(path)
  {
    hide RootItem;
    hide ParentPath;
    hide Chain;
    hide IsAbsolute;
    hide Items;
    var root := RootItem(path);
    var current := path;
    space := freeSpace(current);
    ghost var k := 0;
    ghost var chain := Chain(path);
    ChainReachesRoot(path);
    ChainEndsAt(path);
    while space < 0 && current != root
      invariant 0 <= k < |chain|
      invariant current == chain[k] && space == freeSpace(current)
      invariant forall i | 0 <= i < k :: freeSpace(chain[i]) < 0
      decreases |chain| - k
    {
      current := ParentPath(current);
      k := k + 1;
      space := freeSpace(current);
    }
  }
}
