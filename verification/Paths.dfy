/**
 * The string-level part of `Path`: separators, roots, parents, ancestors and common prefixes.
 * A `Path` is its `m_pathStr`; comparison is case-sensitive, as on Unix.
 */
module Paths {
  import opened Strings

  type Path = string

  const SEPARATOR: char := '/'

  /** The pieces of a path between separators. */
  function Items(p: Path): (items: seq<string>)
    ensures |items| >= 1
  {
    Split(p, SEPARATOR)
  }

  function JoinItems(items: seq<string>): Path {
    Join(items, SEPARATOR)
  }

  /** A leading ':' names a Qt resource and never starts an absolute path. */
  predicate IsAbsolute(p: Path) {
    p != "" && p[0] == SEPARATOR
  }

  function RootItem(p: Path): Path {
    var slash := IndexOf(p, SEPARATOR);
    if slash < 0 then p
    else if slash == 0 then [SEPARATOR]
    else p[..slash]
  }

  function ParentPath(p: Path): Path {
    var slash := LastIndexOf(p, SEPARATOR);
    if slash == -1 then ""
    else if slash == 0 then if |p| == 1 then "" else [SEPARATOR]
    else p[..slash]
  }

  predicate HasAncestor(p: Path, other: Path) {
    if other == "" || |p| <= |other| then false
    else p[|other|] == SEPARATOR && other <= p
  }

  // ----- The ancestor order -----

  /** An ancestor is a non-empty path whose items are a proper prefix of the descendant's items. */
  lemma AncestorIffItemPrefix(p: Path, q: Path)
    ensures HasAncestor(p, q) <==> q != "" && Items(q) < Items(p)
  {
    if HasAncestor(p, q) {
      var rest := p[|q| + 1..];
      assert p == q + [SEPARATOR] + rest;
      SplitConcat(q, rest, SEPARATOR);
    }
    if q != "" && Items(q) < Items(p) {
      var rest := Items(p)[|Items(q)|..];
      assert Items(p) == Items(q) + rest;
      JoinConcat(Items(q), rest, SEPARATOR);
      JoinSplit(p, SEPARATOR);
      JoinSplit(q, SEPARATOR);
      assert p == q + [SEPARATOR] + JoinItems(rest);
    }
  }

  lemma AncestorIrreflexive(p: Path)
    ensures !HasAncestor(p, p)
  {
  }

  lemma AncestorTransitive(p: Path, q: Path, r: Path)
    requires HasAncestor(p, q) && HasAncestor(q, r)
    ensures HasAncestor(p, r) && !HasAncestor(r, p)
  {
    AncestorIffItemPrefix(p, q);
    AncestorIffItemPrefix(q, r);
    AncestorIffItemPrefix(p, r);
  }

  /** Two ancestors of one path are comparable: the ancestors of a path form a chain. */
  lemma AncestorsFormChain(p: Path, q: Path, r: Path)
    requires HasAncestor(p, q) && HasAncestor(p, r)
    ensures q == r || HasAncestor(q, r) || HasAncestor(r, q)
  {
    AncestorIffItemPrefix(p, q);
    AncestorIffItemPrefix(p, r);
    AncestorIffItemPrefix(q, r);
    AncestorIffItemPrefix(r, q);
    if |Items(q)| == |Items(r)| {
      assert Items(q) == Items(p)[..|Items(q)|] == Items(r);
      JoinSplit(q, SEPARATOR);
      JoinSplit(r, SEPARATOR);
    }
  }

  // ----- commonPath -----

  /** The path made of the longest common item prefix; empty when either path is empty. */
  function CommonPrefix(left: Path, right: Path): Path {
    if left == "" || right == "" then ""
    else JoinItems(Items(left)[..CommonLength(Items(left), Items(right))])
  }

  /** The size the loop has accumulated after `n` items, separators not yet counted. */
  function ItemsSize(items: seq<string>, n: nat): nat
    requires n <= |items|
  {
    if n == 0 then 0 else ItemsSize(items, n - 1) + |items[n - 1]|
  }

  lemma {:induction false} JoinedSize(items: seq<string>, n: nat)
    requires 0 < n <= |items|
    ensures |JoinItems(items[..n])| == ItemsSize(items, n) + n - 1
  {
    if n > 1 {
      JoinedSize(items, n - 1);
      assert items[..n] == items[..n - 1] + [items[n - 1]];
      JoinConcat(items[..n - 1], [items[n - 1]], SEPARATOR);
    } else {
      assert ItemsSize(items, 0) == 0;
      assert items[..1] == [items[0]];
    }
  }

  lemma PrefixOfItems(p: Path, n: nat)
    requires 0 < n <= |Items(p)|
    ensures JoinItems(Items(p)[..n]) <= p
  {
    JoinSplit(p, SEPARATOR);
    if n < |Items(p)| {
      assert Items(p) == Items(p)[..n] + Items(p)[n..];
      JoinConcat(Items(p)[..n], Items(p)[n..], SEPARATOR);
    } else {
      assert Items(p)[..n] == Items(p);
    }
  }

  /** `commonPath`: counts equal leading items and cuts `left` at their joined size. */
  method CommonPath(left: Path, right: Path) returns (common: Path)
    ensures common == CommonPrefix(left, right)
  {
    if left == "" || right == "" {
      return "";
    }
    var leftItems, rightItems := Items(left), Items(right);
    var count, size := 0, 0;
    while count < |leftItems| && count < |rightItems|
      invariant 0 <= count <= |leftItems| && count <= |rightItems|
      invariant leftItems[..count] == rightItems[..count]
      invariant size == ItemsSize(leftItems, count)
    {
      if leftItems[count] != rightItems[count] {
        break;
      }
      count, size := count + 1, size + |leftItems[count]|;
    }
    CommonLengthIs(leftItems, rightItems, count);
    if count > 0 {
      JoinedSize(leftItems, count);
      PrefixOfItems(left, count);
      size := size + count - 1;
    }
    common := left[..size];
  }

  /** The common path of a path and its ancestor is the ancestor, from either side. */
  lemma CommonWithAncestor(p: Path, q: Path)
    requires HasAncestor(p, q)
    ensures CommonPrefix(p, q) == q && CommonPrefix(q, p) == q
  {
    AncestorIffItemPrefix(p, q);
    var n := |Items(q)|;
    assert Items(p)[..n] == Items(q)[..n] == Items(q);
    CommonLengthIs(Items(p), Items(q), n);
    CommonLengthIs(Items(q), Items(p), n);
    JoinSplit(q, SEPARATOR);
  }

  predicate AtOrAbove(q: Path, p: Path) {
    q == p || HasAncestor(p, q)
  }

  /** The items of a non-empty common path are the common item prefix itself. */
  lemma CommonItems(left: Path, right: Path)
    requires CommonPrefix(left, right) != ""
    ensures Items(CommonPrefix(left, right)) == Items(left)[..CommonLength(Items(left), Items(right))]
  {
    var n := CommonLength(Items(left), Items(right));
    JoinSplit(left, SEPARATOR);
    assert Free(Items(left)[..n], SEPARATOR);
    SplitJoin(Items(left)[..n], SEPARATOR);
  }

  lemma AtOrAboveIffItems(q: Path, p: Path)
    requires q != ""
    ensures AtOrAbove(q, p) <==> Items(q) <= Items(p)
  {
    AncestorIffItemPrefix(p, q);
    JoinSplit(p, SEPARATOR);
    JoinSplit(q, SEPARATOR);
    if Items(q) <= Items(p) && !(Items(q) < Items(p)) {
      assert Items(q) == Items(p);
    }
  }

  lemma BothPrefixesCommon(a: seq<string>, b: seq<string>, q: seq<string>)
    requires q <= a && q <= b
    ensures q <= a[..CommonLength(a, b)]
  {
    assert a[..|q|] == q == b[..|q|];
    CommonAtLeast(a, b, |q|);
  }

  /** Non-empty items that some other path's items begin with stay non-empty when more follow. */
  lemma LongerJoinIsNotEmpty(q: Path, items: seq<string>)
    requires q != "" && Items(q) <= items
    ensures JoinItems(items) != ""
  {
    JoinSplit(q, SEPARATOR);
    if Items(q) < items {
      assert items == Items(q) + items[|Items(q)|..];
      JoinConcat(Items(q), items[|Items(q)|..], SEPARATOR);
    } else {
      assert items == Items(q);
    }
  }

  lemma AboveBothIsAboveCommon(left: Path, right: Path, q: Path)
    requires q != "" && left != "" && right != "" && AtOrAbove(q, left) && AtOrAbove(q, right)
    ensures CommonPrefix(left, right) != "" && AtOrAbove(q, CommonPrefix(left, right))
  {
    hide AtOrAbove;
    hide Items;
    AtOrAboveIffItems(q, left);
    AtOrAboveIffItems(q, right);
    BothPrefixesCommon(Items(left), Items(right), Items(q));
    LongerJoinIsNotEmpty(q, Items(left)[..CommonLength(Items(left), Items(right))]);
    CommonItems(left, right);
    AtOrAboveIffItems(q, CommonPrefix(left, right));
  }

  lemma AboveCommonIsAboveBoth(left: Path, right: Path, q: Path)
    requires q != "" && left != "" && right != "" && CommonPrefix(left, right) != "" && AtOrAbove(q, CommonPrefix(left, right))
    ensures AtOrAbove(q, left) && AtOrAbove(q, right)
  {
    hide AtOrAbove;
    hide Items;
    var c := CommonPrefix(left, right);
    CommonItems(left, right);
    AtOrAboveIffItems(q, c);
    AtOrAboveIffItems(q, left);
    AtOrAboveIffItems(q, right);
    assert Items(c) <= Items(left);
    assert Items(c) <= Items(right);
  }

  /** commonPath is the greatest lower bound of the ancestor order. */
  lemma CommonIsGreatestLowerBound(left: Path, right: Path, q: Path)
    requires q != ""
    ensures (AtOrAbove(q, left) && AtOrAbove(q, right)) <==>
            (left != "" && right != "" && CommonPrefix(left, right) != "" && AtOrAbove(q, CommonPrefix(left, right)))
  {
    if left != "" && right != "" {
      if AtOrAbove(q, left) && AtOrAbove(q, right) {
        AboveBothIsAboveCommon(left, right, q);
      }
      if CommonPrefix(left, right) != "" && AtOrAbove(q, CommonPrefix(left, right)) {
        AboveCommonIsAboveBoth(left, right, q);
      }
    }
  }

  // ----- Walking up from a path to its root item -----

  /** `p` and its successive parents, down to and including its root item. */
  function Chain(p: Path): (chain: seq<Path>)
    ensures |chain| >= 1 && chain[0] == p
    decreases |p|
  {
    if p == RootItem(p) then [p] else [p] + Chain(ParentPath(p))
  }

  /** One step up keeps the root item, gets shorter and does not become empty. */
  lemma ParentKeepsRoot(p: Path)
    requires p != RootItem(p)
    ensures |ParentPath(p)| < |p|
    ensures RootItem(ParentPath(p)) == RootItem(p)
    ensures ParentPath(p) != ""
  {
    var slash := LastIndexOf(p, SEPARATOR);
    var first := IndexOf(p, SEPARATOR);
    assert first >= 0;
    assert p[first] == SEPARATOR;
    assert 0 <= first <= slash;
    if slash > 0 {
      var parent := p[..slash];
      var again := IndexOf(parent, SEPARATOR);
      assert first < slash ==> parent[first] == SEPARATOR;
      assert again == if first < slash then first else -1;
    }
  }

  /** The walk ends at the root item and passes through no empty path unless it started there. */
  lemma {:induction false} ChainReachesRoot(p: Path)
    ensures Chain(p)[|Chain(p)| - 1] == RootItem(p)
    ensures forall i | 0 <= i < |Chain(p)| - 1 :: Chain(p)[i] != RootItem(p)
    ensures forall i | 0 <= i < |Chain(p)| - 1 :: Chain(p)[i + 1] == ParentPath(Chain(p)[i])
    ensures p != "" ==> forall i | 0 <= i < |Chain(p)| :: Chain(p)[i] != ""
    decreases |p|
  {
    if p != RootItem(p) {
      ParentKeepsRoot(p);
      ChainReachesRoot(ParentPath(p));
    }
  }

  /** The root item of an absolute path is "/"; that of any other path is its first item. */
  lemma RootIs(p: Path)
    ensures RootItem(p) == if IsAbsolute(p) then "/" else Items(p)[0]
  {
    if !IsAbsolute(p) {
      var slash := IndexOf(p, SEPARATOR);
      if slash < 0 {
        SplitFree(p, SEPARATOR);
      } else {
        assert p == p[..slash] + [SEPARATOR] + p[slash + 1..];
        SplitFree(p[..slash], SEPARATOR);
        SplitConcat(p[..slash], p[slash + 1..], SEPARATOR);
      }
    }
  }

  /** The parent of a path lacks its last item; only "/" has to be written where that would leave nothing of an absolute path. */
  lemma ParentDropsItem(p: Path)
    ensures var items := Items(p);
            var front := JoinItems(items[..|items| - 1]);
            ParentPath(p) == if IsAbsolute(p) && |items| == 2 && |p| > 1 then "/" else front
  {
    var items, slash := Items(p), LastIndexOf(p, SEPARATOR);
    if slash < 0 {
      SplitFree(p, SEPARATOR);
    } else {
      var front, last := p[..slash], p[slash + 1..];
      assert p == front + [SEPARATOR] + last;
      SplitFree(last, SEPARATOR);
      SplitConcat(front, last, SEPARATOR);
      assert items == Items(front) + [last];
      assert items[..|items| - 1] == Items(front);
      JoinSplit(front, SEPARATOR);
      SplitFirst(front, SEPARATOR);
      if slash > 0 && front[0] == SEPARATOR {
        assert |Items(front)| >= 2;
      }
    }
  }

  /** The walk up from an absolute path ends at "/", that from any other path at its first item. */
  lemma ChainEndsAt(p: Path)
    ensures Chain(p)[|Chain(p)| - 1] == if IsAbsolute(p) then "/" else Items(p)[0]
  {
    ChainReachesRoot(p);
    RootIs(p);
  }

  /** The positions at which `hasAncestor` cuts: separators that are not the leading one. */
  predicate CutsAt(p: Path, q: Path) {
    0 < |q| < |p| && p[|q|] == SEPARATOR && q == p[..|q|]
  }

  lemma RootHasNoCut(p: Path, q: Path)
    requires p == RootItem(p)
    ensures !CutsAt(p, q)
  {
  }

  lemma CutOfParent(p: Path, q: Path)
    requires p != RootItem(p)
    ensures CutsAt(p, q) <==>
            (q == ParentPath(p) && (|p| > 1 && p[0] == SEPARATOR && q == [SEPARATOR] ==> p[1] == SEPARATOR))
            || CutsAt(ParentPath(p), q)
  {
    ParentKeepsRoot(p);
    var slash := LastIndexOf(p, SEPARATOR);
    var parent := ParentPath(p);
    if CutsAt(p, q) {
      assert |q| <= slash;
      if |q| < slash {
        assert parent == p[..slash];
        assert parent[|q|] == SEPARATOR;
        assert q == parent[..|q|];
      }
    }
    if CutsAt(parent, q) {
      assert slash > 0;
      assert parent == p[..slash];
    }
  }

  /**
   * The ancestors of any path are exactly the paths met while walking up from it, except that "/"
   * counts only for paths that begin with two separators: "/" is not reported as an ancestor of "/a".
   */
  lemma {:induction false} AncestorIffOnChain(p: Path, q: Path)
    ensures HasAncestor(p, q) <==>
            q in Chain(p)[1..] && (q == [SEPARATOR] ==> |p| > 1 && p[1] == SEPARATOR)
    decreases |p|
  {
    assert HasAncestor(p, q) <==> CutsAt(p, q);
    if p == RootItem(p) {
      RootHasNoCut(p, q);
    } else {
      var parent := ParentPath(p);
      ParentKeepsRoot(p);
      AncestorIffOnChain(parent, q);
      CutOfParent(p, q);
      assert Chain(p)[1..] == Chain(parent);
      assert Chain(parent) == [parent] + Chain(parent)[1..];
      assert HasAncestor(parent, q) <==> CutsAt(parent, q);
      ChainSecond(p, q);
    }
  }

  /** A path begins with two separators exactly when its proper parents, other than "/", do. */
  lemma ChainSecond(p: Path, q: Path)
    requires p != RootItem(p)
    ensures |ParentPath(p)| > 1 ==> ParentPath(p)[1] == p[1]
    ensures |ParentPath(p)| >= 1 && |p| > 1
  {
    ParentKeepsRoot(p);
    var slash := LastIndexOf(p, SEPARATOR);
    if slash > 0 {
      assert ParentPath(p) == p[..slash];
    }
  }
}
