/** The history of save paths in the add-torrent dialog, most recent first and of limited length. */
module PathHistory {
  import opened Strings

  /** QList::mid(0, n): a negative length takes all. */
  function First(list: seq<string>, n: int): seq<string> {
    if n < 0 || n >= |list| then list else list[..n]
  }

  /** The path moved or put to the front of an unlimited list. */
  function ToFront(list: seq<string>, path: string): seq<string> {
    var i := IndexOf(list, path);
    if i >= 0 then [path] + list[..i] + list[i + 1..] else [path] + list
  }

  class History {
    var stored: seq<string>

    constructor ()
      ensures stored == []
    {
      stored := [];
    }

    /** `updatePathHistory`. */
    method UpdatePathHistory(path: string, maxLength: int)
      modifies this
      ensures stored == First(ToFront(old(stored), path), maxLength)
      ensures maxLength >= 0 ==> |stored| <= maxLength
      ensures maxLength != 0 ==> stored != [] && stored[0] == path
    {
      var pathList := stored;
      var index := IndexOf(pathList, path);
      if index > -1 {
        pathList := [pathList[index]] + (pathList[..index] + pathList[index + 1..]);
        assert pathList == ToFront(stored, path);
      } else {
        pathList := [path] + pathList;
      }
      ToFrontHead(stored, path);
      stored := First(pathList, maxLength);
    }
  }

  /** The stored list after these uses, and the unlimited one. */
  function StoredAfter(uses: seq<string>, maxLength: int): seq<string>
    decreases |uses|
  {
    if uses == [] then []
    else First(ToFront(StoredAfter(uses[..|uses| - 1], maxLength), uses[|uses| - 1]), maxLength)
  }

  function AllAfter(uses: seq<string>): seq<string>
    decreases |uses|
  {
    if uses == [] then [] else ToFront(AllAfter(uses[..|uses| - 1]), uses[|uses| - 1])
  }

  /** The cut keeps as many as it may, from the front; with no length given, all. */
  lemma CutKeeps(list: seq<string>, n: int)
    ensures First(list, n) <= list
    ensures |First(list, n)| == if 0 <= n < |list| then n else |list|
  {
  }

  /** Cutting before or after the use makes no difference to what is kept. */
  lemma CutCommutes(list: seq<string>, path: string, n: nat)
    ensures First(ToFront(First(list, n), path), n) == First(ToFront(list, path), n)
  {
    if n < |list| {
      IndexInCut(list, path, n);
      CutAround(list, path, IndexOf(list, path), n);
    }
  }

  /** The same with the positions given. */
  lemma CutAround(list: seq<string>, path: string, i: int, n: nat)
    requires n < |list| && -1 <= i < |list|
    ensures var cut := list[..n];
            var short := if 0 <= i < n then [path] + cut[..i] + cut[i + 1..] else [path] + cut;
            var long := if i >= 0 then [path] + list[..i] + list[i + 1..] else [path] + list;
            First(short, n) == First(long, n)
  {
  }

  lemma IndexInCut(list: seq<string>, path: string, n: nat)
    requires n <= |list|
    ensures var i := IndexOf(list, path); IndexOf(list[..n], path) == if i < n then i else -1
  {
    hide IndexOf;
    var i := IndexOf(list, path);
    if 0 <= i < n {
      assert list[..n][i] == path;
    }
  }

  lemma ToFrontKeepsDistinct(list: seq<string>, path: string)
    requires Distinct(list)
    ensures Distinct(ToFront(list, path))
  {
    var i := IndexOf(list, path);
    var front := ToFront(list, path);
    if i >= 0 {
      forall k | 1 <= k < |front|
        ensures front[k] == list[if k <= i then k - 1 else k]
      {
      }
    }
  }

  /** The stored list is the first part of the unlimited one, and names no path twice. */
  lemma {:induction false} StoredIsFirstOfAll(uses: seq<string>, maxLength: nat)
    ensures StoredAfter(uses, maxLength) == First(AllAfter(uses), maxLength)
    ensures Distinct(AllAfter(uses)) && Distinct(StoredAfter(uses, maxLength))
    decreases |uses|
  {
    if uses != [] {
      var front, last := uses[..|uses| - 1], uses[|uses| - 1];
      StoredIsFirstOfAll(front, maxLength);
      CutCommutes(AllAfter(front), last, maxLength);
      ToFrontKeepsDistinct(AllAfter(front), last);
    }
  }

  /** The position of the last use of a path; -1 if there is none. */
  function LastUse(uses: seq<string>, path: string): (i: int)
    ensures -1 <= i < |uses|
  {
    if uses == [] then -1
    else if uses[|uses| - 1] == path then |uses| - 1
    else LastUse(uses[..|uses| - 1], path)
  }

  /** Behind the path put to the front the others follow in their order. */
  lemma ToFrontPositions(list: seq<string>, path: string, k: nat)
    requires Distinct(list) && 1 <= k < |ToFront(list, path)|
    ensures var m := if 0 <= IndexOf(list, path) < k then k else k - 1;
            m < |list| && ToFront(list, path)[k] == list[m] && list[m] != path
  {
    hide IndexOf;
    var i := IndexOf(list, path);
    var front := ToFront(list, path);
    if i < 0 {
      assert front[k] == list[k - 1];
    } else if k <= i {
      assert front[k] == list[..i][k - 1];
    } else {
      assert front[k] == list[i + 1..][k - 1 - i] == list[k];
      assert list[i] != list[k];
    }
  }

  lemma ToFrontMembers(list: seq<string>, path: string, p: string)
    ensures p in ToFront(list, path) <==> p in list || p == path
  {
    var i := IndexOf(list, path);
    if i >= 0 {
      assert list == list[..i] + [path] + list[i + 1..];
    }
  }

  lemma {:induction false} AllMembers(uses: seq<string>, p: string)
    ensures p in AllAfter(uses) <==> p in uses
    decreases |uses|
  {
    if uses != [] {
      var n := |uses| - 1;
      AllMembers(uses[..n], p);
      ToFrontMembers(AllAfter(uses[..n]), uses[n], p);
      assert uses == uses[..n] + [uses[n]];
    }
  }

  ghost predicate ByLastUse(list: seq<string>, uses: seq<string>) {
    forall i, j | 0 <= i < j < |list| :: LastUse(uses, list[i]) > LastUse(uses, list[j])
  }

  lemma ToFrontIsByLastUse(list: seq<string>, uses: seq<string>, path: string)
    requires Distinct(list) && ByLastUse(list, uses)
    ensures ByLastUse(ToFront(list, path), uses + [path])
  {
    hide ToFront;
    hide IndexOf;
    hide LastUse;
    var all := ToFront(list, path);
    LastUses(uses, path);
    ToFrontHead(list, path);
    forall i, j | 0 <= i < j < |all|
      ensures LastUse(uses + [path], all[i]) > LastUse(uses + [path], all[j])
    {
      ToFrontPositions(list, path, j);
      if i > 0 {
        ToFrontPositions(list, path, i);
      }
    }
  }

  /** The unlimited list names exactly the used paths, the most recently used first. */
  lemma {:induction false} AllIsByLastUse(uses: seq<string>)
    ensures forall p :: p in AllAfter(uses) <==> p in uses
    ensures ByLastUse(AllAfter(uses), uses)
    decreases |uses|
  {
    hide ByLastUse;
    hide ToFront;
    forall p
      ensures p in AllAfter(uses) <==> p in uses
    {
      AllMembers(uses, p);
    }
    if uses == [] {
      NothingIsByLastUse();
    } else {
      var n := |uses| - 1;
      AllIsByLastUse(uses[..n]);
      StoredIsFirstOfAll(uses[..n], 0);
      ToFrontIsByLastUse(AllAfter(uses[..n]), uses[..n], uses[n]);
      assert uses == uses[..n] + [uses[n]];
    }
  }

  lemma NothingIsByLastUse()
    ensures ByLastUse([], [])
  {
  }

  lemma LastUses(uses: seq<string>, path: string)
    ensures LastUse(uses + [path], path) == |uses|
    ensures forall p | p != path :: LastUse(uses + [path], p) == LastUse(uses, p)
  {
    assert (uses + [path])[..|uses|] == uses;
  }

  lemma ToFrontHead(list: seq<string>, path: string)
    ensures ToFront(list, path) != [] && ToFront(list, path)[0] == path
  {
  }
}
