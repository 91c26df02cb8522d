/**
 * `QDir::cleanPath` as a normaliser that keeps a stack of items, the `Path` constructor built on it,
 * and `operator/`.
 */
module CleanPaths {
  import opened Strings
  import opened Paths

  const HERE: string := "."
  const UP: string := ".."

  /** An item that names a file or directory: not empty, not "." or "..", without separator. */
  predicate IsName(item: string) {
    item != "" && item != HERE && item != UP && SEPARATOR !in item
  }

  /** What one more item does to the stack of items kept so far. */
  function Push(stack: seq<string>, item: string, absolute: bool): seq<string> {
    if item == "" || item == HERE then stack
    else if item != UP then stack + [item]
    else if |stack| > 0 && stack[|stack| - 1] != UP then stack[..|stack| - 1]
    else if absolute then stack
    else stack + [UP]
  }

  function Normalise(stack: seq<string>, items: seq<string>, absolute: bool): seq<string>
    decreases items
  {
    if items == [] then stack else Normalise(Push(stack, items[0], absolute), items[1..], absolute)
  }

  /** The items a path comes down to. */
  function CleanItems(p: Path): seq<string> {
    Normalise([], Items(p), IsAbsolute(p))
  }

  /** The path written with exactly these items. */
  function Render(items: seq<string>, absolute: bool): Path {
    if absolute then [SEPARATOR] + JoinItems(items)
    else if items == [] then HERE
    else JoinItems(items)
  }

  function CleanPath(p: Path): Path {
    if p == "" then "" else Render(CleanItems(p), IsAbsolute(p))
  }

  /** The `Path` constructor: strings without any separator are taken as they are. */
  function MakePath(s: string): Path {
    if SEPARATOR in s || '\\' in s then CleanPath(s) else s
  }

  /** What the constructor leaves alone; every path it returns is one. */
  predicate IsClean(p: Path) {
    MakePath(p) == p
  }

  /** `operator/`. */
  function Div(left: Path, right: Path): Path {
    if right == "" then left
    else if left == "" then right
    else MakePath(left + [SEPARATOR] + right)
  }

  // ----- Normal forms -----

  /** Items in normal form: names only, after leading ".." items in a relative path. */
  ghost predicate IsNormal(items: seq<string>, absolute: bool) {
    && (forall i | 0 <= i < |items| :: IsName(items[i]) || (items[i] == UP && !absolute))
    && (forall i | 0 < i < |items| :: items[i] == UP ==> items[i - 1] == UP)
  }

  ghost predicate AllNames(items: seq<string>) {
    forall i | 0 <= i < |items| :: IsName(items[i])
  }

  lemma {:induction false} NormaliseIsNormal(stack: seq<string>, items: seq<string>, absolute: bool)
    requires IsNormal(stack, absolute) && Free(items, SEPARATOR)
    ensures IsNormal(Normalise(stack, items, absolute), absolute)
    decreases items
  {
    if items != [] {
      assert IsNormal(Push(stack, items[0], absolute), absolute);
      NormaliseIsNormal(Push(stack, items[0], absolute), items[1..], absolute);
    }
  }

  lemma {:induction false} NormaliseConcat(stack: seq<string>, a: seq<string>, b: seq<string>, absolute: bool)
    ensures Normalise(stack, a + b, absolute) == Normalise(Normalise(stack, a, absolute), b, absolute)
    decreases a
  {
    if a == [] {
      assert a + b == b;
    } else {
      assert (a + b)[1..] == a[1..] + b;
      NormaliseConcat(Push(stack, a[0], absolute), a[1..], b, absolute);
    }
  }

  /** Items that continue a stack in normal form are kept as they are. */
  lemma {:induction false} NormaliseKeepsNormal(stack: seq<string>, items: seq<string>, absolute: bool)
    requires IsNormal(stack + items, absolute)
    ensures Normalise(stack, items, absolute) == stack + items
    decreases items
  {
    if items == [] {
      assert stack + items == stack;
    } else {
      assert (stack + items)[|stack|] == items[0];
      assert items[0] == UP && |stack| > 0 ==> (stack + items)[|stack| - 1] == stack[|stack| - 1];
      assert stack + items == (stack + [items[0]]) + items[1..];
      NormaliseKeepsNormal(stack + [items[0]], items[1..], absolute);
    }
  }

  /** Names are pushed whatever the stack holds. */
  lemma {:induction false} NormaliseNames(stack: seq<string>, names: seq<string>, absolute: bool)
    requires AllNames(names)
    ensures Normalise(stack, names, absolute) == stack + names
    decreases names
  {
    if names == [] {
      assert stack + names == stack;
    } else {
      assert stack + names == (stack + [names[0]]) + names[1..];
      NormaliseNames(stack + [names[0]], names[1..], absolute);
    }
  }

  lemma Surrounded(a: seq<string>, item: string, b: seq<string>, absolute: bool)
    ensures Normalise([], a + [item] + b, absolute) == Normalise(Push(Normalise([], a, absolute), item, absolute), b, absolute)
  {
    assert a + [item] + b == a + ([item] + b);
    NormaliseConcat([], a, [item] + b, absolute);
    assert ([item] + b)[1..] == b;
  }

  /** Cleaning leaves out empty and "." items, wherever they stand. */
  lemma CleaningDropsHere(a: seq<string>, item: string, b: seq<string>, absolute: bool)
    requires item in {"", HERE}
    ensures Normalise([], a + [item] + b, absolute) == Normalise([], a + b, absolute)
  {
    hide Normalise;
    Surrounded(a, item, b, absolute);
    NormaliseConcat([], a, b, absolute);
  }

  /** A name and ".." behind it take each other away. */
  lemma UpTakesName(a: seq<string>, name: string, b: seq<string>, absolute: bool)
    requires IsName(name)
    ensures Normalise([], a + [name] + [UP] + b, absolute) == Normalise([], a + b, absolute)
  {
    hide Normalise;
    var s := Normalise([], a, absolute);
    Surrounded(a + [name], UP, b, absolute);
    NormaliseOne(a, name, absolute);
    assert (s + [name])[..|s|] == s;
    NormaliseConcat([], a, b, absolute);
  }

  lemma NormaliseOne(a: seq<string>, name: string, absolute: bool)
    requires IsName(name)
    ensures Normalise([], a + [name], absolute) == Normalise([], a, absolute) + [name]
  {
    Surrounded(a, name, [], absolute);
    assert a + [name] + [] == a + [name];
  }

  /** At the root of an absolute path ".." leads nowhere else. */
  lemma UpStaysAtRoot(b: seq<string>)
    ensures Normalise([], [UP] + b, true) == Normalise([], b, true)
  {
    assert ([UP] + b)[1..] == b;
  }

  lemma ItemsOfPair(a: string, b: string)
    requires SEPARATOR !in a && SEPARATOR !in b
    ensures Items(a + "/" + b) == [a, b]
  {
    assert a + [SEPARATOR] + b == a + "/" + b;
    SplitConcat(a, b, SEPARATOR);
    SplitFree(a, SEPARATOR);
    SplitFree(b, SEPARATOR);
  }

  /** The items of an absolute path, without the empty one in front. */
  lemma AbsoluteItems(rest: string)
    ensures Items("/" + rest) == [""] + Items(rest) && IsAbsolute("/" + rest)
    ensures CleanItems("/" + rest) == Normalise([], Items(rest), true)
  {
    assert "" + [SEPARATOR] + rest == "/" + rest;
    SplitConcat("", rest, SEPARATOR);
    SplitFree("", SEPARATOR);
    CleaningDropsHere([], "", Items(rest), true);
    assert [] + [""] + Items(rest) == [""] + Items(rest) && [] + Items(rest) == Items(rest);
  }

  /** Leaving a directory again leads to ".", or to "/" from there; ".." in front stays in a relative path and goes in an absolute one. */
  lemma CleanedUps(name: string)
    requires IsName(name)
    ensures CleanPath(name + "/..") == "." && CleanPath("/" + (name + "/..")) == "/"
    ensures CleanPath("../" + name) == "../" + name && CleanPath("/" + ("../" + name)) == "/" + name
  {
    hide Normalise;
    hide Items;
    ItemsOfPair(name, UP);
    ItemsOfPair(UP, name);
    AbsoluteItems(name + "/..");
    AbsoluteItems("../" + name);
    assert UP + "/" + name == "../" + name && name + "/" + UP == name + "/..";
    NormalisedUps(name, true);
    NormalisedUps(name, false);
    JoinConcat([UP], [name], SEPARATOR);
    assert [UP] + [name] == [UP, name];
    assert UP + [SEPARATOR] + name == "../" + name;
    assert !IsAbsolute("../" + name) && !IsAbsolute(name + "/..");
  }

  lemma NormalisedUps(name: string, absolute: bool)
    requires IsName(name)
    ensures Normalise([], [name, UP], absolute) == []
    ensures Normalise([], [UP, name], absolute) == if absolute then [name] else [UP, name]
  {
    hide Normalise;
    UpTakesName([], name, [], absolute);
    assert [] + [name] + [UP] + [] == [name, UP];
    NothingToNormalise(absolute);
    if absolute {
      UpStaysAtRoot([name]);
      assert [UP] + [name] == [UP, name] && [] + [name] == [name];
      NormaliseKeepsNormal([], [name], true);
    } else {
      assert [] + [UP, name] == [UP, name];
      NormaliseKeepsNormal([], [UP, name], false);
    }
  }

  lemma NothingToNormalise(absolute: bool)
    ensures Normalise([], [] + [], absolute) == []
  {
  }

  lemma CleanItemsNormal(p: Path)
    ensures IsNormal(CleanItems(p), IsAbsolute(p))
  {
    JoinSplit(p, SEPARATOR);
    NormaliseIsNormal([], Items(p), IsAbsolute(p));
  }

  /** The items of a rendered path: the rendered items, after the empty one a leading separator makes. */
  lemma RenderedItems(items: seq<string>, absolute: bool)
    requires IsNormal(items, absolute) && (items != [] || absolute)
    ensures Items(Render(items, absolute)) ==
            if !absolute then items else if items == [] then ["", ""] else [""] + items
    ensures IsAbsolute(Render(items, absolute)) == absolute
    ensures Render(items, absolute) != ""
  {
    var body := JoinItems(items);
    if items != [] {
      SplitJoin(items, SEPARATOR);
      JoinStartsWithFirst(items);
    } else {
      assert Split(body, SEPARATOR) == [""];
    }
    if absolute {
      SplitConcat("", body, SEPARATOR);
      assert "" + [SEPARATOR] + body == [SEPARATOR] + body;
      assert Split("", SEPARATOR) == [""];
    }
  }

  lemma JoinStartsWithFirst(items: seq<string>)
    requires items != [] && items[0] != ""
    ensures JoinItems(items) != "" && JoinItems(items)[0] == items[0][0]
  {
  }

  /** Rendering is inverse to taking clean items, on items in normal form. */
  lemma CleanItemsOfRender(items: seq<string>, absolute: bool)
    requires IsNormal(items, absolute)
    ensures CleanItems(Render(items, absolute)) == items
    ensures CleanPath(Render(items, absolute)) == Render(items, absolute)
  {
    if items == [] && !absolute {
      SplitFree(HERE, SEPARATOR);
      assert Normalise([], [HERE], false) == Normalise(Push([], HERE, false), [], false);
    } else {
      RenderedItems(items, absolute);
      var parts := Items(Render(items, absolute));
      if absolute {
        assert parts[1..] == if items == [] then [""] else items;
      }
      assert [] + items == items;
      NormaliseKeepsNormal([], items, absolute);
      if items == [] {
        assert Normalise([], [""], absolute) == [];
      }
    }
  }

  /** cleanPath is idempotent. */
  lemma CleanPathIdempotent(p: Path)
    ensures CleanPath(CleanPath(p)) == CleanPath(p)
  {
    CleanItemsNormal(p);
    CleanItemsOfRender(CleanItems(p), IsAbsolute(p));
  }

  /** Without a separator there is a single item, which the normaliser keeps. */
  lemma SingleItemClean(s: string)
    requires s != "" && SEPARATOR !in s
    ensures CleanPath(s) == s
  {
    SplitFree(s, SEPARATOR);
    assert Normalise([], [s], false) == Normalise(Push([], s, false), [], false);
  }

  /** So the constructor cleans every string. */
  lemma MakePathCleans(s: string)
    ensures MakePath(s) == CleanPath(s)
    ensures IsClean(MakePath(s))
  {
    if SEPARATOR !in s && s != "" {
      SingleItemClean(s);
    }
    CleanPathIdempotent(s);
    if SEPARATOR !in CleanPath(s) && CleanPath(s) != "" {
      SingleItemClean(CleanPath(s));
    }
  }

  /** Clean paths are the renderings of normal items: exactly one each. */
  lemma CleanIffRendered(p: Path)
    requires p != ""
    ensures IsClean(p) <==> p == Render(CleanItems(p), IsAbsolute(p))
  {
    MakePathCleans(p);
  }

  lemma RenderedIsClean(items: seq<string>, absolute: bool)
    requires IsNormal(items, absolute)
    ensures IsClean(Render(items, absolute))
    ensures CleanItems(Render(items, absolute)) == items
  {
    CleanItemsOfRender(items, absolute);
    MakePathCleans(Render(items, absolute));
  }

  /** The empty path adds nothing on either side. */
  lemma DivWithEmpty(p: Path)
    ensures Div(p, "") == p && Div("", p) == p
  {
  }

  /** Joining with '/' carries the left path's items on with those of the right path. */
  lemma DivItems(left: Path, right: Path)
    requires left != "" && right != ""
    ensures CleanItems(left + [SEPARATOR] + right)
            == Normalise(CleanItems(left), Items(right), IsAbsolute(left))
    ensures IsAbsolute(left + [SEPARATOR] + right) == IsAbsolute(left)
    ensures Div(left, right) == Render(Normalise(CleanItems(left), Items(right), IsAbsolute(left)), IsAbsolute(left))
  {
    SplitConcat(left, right, SEPARATOR);
    NormaliseConcat([], Items(left), Items(right), IsAbsolute(left));
    MakePathCleans(left + [SEPARATOR] + right);
  }

  /** A clean relative path other than "." is split into its clean items. */
  lemma CleanRelativeItems(p: Path)
    requires IsClean(p) && p != "" && !IsAbsolute(p) && p != HERE
    ensures CleanItems(p) == Items(p) && CleanItems(p) != []
    ensures p == JoinItems(Items(p))
  {
    CleanItemsNormal(p);
    CleanIffRendered(p);
    RenderedItems(CleanItems(p), false);
    JoinSplit(p, SEPARATOR);
  }

  // ----- Absolute clean paths and their names -----

  /** The clean absolute path that these names lead to from "/". */
  function PathOf(names: seq<string>): Path {
    Render(names, true)
  }

  /** Distinct name lists are distinct paths. */
  lemma PathOfInjective(a: seq<string>, b: seq<string>)
    requires AllNames(a) && AllNames(b) && PathOf(a) == PathOf(b)
    ensures a == b
  {
    RenderedIsClean(a, true);
    RenderedIsClean(b, true);
  }

  /** Every clean absolute path is `PathOf` its clean items, which are names. */
  lemma CleanAbsoluteIsPathOf(p: Path)
    requires IsClean(p) && IsAbsolute(p)
    ensures AllNames(CleanItems(p)) && p == PathOf(CleanItems(p))
  {
    CleanItemsNormal(p);
    CleanIffRendered(p);
  }

  /** `directory / name` names the entry of that directory. */
  lemma DivName(names: seq<string>, name: string)
    requires AllNames(names) && IsName(name)
    ensures Div(PathOf(names), name) == PathOf(names + [name])
    ensures IsClean(PathOf(names + [name])) && IsAbsolute(PathOf(names + [name]))
    ensures CleanItems(PathOf(names + [name])) == names + [name]
  {
    RenderedIsClean(names, true);
    RenderedIsClean(names + [name], true);
    DivItems(PathOf(names), name);
    SplitFree(name, SEPARATOR);
    NormaliseNames(names, [name], true);
  }

  // ----- Cleaning neither lengthens a path nor brings in characters -----

  /** The length of the items with a separator after each. */
  function Weight(items: seq<string>): nat {
    if items == [] then 0 else Weight(items[..|items| - 1]) + |items[|items| - 1]| + 1
  }

  lemma {:induction false} WeightConcat(a: seq<string>, b: seq<string>)
    ensures Weight(a + b) == Weight(a) + Weight(b)
    decreases |b|
  {
    if b == [] {
      assert a + b == a;
    } else {
      assert (a + b)[..|a + b| - 1] == a + b[..|b| - 1];
      WeightConcat(a, b[..|b| - 1]);
    }
  }

  lemma {:induction false} JoinWeight(items: seq<string>)
    requires items != []
    ensures |JoinItems(items)| == Weight(items) - 1
    decreases |items|
  {
    assert items == [items[0]] + items[1..];
    WeightConcat([items[0]], items[1..]);
    assert [items[0]][..0] == [];
    if |items| > 1 {
      JoinWeight(items[1..]);
    }
  }

  lemma {:induction false} NormaliseShrinks(stack: seq<string>, items: seq<string>, absolute: bool)
    ensures Weight(Normalise(stack, items, absolute)) <= Weight(stack) + Weight(items)
    decreases items
  {
    if items != [] {
      var item := items[0];
      assert items == [item] + items[1..];
      WeightConcat([item], items[1..]);
      assert [item][..0] == [];
      assert (stack + [item])[..|stack + [item]| - 1] == stack;
      NormaliseShrinks(Push(stack, item, absolute), items[1..], absolute);
    }
  }

  lemma CleanPathShrinks(p: Path)
    ensures |CleanPath(p)| <= |p|
  {
    if p != "" {
      JoinSplit(p, SEPARATOR);
      JoinWeight(Items(p));
      var items, absolute := CleanItems(p), IsAbsolute(p);
      if absolute {
        assert Items(p) == [""] + Items(p)[1..];
        WeightConcat([""], Items(p)[1..]);
        assert [""][..0] == [];
        NormaliseShrinks([], Items(p)[1..], absolute);
      } else {
        NormaliseShrinks([], Items(p), absolute);
      }
      if items != [] {
        JoinWeight(items);
      }
    }
  }

  lemma {:induction false} JoinFree(items: seq<string>, c: char)
    requires Free(items, c) && c != SEPARATOR
    ensures c !in JoinItems(items)
    decreases |items|
  {
    if |items| > 1 {
      JoinFree(items[1..], c);
    }
  }

  lemma {:induction false} SplitKeepsFree(s: string, c: char)
    requires c !in s
    ensures Free(Items(s), c)
    decreases |s|
  {
    if s != "" {
      SplitKeepsFree(s[1..], c);
    }
  }

  lemma {:induction false} NormaliseKeepsFree(stack: seq<string>, items: seq<string>, absolute: bool, c: char)
    requires Free(stack, c) && Free(items, c) && c != '.'
    ensures Free(Normalise(stack, items, absolute), c)
    decreases items
  {
    if items != [] {
      NormaliseKeepsFree(Push(stack, items[0], absolute), items[1..], absolute, c);
    }
  }

  lemma CleanPathKeepsFree(p: Path, c: char)
    requires c !in p && c != SEPARATOR && c != '.'
    ensures c !in CleanPath(p)
  {
    SplitKeepsFree(p, c);
    NormaliseKeepsFree([], Items(p), IsAbsolute(p), c);
    JoinFree(CleanItems(p), c);
  }
}
