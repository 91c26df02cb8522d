/** `Path::relativePathOf`, with `QDir::relativeFilePath` spelt out. */
module RelativePaths {
  import opened Strings
  import opened Paths
  import opened CleanPaths

  /** "../" once for every directory to leave. */
  function UpSteps(n: nat): string {
    if n == 0 then "" else UP + [SEPARATOR] + UpSteps(n - 1)
  }

  function Ups(n: nat): seq<string> {
    seq(n, _ => UP)
  }

  /** The directory items a file path denotes: a relative one is taken from `dir`. */
  function FileItems(dir: Path, file: Path): seq<string> {
    CleanItems(if IsAbsolute(file) then file else dir + [SEPARATOR] + file)
  }

  /** Drops the common leading items, steps up for those left in `dir`, then down the rest of `file`. */
  function RelativeFilePath(dir: Path, file: Path): string {
    var d, f := CleanItems(dir), FileItems(dir, file);
    var k := CommonLength(d, f);
    var steps := UpSteps(|d| - k) + JoinItems(f[k..]);
    if steps == "" then HERE else steps
  }

  /** `relativePathOf` for an absolute base. */
  function RelativePathOf(dir: Path, file: Path): Path {
    MakePath(RelativeFilePath(dir, file))
  }

  lemma {:induction false} SplitUpSteps(n: nat, tail: string)
    ensures Items(UpSteps(n) + tail) == Ups(n) + Items(tail)
  {
    if n == 0 {
      assert UpSteps(0) + tail == tail;
      assert Ups(0) == [];
    } else {
      SplitUpSteps(n - 1, tail);
      assert UpSteps(n) + tail == UP + [SEPARATOR] + (UpSteps(n - 1) + tail);
      SplitConcat(UP, UpSteps(n - 1) + tail, SEPARATOR);
      SplitFree(UP, SEPARATOR);
      assert Ups(n) == [UP] + Ups(n - 1);
    }
  }

  lemma FileItemsAreNames(dir: Path, file: Path)
    requires IsAbsolute(dir)
    ensures AllNames(CleanItems(dir)) && AllNames(FileItems(dir, file))
  {
    CleanItemsNormal(dir);
    CleanItemsNormal(if IsAbsolute(file) then file else dir + [SEPARATOR] + file);
  }

  lemma UpsThenNames(n: nat, rest: seq<string>)
    requires AllNames(rest)
    ensures IsNormal(Ups(n) + rest, false)
    ensures Normalise([], Ups(n) + rest, false) == Ups(n) + rest
  {
    assert [] + (Ups(n) + rest) == Ups(n) + rest;
    NormaliseKeepsNormal([], Ups(n) + rest, false);
  }

  /** The written steps come down to the up-steps and the names. */
  lemma StepsAreClean(n: nat, rest: seq<string>)
    requires AllNames(rest) && (n > 0 || rest != [])
    ensures var steps := UpSteps(n) + JoinItems(rest);
            steps != "" && !IsAbsolute(steps) && CleanItems(steps) == Ups(n) + rest
  {
    var steps := UpSteps(n) + JoinItems(rest);
    SplitUpSteps(n, JoinItems(rest));
    UpsThenNames(n, rest);
    if rest != [] {
      SplitJoin(rest, SEPARATOR);
      JoinStartsWithFirst(rest);
    }
    assert steps[0] != SEPARATOR by {
      assert n > 0 ==> steps[0] == UP[0];
    }
    if rest == [] {
      SplitFree("", SEPARATOR);
      NormaliseConcat([], Ups(n), [""], false);
      assert Ups(n) + rest == Ups(n);
      assert Normalise(Ups(n), [""], false) == Normalise(Push(Ups(n), "", false), [], false);
    }
  }

  /** The relative path is clean and has exactly the up-steps and the remaining names as items. */
  lemma RelativePathIs(dir: Path, file: Path)
    requires IsAbsolute(dir)
    ensures var d, f := CleanItems(dir), FileItems(dir, file);
            var k := CommonLength(d, f);
            && IsNormal(Ups(|d| - k) + f[k..], false)
            && RelativePathOf(dir, file) == Render(Ups(|d| - k) + f[k..], false)
  {
    hide CleanItems;
    hide FileItems;
    hide CleanPath;
    hide MakePath;
    hide Render;
    hide Ups;
    hide UpSteps;
    hide JoinItems;
    hide IsNormal;
    FileItemsAreNames(dir, file);
    var d, f := CleanItems(dir), FileItems(dir, file);
    var k := CommonLength(d, f);
    var n, rest := |d| - k, f[k..];
    UpsThenNames(n, rest);
    MakePathCleans(RelativeFilePath(dir, file));
    WrittenSteps(n, rest);
  }

  /** The steps as written, cleaned. */
  lemma WrittenSteps(n: nat, rest: seq<string>)
    requires AllNames(rest)
    ensures var steps := UpSteps(n) + JoinItems(rest);
            CleanPath(if steps == "" then HERE else steps) == Render(Ups(n) + rest, false)
  {
    if n > 0 || rest != [] {
      StepsAreClean(n, rest);
    } else {
      assert Ups(n) + rest == [];
      CleanItemsOfRender([], false);
    }
  }

  /** Stepping up `n` times takes the last `n` names away. */
  lemma {:induction false} NormaliseUps(names: seq<string>, n: nat)
    requires AllNames(names) && n <= |names|
    ensures Normalise(names, Ups(n), true) == names[..|names| - n]
    decreases n
  {
    if n == 0 {
      assert names[..|names|] == names;
    } else {
      assert Ups(n)[1..] == Ups(n - 1);
      NormaliseUps(names[..|names| - 1], n - 1);
      assert names[..|names| - 1][..|names| - n] == names[..|names| - n];
    }
  }

  /** From the items `d`, the up-steps and the remaining names lead to `f`. */
  lemma FollowSteps(d: seq<string>, f: seq<string>, k: nat)
    requires AllNames(d) && AllNames(f)
    requires k <= |d| && k <= |f| && d[..k] == f[..k]
    ensures Normalise(d, Ups(|d| - k) + f[k..], true) == f
  {
    var n := |d| - k;
    assert d[..|d| - n] == f[..k];
    assert AllNames(f[k..]);
    calc {
      Normalise(d, Ups(n) + f[k..], true);
    == { NormaliseConcat(d, Ups(n), f[k..], true); }
      Normalise(Normalise(d, Ups(n), true), f[k..], true);
    == { NormaliseUps(d, n); }
      Normalise(f[..k], f[k..], true);
    == { NormaliseNames(f[..k], f[k..], true); }
      f[..k] + f[k..];
    == { assert f[..k] + f[k..] == f; }
      f;
    }
  }

  lemma RenderedHereItems(stack: seq<string>)
    ensures Normalise(stack, Items(Render([], false)), true) == stack
  {
    SplitFree(HERE, SEPARATOR);
    assert Normalise(stack, [HERE], true) == Normalise(Push(stack, HERE, true), [], true);
  }

  /** Following rendered steps from an absolute path. */
  lemma FollowRendered(dir: Path, steps: seq<string>)
    requires IsAbsolute(dir) && IsNormal(steps, false)
    ensures Div(dir, Render(steps, false)) == PathOf(Normalise(CleanItems(dir), steps, true))
  {
    hide CleanItems;
    if steps == [] {
      RenderedHereItems(CleanItems(dir));
    } else {
      RenderedItems(steps, false);
    }
    DivItems(dir, Render(steps, false));
  }

  /** Following the relative path from its base leads back to the file. */
  lemma RelativeLeadsBack(dir: Path, file: Path)
    requires IsAbsolute(dir)
    ensures Div(dir, RelativePathOf(dir, file)) == PathOf(FileItems(dir, file))
  {
    hide CleanItems;
    hide FileItems;
    hide IsNormal;
    hide Ups;
    hide Normalise;
    hide RelativePathOf;
    hide Render;
    hide Div;
    FileItemsAreNames(dir, file);
    RelativePathIs(dir, file);
    var d, f := CleanItems(dir), FileItems(dir, file);
    var k := CommonLength(d, f);
    FollowSteps(d, f, k);
    FollowRendered(dir, Ups(|d| - k) + f[k..]);
  }

  // ----- Relative bases -----

  /** The base taken as an absolute path: two relative paths are taken from `home`, a lone relative base from `current`. */
  function BaseFrom(home: Path, current: Path, dir: Path, file: Path): Path {
    if IsAbsolute(dir) then dir
    else (if IsAbsolute(file) then current else home) + [SEPARATOR] + dir
  }

  function FileFrom(home: Path, dir: Path, file: Path): Path {
    if IsAbsolute(dir) || IsAbsolute(file) then file else home + [SEPARATOR] + file
  }

  /** `relativePathOf` for all paths, with the home and the current directory. */
  function RelativePathFrom(home: Path, current: Path, dir: Path, file: Path): Path {
    RelativePathOf(BaseFrom(home, current, dir, file), FileFrom(home, dir, file))
  }

  /** From a base of either kind the relative path leads to the file. */
  lemma RelativePathFromLeadsBack(home: Path, current: Path, dir: Path, file: Path)
    requires IsAbsolute(home) && IsAbsolute(current)
    ensures var relative := RelativePathFrom(home, current, dir, file);
            && (IsAbsolute(dir) ==> Div(dir, relative) == MakePath(if IsAbsolute(file) then file else dir + "/" + file))
            && (!IsAbsolute(dir) && IsAbsolute(file) ==> Div(current + "/" + dir, relative) == MakePath(file))
            && (!IsAbsolute(dir) && !IsAbsolute(file) ==> Div(home + "/" + dir, relative) == MakePath(home + "/" + file))
  {
    hide CleanItems;
    hide Div;
    hide MakePath;
    hide RelativePathOf;
    var base, target := BaseFrom(home, current, dir, file), FileFrom(home, dir, file);
    RelativeLeadsBack(base, target);
    MakePathCleans(if IsAbsolute(target) then target else base + [SEPARATOR] + target);
  }

  lemma {:induction false} CommonBehind(h: seq<string>, a: seq<string>, b: seq<string>)
    ensures CommonLength(h + a, h + b) == |h| + CommonLength(a, b)
  {
    var n := CommonLength(a, b);
    assert (h + a)[..|h| + n] == h + a[..n] && (h + b)[..|h| + n] == h + b[..n];
    CommonLengthIs(h + a, h + b, |h| + n);
  }

  lemma BelowHome(home: Path, p: Path)
    requires IsAbsolute(home) && p != "" && AllNames(Items(p))
    ensures CleanItems(home + [SEPARATOR] + p) == CleanItems(home) + Items(p)
    ensures IsAbsolute(home + [SEPARATOR] + p)
  {
    DivItems(home, p);
    NormaliseNames(CleanItems(home), Items(p), true);
  }

  lemma NamesAreNotAbsolute(p: Path)
    requires AllNames(Items(p))
    ensures !IsAbsolute(p) && p != ""
  {
    SplitFirst(p, SEPARATOR);
    assert IsName(Items(p)[0]);
  }

  /** Between two relative paths made of names the result lists only their own items: where they are taken from makes no difference. */
  lemma RelativePairIgnoresHome(home: Path, current: Path, dir: Path, file: Path)
    requires IsAbsolute(home) && IsAbsolute(current) && AllNames(Items(dir)) && AllNames(Items(file))
    ensures var k := CommonLength(Items(dir), Items(file));
            RelativePathFrom(home, current, dir, file) == Render(Ups(|Items(dir)| - k) + Items(file)[k..], false)
  {
    hide CleanItems;
    hide Items;
    hide Render;
    hide Ups;
    hide RelativePathOf;
    hide IsAbsolute;
    hide CommonLength;
    NamesAreNotAbsolute(dir);
    NamesAreNotAbsolute(file);
    BelowHome(home, dir);
    BelowHome(home, file);
    var h, a, b := CleanItems(home), Items(dir), Items(file);
    var k := CommonLength(a, b);
    RelativePathIs(home + [SEPARATOR] + dir, home + [SEPARATOR] + file);
    CommonBehind(h, a, b);
    assert (h + b)[|h| + k..] == b[k..];
  }

  /** The relative path of something below a directory lists the names in between. */
  lemma RelativePathBelow(names: seq<string>, below: seq<string>)
    requires AllNames(names) && AllNames(below)
    ensures RelativePathOf(PathOf(names), PathOf(names + below)) == Render(below, false)
  {
    RenderedIsClean(names, true);
    RenderedIsClean(names + below, true);
    RelativePathIs(PathOf(names), PathOf(names + below));
    assert (names + below)[..|names|] == names[..|names|];
    CommonLengthIs(names, names + below, |names|);
    assert Ups(0) + (names + below)[|names|..] == below;
  }
}
