/** Allocation of stream paths `/webcam0`, `/webcam1`, ... */
module PathAlloc {
  import Decimal

  function Path(i: nat): string {
    "/webcam" + Decimal.ToString(i)
  }

  lemma PathInjective(i: nat, j: nat)
    requires Path(i) == Path(j)
    ensures i == j
  {
    assert Path(i)[7..] == Decimal.ToString(i) && Path(j)[7..] == Decimal.ToString(j);
    Decimal.DigitsInjective(i, j);
  }

  ghost function FirstPaths(n: nat): set<string> {
    set i | 0 <= i < n :: Path(i)
  }

  lemma {:induction false} FirstPathsSize(n: nat)
    ensures |FirstPaths(n)| == n
  {
    hide Path;
    if n > 0 {
      FirstPathsSize(n - 1);
      if Path(n - 1) in FirstPaths(n - 1) {
        var i :| 0 <= i < n - 1 && Path(n - 1) == Path(i);
        PathInjective(n - 1, i);
      }
      assert FirstPaths(n) == FirstPaths(n - 1) + {Path(n - 1)};
    }
  }

  lemma {:induction false} SubsetSize<T>(a: set<T>, b: set<T>)
    requires a <= b
    ensures |a| <= |b|
  {
    if a != {} {
      var x :| x in a;
      SubsetSize(a - {x}, b - {x});
    }
  }

  lemma {:induction false} ElementsSize<T>(es: seq<T>)
    ensures |set e | e in es| <= |es|
  {
    if es != [] {
      var n := |es| - 1;
      ElementsSize(es[..n]);
      assert (set e | e in es) == (set e | e in es[..n]) + {es[n]} by {
        assert es == es[..n] + [es[n]];
      }
    }
  }

  /** When the first n paths are all in use, there are at least n paths in use. */
  lemma Pigeonhole(paths: seq<string>, n: nat)
    requires forall i | 0 <= i < n :: Path(i) in paths
    ensures n <= |paths|
  {
    hide Path;
    FirstPathsSize(n);
    SubsetSize(FirstPaths(n), set p | p in paths);
    ElementsSize(paths);
  }

  /** The least index whose path is free, looking from `i` up. */
  function FreeFrom(paths: seq<string>, i: nat): (r: nat)
    requires forall j | 0 <= j < i :: Path(j) in paths
    ensures Path(r) !in paths && i <= r <= |paths|
    ensures forall j | 0 <= j < r :: Path(j) in paths
    decreases |paths| - i
  {
    Pigeonhole(paths, i);
    if Path(i) in paths then
      Pigeonhole(paths, i + 1);
      FreeFrom(paths, i + 1)
    else i
  }

  function AllocatedPath(paths: seq<string>): string {
    Path(FreeFrom(paths, 0))
  }

  /** The unbounded search ends after at most |paths| + 1 probes, at the least free index. */
  method AllocPath(paths: seq<string>) returns (p: string, i: nat)
    ensures p == Path(i) && p !in paths && i <= |paths|
    ensures forall j | 0 <= j < i :: Path(j) in paths
    ensures p == AllocatedPath(paths)
  {
    i := 0;
    while true
      invariant forall j | 0 <= j < i :: Path(j) in paths
      invariant FreeFrom(paths, 0) == FreeFrom(paths, i)
      decreases |paths| - i
    {
      p := Path(i);
      var taken := false;
      for k := 0 to |paths|
        invariant !taken && p !in paths[..k]
      {
        assert paths[..k + 1] == paths[..k] + [paths[k]];
        if paths[k] == p { taken := true; break; }
      }
      if !taken {
        assert paths[..|paths|] == paths;
        return;
      }
      Pigeonhole(paths, i + 1);
      i := i + 1;
    }
  }

  /** With the first n paths in use and nothing else, the next one is number n. */
  lemma NextPath(paths: seq<string>)
    requires forall i | 0 <= i < |paths| :: paths[i] == Path(i)
    ensures AllocatedPath(paths) == Path(|paths|)
  {
    forall i | 0 <= i < |paths| ensures Path(i) in paths {
      assert paths[i] == Path(i);
    }
  }
}
