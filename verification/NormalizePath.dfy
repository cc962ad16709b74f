/** The in-place path normaliser, against a stack of components. */
module NormalizePath {
  import opened Common

  const MAX_PATH: nat := 1024

  // ----- components

  /** The length of the component at the start of s. */
  function Slash(s: string): (k: nat)
    ensures k <= |s| && '/' !in s[..k] && (k < |s| ==> s[k] == '/')
  {
    if s == [] || s[0] == '/' then 0
    else
      var k := 1 + Slash(s[1..]);
      assert s[..k] == [s[0]] + s[1..][..k-1];
      k
  }

  function SkipSlashes(s: string): (r: string)
    ensures |r| <= |s|
  {
    if s != [] && s[0] == '/' then SkipSlashes(s[1..]) else s
  }

  function Pop<T>(stack: seq<T>): seq<T> { if stack == [] then [] else stack[..|stack|-1] }

  /** Directories, each with its slash. */
  function Flat(dirs: seq<string>): string {
    if dirs == [] then "" else Flat(Pop(dirs)) + dirs[|dirs|-1] + "/"
  }

  datatype Path = Path(dirs: seq<string>, file: string)

  function Render(p: Path): string { "/" + Flat(p.dirs) + p.file }

  /** The reference: components are pushed on a stack, "." is dropped and ".." pops.  A run of
      slashes counts as one, except right after "." or "..", where an empty component is kept. */
  function Reduce(s: string, dirs: seq<string>): Path
    decreases |s|
  {
    var k := Slash(s);
    var comp, rest := s[..k], if k < |s| then s[k+1..] else "";
    if comp == "." then (if k == |s| then Path(dirs, "") else Reduce(rest, dirs))
    else if comp == ".." then (if k == |s| then Path(Pop(dirs), "") else Reduce(rest, Pop(dirs)))
    else if k == |s| then Path(dirs, comp)
    else Reduce(SkipSlashes(rest), dirs + [comp])
  }

  /** The normal form of an absolute path. */
  function Normal(path: string): Path
    requires path != []
  {
    Reduce(SkipSlashes(path[1..]), [])
  }

  // ----- what the reference guarantees

  predicate Plain(c: string) { c != "." && c != ".." && '/' !in c }

  predicate AllPlain(dirs: seq<string>) { forall i :: 0 <= i < |dirs| ==> Plain(dirs[i]) }

  /** The last component: what is left of the path has no slash. */
  lemma ReduceEnd(s: string, dirs: seq<string>)
    requires '/' !in s
    ensures Reduce(s, dirs) ==
            if s == "." then Path(dirs, "") else if s == ".." then Path(Pop(dirs), "") else Path(dirs, s)
  {
    SlashUnique(s, |s|);
    assert s[..|s|] == s;
  }

  /** One component and its slash. */
  lemma ReduceStep(d: string, tail: string, dirs: seq<string>)
    requires '/' !in d
    ensures Reduce(d + "/" + tail, dirs) ==
            if d == "." then Reduce(tail, dirs) else if d == ".." then Reduce(tail, Pop(dirs))
            else Reduce(SkipSlashes(tail), dirs + [d])
  {
    ComponentOf(d, tail);
  }

  lemma CutAt(s: string, k: nat)
    requires k < |s| && s[k] == '/'
    ensures s == s[..k] + "/" + s[k+1..]
  {
  }

  lemma {:induction false} ReducePlain(s: string, dirs: seq<string>)
    requires AllPlain(dirs)
    ensures AllPlain(Reduce(s, dirs).dirs) && Plain(Reduce(s, dirs).file)
    decreases |s|
  {
    var k := Slash(s);
    if k == |s| {
      assert s[..k] == s;
      ReduceEnd(s, dirs);
    } else {
      var d, tail := s[..k], s[k+1..];
      CutAt(s, k);
      ReduceStep(d, tail, dirs);
      if d == "." {
        ReducePlain(tail, dirs);
      } else if d == ".." {
        ReducePlain(tail, Pop(dirs));
      } else {
        ReducePlain(SkipSlashes(tail), dirs + [d]);
      }
    }
  }

  lemma {:induction false} ReduceShortens(s: string, dirs: seq<string>)
    ensures |Flat(Reduce(s, dirs).dirs)| + |Reduce(s, dirs).file| <= |Flat(dirs)| + |s|
    decreases |s|
  {
    var k := Slash(s);
    if k == |s| {
      assert s[..k] == s;
      ReduceEnd(s, dirs);
    } else {
      var d, tail := s[..k], s[k+1..];
      CutAt(s, k);
      ReduceStep(d, tail, dirs);
      if d == "." {
        ReduceShortens(tail, dirs);
      } else if d == ".." {
        ReduceShortens(tail, Pop(dirs));
      } else {
        FlatPush(dirs, d);
        ReduceShortens(SkipSlashes(tail), dirs + [d]);
      }
    }
  }

  lemma FlatPush(dirs: seq<string>, d: string)
    ensures Flat(dirs + [d]) == Flat(dirs) + d + "/"
  {
    assert Pop(dirs + [d]) == dirs;
  }

  function Components(s: string): seq<string>
    decreases |s|
  {
    var k := Slash(s);
    if k == |s| then [s] else [s[..k]] + Components(s[k+1..])
  }

  lemma {:induction false} ComponentsFlat(dirs: seq<string>, tail: string)
    requires AllPlain(dirs)
    ensures Components(Flat(dirs) + tail) == dirs + Components(tail)
    decreases |dirs|
  {
    if dirs == [] {
      assert Flat(dirs) + tail == tail;
    } else {
      var d := dirs[|dirs|-1];
      assert Flat(dirs) + tail == Flat(Pop(dirs)) + (d + "/" + tail);
      ComponentsFlat(Pop(dirs), d + "/" + tail);
      ComponentsStep(d, tail);
      Regroup(dirs, Components(tail));
    }
  }

  lemma OneComponent(s: string)
    requires '/' !in s
    ensures Components(s) == [s]
  {
    SlashUnique(s, |s|);
  }

  lemma Regroup(dirs: seq<string>, cs: seq<string>)
    requires dirs != []
    ensures Pop(dirs) + ([dirs[|dirs|-1]] + cs) == dirs + cs
  {
  }

  lemma ComponentsStep(d: string, tail: string)
    requires '/' !in d
    ensures Components(d + "/" + tail) == [d] + Components(tail)
  {
    ComponentOf(d, tail);
  }

  /** A rendered path splits back into its directories and its file. */
  lemma ComponentsOfRender(p: Path)
    requires AllPlain(p.dirs) && Plain(p.file)
    ensures Components(Render(p)) == [""] + p.dirs + [p.file]
  {
    var s := Flat(p.dirs) + p.file;
    assert Render(p) == "" + "/" + s;
    ComponentsStep("", s);
    ComponentsFlat(p.dirs, p.file);
    OneComponent(p.file);
    assert [""] + (p.dirs + [p.file]) == [""] + p.dirs + [p.file];
  }

  /** The result of normalising: no "." and no ".." component, and no longer than the path. */
  lemma NormalIsClean(path: string)
    requires path != []
    ensures var r := Render(Normal(path));
            && r[0] == '/' && |r| <= |path|
            && "." !in Components(r) && ".." !in Components(r)
  {
    var n := Normal(path);
    ReducePlain(SkipSlashes(path[1..]), []);
    ReduceShortens(SkipSlashes(path[1..]), []);
    ComponentsOfRender(n);
    assert Plain("");
    var cs := [""] + n.dirs + [n.file];
    assert forall i :: 0 <= i < |cs| ==> Plain(cs[i]);
  }

  // ----- where a path leads

  /** Walking from a location: empty components and "." stay, ".." goes up, a name goes down. */
  function Go(loc: seq<string>, comp: string): seq<string> {
    if comp == "" || comp == "." then loc else if comp == ".." then Pop(loc) else loc + [comp]
  }

  function Walk(s: string, loc: seq<string>): seq<string>
    decreases |s|
  {
    var k := Slash(s);
    if k == |s| then Go(loc, s) else Walk(s[k+1..], Go(loc, s[..k]))
  }

  lemma {:induction false} WalkSkips(s: string, loc: seq<string>)
    ensures Walk(SkipSlashes(s), loc) == Walk(s, loc)
  {
    if s != [] && s[0] == '/' {
      assert Slash(s) == 0 && s[..0] == "";
      WalkSkips(s[1..], loc);
    }
  }

  lemma {:induction false} SkippedStart(s: string)
    ensures SkipSlashes(s) != [] ==> SkipSlashes(s)[0] != '/'
  {
    if s != [] && s[0] == '/' { SkippedStart(s[1..]); }
  }

  /** The components that have a name; walking the others stays in place. */
  ghost function Names(dirs: seq<string>): seq<string> {
    if dirs == [] then [] else Go(Names(Pop(dirs)), dirs[|dirs|-1])
  }

  lemma {:induction false} NamesPush(dirs: seq<string>, d: string)
    ensures Names(dirs + [d]) == Go(Names(dirs), d)
  {
    assert Pop(dirs + [d]) == dirs;
  }

  /** Walking a rendered path visits its directories and then its file. */
  lemma {:induction false} WalkFlat(dirs: seq<string>, tail: string)
    requires AllPlain(dirs)
    ensures Walk(Flat(dirs) + tail, []) == Walk(tail, Names(dirs))
    decreases |dirs|
  {
    if dirs == [] {
      assert Flat(dirs) + tail == tail;
    } else {
      var d := dirs[|dirs|-1];
      assert Flat(dirs) + tail == Flat(Pop(dirs)) + (d + "/" + tail);
      WalkFlat(Pop(dirs), d + "/" + tail);
      WalkStep(d, tail, Names(Pop(dirs)));
    }
  }

  lemma ComponentOf(d: string, tail: string)
    requires '/' !in d
    ensures var s := d + "/" + tail;
            Slash(s) == |d| && s[..|d|] == d && s[|d|+1..] == tail
  {
    var s := d + "/" + tail;
    assert s[..|d|] == d && s[|d|] == '/' && s[|d|+1..] == tail;
    SlashUnique(s, |d|);
  }

  lemma SlashUnique(s: string, k: nat)
    requires k <= |s| && '/' !in s[..k] && (k < |s| ==> s[k] == '/')
    ensures Slash(s) == k
  {
    var j := Slash(s);
    assert forall i :: 0 <= i < k ==> s[i] == s[..k][i];
    assert forall i :: 0 <= i < j ==> s[i] == s[..j][i];
  }

  // ----- exactly when the result leads to the same place

  /** How many kept components have a name. */
  function Count(kept: seq<bool>): nat {
    if kept == [] then 0 else Count(Pop(kept)) + if kept[|kept|-1] then 1 else 0
  }

  /** One scan of the components: `kept` says of every component that is kept whether it has a
      name, `depth` is how deep the path has really led.  The result is by how much the named
      components that remain outnumber the depth that was reached. */
  function Lag(s: string, kept: seq<bool>, depth: nat): int
    decreases |s|
  {
    var k := Slash(s);
    var comp, rest := s[..k], if k < |s| then s[k+1..] else "";
    var kept', depth' := KeptAfter(kept, comp), DepthAfter(depth, comp);
    if k == |s| then Count(kept') - depth'
    else Lag(if comp == "." || comp == ".." then rest else SkipSlashes(rest), kept', depth')
  }

  function KeptAfter(kept: seq<bool>, comp: string): seq<bool> {
    if comp == "." then kept else if comp == ".." then Pop(kept) else kept + [comp != ""]
  }

  function DepthAfter(depth: nat, comp: string): nat {
    if comp == "" || comp == "." then depth
    else if comp != ".." then depth + 1
    else if depth == 0 then 0 else depth - 1
  }

  lemma LagEnd(s: string, kept: seq<bool>, depth: nat)
    requires '/' !in s
    ensures Lag(s, kept, depth) == Count(KeptAfter(kept, s)) - DepthAfter(depth, s)
  {
    SlashUnique(s, |s|);
    assert s[..|s|] == s;
  }

  lemma LagStep(d: string, tail: string, kept: seq<bool>, depth: nat)
    requires '/' !in d
    ensures Lag(d + "/" + tail, kept, depth) ==
            Lag(if d == "." || d == ".." then tail else SkipSlashes(tail), KeptAfter(kept, d), DepthAfter(depth, d))
  {
    ComponentOf(d, tail);
  }

  /** Which of the kept components have a name. */
  ghost function Marks(dirs: seq<string>): seq<bool> {
    if dirs == [] then [] else Marks(Pop(dirs)) + [dirs[|dirs|-1] != ""]
  }

  lemma MarksPush(dirs: seq<string>, d: string)
    ensures Marks(dirs + [d]) == Marks(dirs) + [d != ""]
  {
    assert Pop(dirs + [d]) == dirs;
  }

  lemma MarksPop(dirs: seq<string>)
    ensures Marks(Pop(dirs)) == Pop(Marks(dirs))
  {
  }

  lemma {:induction false} CountMarks(dirs: seq<string>)
    requires AllPlain(dirs)
    ensures Count(Marks(dirs)) == |Names(dirs)|
    decreases |dirs|
  {
    if dirs != [] {
      CountMarks(Pop(dirs));
      MarksPop(dirs);
    }
  }

  /** The place reached is never deeper than the names kept, and only differs by being less deep. */
  ghost predicate Behind(loc: seq<string>, dirs: seq<string>) {
    |loc| <= |Names(dirs)| && (|loc| == |Names(dirs)| ==> loc == Names(dirs))
  }

  lemma BehindPush(loc: seq<string>, dirs: seq<string>, c: string)
    requires Behind(loc, dirs) && Plain(c)
    ensures Behind(Go(loc, c), dirs + [c])
  {
    NamesPush(dirs, c);
  }

  lemma BehindPop(loc: seq<string>, dirs: seq<string>)
    requires Behind(loc, dirs) && AllPlain(dirs)
    ensures Behind(Pop(loc), Pop(dirs))
  {
    if dirs != [] && dirs[|dirs|-1] != "" {
      assert Names(Pop(dirs)) == Pop(Names(dirs));
    }
  }

  /** The stack of the reference once the file is pushed on it. */
  ghost function AllOf(p: Path): seq<string> { p.dirs + [p.file] }

  /** The reference and a walk side by side: the walk ends behind the reference, by the lag. */
  lemma {:induction false} ReduceWalks(s: string, dirs: seq<string>, loc: seq<string>)
    requires AllPlain(dirs) && Behind(loc, dirs)
    ensures var all := AllOf(Reduce(s, dirs));
            && Behind(Walk(s, loc), all)
            && Lag(s, Marks(dirs), |loc|) == |Names(all)| - |Walk(s, loc)|
    decreases |s|
  {
    var k := Slash(s);
    if k == |s| {
      assert s[..k] == s;
      WalksEnd(s, dirs, loc);
    } else {
      var d, tail := s[..k], s[k+1..];
      CutAt(s, k);
      StepTogether(d, tail, dirs, loc);
      KeepBehind(d, dirs, loc);
      ReduceWalks(After(d, tail), DirsAfter(dirs, d), Go(loc, d));
    }
  }

  /** What is left of the path after a component and its slash. */
  ghost function After(d: string, tail: string): (r: string)
    ensures |r| <= |tail|
  {
    if d == "." || d == ".." then tail else SkipSlashes(tail)
  }

  /** The stack of the reference after a component. */
  ghost function DirsAfter(dirs: seq<string>, d: string): seq<string> {
    if d == "." then dirs else if d == ".." then Pop(dirs) else dirs + [d]
  }

  /** One component: the reference, the walk and the scan take it together. */
  lemma {:induction false} StepTogether(d: string, tail: string, dirs: seq<string>, loc: seq<string>)
    requires '/' !in d
    ensures var s, r := d + "/" + tail, After(d, tail);
            && Reduce(s, dirs) == Reduce(r, DirsAfter(dirs, d))
            && Walk(s, loc) == Walk(r, Go(loc, d))
            && Lag(s, Marks(dirs), |loc|) == Lag(r, Marks(DirsAfter(dirs, d)), |Go(loc, d)|)
  {
    ReduceStep(d, tail, dirs);
    WalkStep(d, tail, loc);
    WalkSkips(tail, Go(loc, d));
    LagStep(d, tail, Marks(dirs), |loc|);
    MarksAfter(d, dirs);
  }

  lemma {:induction false} MarksAfter(d: string, dirs: seq<string>)
    ensures Marks(DirsAfter(dirs, d)) == KeptAfter(Marks(dirs), d)
  {
    if d == ".." { MarksPop(dirs); } else if d != "." { MarksPush(dirs, d); }
  }

  lemma {:induction false} KeepBehind(d: string, dirs: seq<string>, loc: seq<string>)
    requires '/' !in d && AllPlain(dirs) && Behind(loc, dirs)
    ensures AllPlain(DirsAfter(dirs, d)) && Behind(Go(loc, d), DirsAfter(dirs, d))
  {
    if d == ".." { BehindPop(loc, dirs); } else if d != "." { BehindPush(loc, dirs, d); }
  }

  lemma WalkEnd(s: string, loc: seq<string>)
    requires '/' !in s
    ensures Walk(s, loc) == Go(loc, s)
  {
    SlashUnique(s, |s|);
  }

  lemma {:induction false} WalksEnd(s: string, dirs: seq<string>, loc: seq<string>)
    requires '/' !in s && AllPlain(dirs) && Behind(loc, dirs)
    ensures var all := AllOf(Reduce(s, dirs));
            && Behind(Walk(s, loc), all)
            && Lag(s, Marks(dirs), |loc|) == |Names(all)| - |Walk(s, loc)|
  {
    ReduceEnd(s, dirs);
    LagEnd(s, Marks(dirs), |loc|);
    WalkEnd(s, loc);
    if s == "." {
      NoFile(loc, dirs);
    } else if s == ".." {
      BehindPop(loc, dirs);
      MarksPop(dirs);
      NoFile(Pop(loc), Pop(dirs));
    } else {
      WithFile(loc, dirs, s);
    }
  }

  lemma WithFile(loc: seq<string>, dirs: seq<string>, file: string)
    requires AllPlain(dirs) && Behind(loc, dirs) && Plain(file)
    ensures var all := AllOf(Path(dirs, file));
            && Behind(Go(loc, file), all)
            && Count(Marks(dirs) + [file != ""]) == |Names(all)|
  {
    BehindPush(loc, dirs, file);
    MarksPush(dirs, file);
    CountMarks(dirs + [file]);
  }

  /** An empty file name changes nothing. */
  lemma NoFile(loc: seq<string>, dirs: seq<string>)
    requires AllPlain(dirs) && Behind(loc, dirs)
    ensures Behind(loc, AllOf(Path(dirs, ""))) && Count(Marks(dirs)) == |Names(AllOf(Path(dirs, "")))|
  {
    NamesPush(dirs, "");
    CountMarks(dirs);
  }

  /** Normalising leaves the place a path leads to unchanged if and only if the scan ends without
      a lag, that is, if no ".." that should have left a directory was spent on an empty component
      for good. */
  lemma NormalLeadsToSamePlace(path: string)
    requires path != [] && path[0] == '/'
    ensures Walk(Render(Normal(path)), []) == Walk(path, []) <==> Lag(SkipSlashes(path[1..]), [], 0) == 0
  {
    var s, r := SkipSlashes(path[1..]), Normal(path);
    WalkSkips(path[1..], []);
    WalkFrom(path);
    ReduceWalks(s, [], []);
    ReducePlain(s, []);
    WalkRendered(r);
  }

  lemma WalkRendered(r: Path)
    requires AllPlain(r.dirs) && Plain(r.file)
    ensures Walk(Render(r), []) == Names(AllOf(r))
  {
    var s := Flat(r.dirs) + r.file;
    assert Render(r) == "/" + s;
    WalkSlash(s);
    WalkFlat(r.dirs, r.file);
    WalkEnd(r.file, Names(r.dirs));
    NamesPush(r.dirs, r.file);
  }

  lemma WalkSlash(s: string)
    ensures Walk("/" + s, []) == Walk(s, [])
  {
    assert ("/" + s)[1..] == s;
    WalkFrom("/" + s);
  }

  /** No "." or ".." component is followed by an empty one. */
  predicate NoEmptyAfterDots(s: string)
    decreases |s|
  {
    var k := Slash(s);
    k < |s| ==>
      if s[..k] == "." || s[..k] == ".." then (k + 1 < |s| ==> s[k+1] != '/') && NoEmptyAfterDots(s[k+1..])
      else NoEmptyAfterDots(SkipSlashes(s[k+1..]))
  }

  /** In particular the place is unchanged when no dot component is followed by an empty one. */
  lemma NoEmptyNoLag(path: string)
    requires path != [] && path[0] == '/' && NoEmptyAfterDots(SkipSlashes(path[1..]))
    ensures Walk(Render(Normal(path)), []) == Walk(path, [])
  {
    SkippedStart(path[1..]);
    AllNamed(SkipSlashes(path[1..]), []);
    NormalLeadsToSamePlace(path);
  }

  lemma {:induction false} AllNamed(s: string, kept: seq<bool>)
    requires NoEmptyAfterDots(s) && (s != [] ==> s[0] != '/') && Count(kept) == |kept|
    ensures Lag(s, kept, |kept|) == 0
    decreases |s|
  {
    var k := Slash(s);
    var comp := s[..k];
    CountAfter(kept, comp);
    if k == |s| {
      assert comp == s;
      LagEnd(s, kept, |kept|);
    } else {
      var tail := s[k+1..];
      CutAt(s, k);
      LagStep(comp, tail, kept, |kept|);
      if comp == "." || comp == ".." {
        AllNamed(tail, KeptAfter(kept, comp));
      } else {
        assert comp[0] == s[0];
        SkippedStart(tail);
        AllNamed(SkipSlashes(tail), KeptAfter(kept, comp));
      }
    }
  }

  /** While every kept component has a name, the names are as many as the depth. */
  lemma {:induction false} CountAfter(kept: seq<bool>, comp: string)
    requires Count(kept) == |kept|
    ensures var kept' := KeptAfter(kept, comp);
            Count(kept') == DepthAfter(|kept|, comp) && (comp != "" ==> |kept'| == DepthAfter(|kept|, comp))
  {
    if comp == ".." {
      CountPop(kept);
    } else if comp != "." {
      CountPush(kept, comp != "");
    }
  }

  lemma {:induction false} CountPush(kept: seq<bool>, named: bool)
    ensures Count(kept + [named]) == Count(kept) + if named then 1 else 0
  {
    assert Pop(kept + [named]) == kept;
  }

  lemma {:induction false} CountPop(kept: seq<bool>)
    requires Count(kept) == |kept|
    ensures Count(Pop(kept)) == |Pop(kept)|
  {
    CountAtMost(Pop(kept));
  }

  lemma {:induction false} CountAtMost(kept: seq<bool>)
    ensures Count(kept) <= |kept|
  {
    if kept != [] { CountAtMost(Pop(kept)); }
  }

  lemma WalkFrom(path: string)
    requires path != [] && path[0] == '/'
    ensures Walk(path, []) == Walk(path[1..], [])
  {
    assert Slash(path) == 0 && path[..0] == "";
  }

  /** A dot component followed by an empty one, and then t. */
  function DotEmpty(t: string): string { "." + "/" + ("" + "/" + t) }

  function UpTo(b: string): string { ".." + "/" + b }

  /** The path that enters a, stays through ".", meets an empty component, goes up and enters b. */
  function Detour(a: string, b: string): string { "/" + (a + "/" + DotEmpty(UpTo(b))) }

  /** The exception is real, for any two names: ".." takes back the empty component that "."
      let in, so /a/.//../b becomes /a/b although it leads to /b. */
  lemma EmptyAfterDotChangesPlace(a: string, b: string)
    requires Plain(a) && Plain(b) && a != "" && b != ""
    ensures Walk(Detour(a, b), []) == [b]
    ensures Normal(Detour(a, b)) == Path([a], b)
  {
    DetourWalk(a, b);
    DetourReduce(a, b);
  }

  lemma DetourWalk(a: string, b: string)
    requires Plain(a) && Plain(b) && a != "" && b != ""
    ensures Walk(Detour(a, b), []) == [b]
  {
    var t := DotEmpty(UpTo(b));
    WalkFrom(Detour(a, b));
    assert Detour(a, b)[1..] == a + "/" + t;
    WalkStep(a, t, []);
    assert Go([], a) == [a];
    WalkDotEmpty(UpTo(b), [a]);
    WalkUpTo(b, [a]);
  }

  lemma DetourReduce(a: string, b: string)
    requires Plain(a) && Plain(b) && a != "" && b != ""
    ensures Normal(Detour(a, b)) == Path([a], b)
  {
    var t := DotEmpty(UpTo(b));
    var s := a + "/" + t;
    assert Detour(a, b)[1..] == s;
    assert s[0] == a[0] && a[0] in a;
    ReduceStep(a, t, []);
    assert [] + [a] == [a];
    ReduceDotEmpty(UpTo(b), [a]);
    ReduceUpTo(b, [a] + [""]);
    assert Pop([a] + [""]) == [a];
  }

  lemma WalkDotEmpty(t: string, loc: seq<string>)
    ensures Walk(DotEmpty(t), loc) == Walk(t, loc)
  {
    WalkStep(".", "" + "/" + t, loc);
    WalkStep("", t, loc);
  }

  lemma ReduceDotEmpty(t: string, dirs: seq<string>)
    requires t != [] && t[0] != '/'
    ensures Reduce(DotEmpty(t), dirs) == Reduce(t, dirs + [""])
    ensures SkipSlashes(DotEmpty(t)) == DotEmpty(t)
  {
    ReduceStep(".", "" + "/" + t, dirs);
    ReduceStep("", t, dirs);
  }

  lemma WalkUpTo(b: string, loc: seq<string>)
    requires Plain(b) && b != ""
    ensures Walk(UpTo(b), loc) == Pop(loc) + [b]
  {
    WalkStep("..", b, loc);
    WalkEnd(b, Pop(loc));
  }

  lemma ReduceUpTo(b: string, dirs: seq<string>)
    requires Plain(b) && b != ""
    ensures Reduce(UpTo(b), dirs) == Path(Pop(dirs), b)
  {
    ReduceStep("..", b, dirs);
    SlashUnique(b, |b|);
    assert b[..|b|] == b;
  }

  lemma WalkStep(d: string, tail: string, loc: seq<string>)
    requires '/' !in d
    ensures Walk(d + "/" + tail, loc) == Walk(tail, Go(loc, d))
  {
    ComponentOf(d, tail);
  }

  // ----- the buffer

  /** eat_file on the buffer from its start: back to just after the last slash. */
  method EatFile(a: array<char>, last: nat) returns (p: nat)
    requires last <= a.Length && a.Length > 0
    modifies a
    ensures 0 < p <= a.Length && a[p-1] == '/'
    ensures last > 0 && old(a[last-1]) == '/' ==> p == last
    ensures if '/' in old(a[..last])
            then p <= last && a[..] == old(a[..]) && '/' !in a[p..last]
            else p == 1 && a[..] == old(a[..])[0 := '/']
  {
    if last == 0 {
      a[0] := '/';
      return 1;
    }
    if a[last-1] == '/' {
      assert a[..last][last-1] == '/';
      return last;
    }
    p := last;
    while p != 0 && a[p-1] != '/'
      invariant p <= last && '/' !in a[p..last]
      invariant a[..] == old(a[..])
    {
      p := p - 1;
    }
    if p == 0 {
      assert a[0..last] == a[..last];
      a[0] := '/';
      return 1;
    }
    assert a[..last][p-1] == '/';
  }

  /** eat_dir on what is written so far, `keep` and the component d with its slash. */
  method EatDir(a: array<char>, last: nat, ghost keep: string, ghost d: string) returns (p: nat)
    requires last <= a.Length && a[..last] == keep + d + "/" && '/' !in d
    requires if keep == "" then d == "" else keep[|keep|-1] == '/'
    modifies a
    ensures 0 < p <= last && a[..p] == if keep == "" then "/" else keep
  {
    assert a[last-1] == a[..last][last-1] == '/';
    p := EatFile(a, last);
    p := p - 1;
    assert a[p] == '/';
    assert a[..p] == a[..last][..p] == keep + d;
    p := EatFile(a, p);
    if keep != "" {
      assert (keep + d)[|keep|-1] == '/';
      PrefixOf(a, p, keep + d);
      LastSlash(keep, d, a[..p]);
    }
  }

  /** The stack as eat_dir sees it: popping takes away the last component and its slash. */
  function Kept(dirs: seq<string>): string { if dirs == [] then "" else Render(Path(Pop(dirs), "")) }

  function Top(dirs: seq<string>): string { if dirs == [] then "" else dirs[|dirs|-1] }

  lemma StackTop(dirs: seq<string>)
    ensures Render(Path(dirs, "")) == Kept(dirs) + Top(dirs) + "/"
    ensures if dirs == [] then Kept(dirs) == "" else Kept(dirs) != "" && Kept(dirs)[|Kept(dirs)|-1] == '/'
    ensures Render(Path(Pop(dirs), "")) == if Kept(dirs) == "" then "/" else Kept(dirs)
  {
    if dirs != [] {
      EndsInSlash(Pop(dirs));
      assert Render(Path(dirs, "")) == Render(Path(Pop(dirs), "")) + dirs[|dirs|-1] + "/";
    }
  }

  lemma PrefixOf(a: array<char>, p: nat, before: string)
    requires 0 < p <= |before| <= a.Length && a[..|before|] == before && '/' !in a[p..|before|]
    ensures a[..p] <= before && '/' !in before[p..] && a[..p][p-1] == a[p-1]
  {
    assert before[p..] == a[p..|before|];
  }

  lemma EndsInSlash(dirs: seq<string>)
    ensures var r := Render(Path(dirs, "")); r[|r|-1] == '/' && r[0] == '/'
  {
  }

  lemma LastSlash(keep: string, d: string, prefix: string)
    requires keep != [] && keep[|keep|-1] == '/' && '/' !in d
    requires prefix <= keep + d && prefix != [] && prefix[|prefix|-1] == '/' && '/' !in (keep + d)[|prefix|..]
    ensures prefix == keep
  {
    var s, n := keep + d, |prefix|;
    assert forall i :: n <= i < |s| ==> s[i] == s[n..][i-n];
    assert s[|keep|-1] == '/' && s[n-1] == '/';
    assert forall i :: |keep| <= i < |s| ==> s[i] == d[i-|keep|];
  }

  /** Copying path[from..to] to the buffer. */
  method Copy(path: string, from: nat, to: nat, a: array<char>, at: nat) returns (p: nat)
    requires from <= to <= |path| && at + (to - from) <= a.Length
    modifies a
    ensures p == at + (to - from) && a[..p] == old(a[..at]) + path[from..to]
  {
    p := at;
    for i := from to to
      invariant p == at + (i - from)
      invariant a[..p] == old(a[..at]) + path[from..i]
    {
      a[p] := path[i];
      p := p + 1;
      assert a[..p] == a[..p-1] + [path[i]];
      assert path[from..i+1] == path[from..i] + [path[i]];
    }
  }

  /** Skipping a run of slashes. */
  method SkipAt(path: string, from: nat) returns (first: nat)
    requires from <= |path|
    ensures from <= first <= |path| && path[first..] == SkipSlashes(path[from..])
  {
    first := from;
    while first < |path| && path[first] == '/'
      invariant from <= first <= |path| && SkipSlashes(path[first..]) == SkipSlashes(path[from..])
    {
      assert path[first..][1..] == path[first+1..];
      first := first + 1;
    }
  }

  /** normalize_path.  The source asserts that a path that is not too long starts with a slash. */
  method Normalize(path: string) returns (r: Result<string>)
    requires |path| <= MAX_PATH ==> path != [] && path[0] == '/'
    ensures |path| > MAX_PATH <==> r == Err(InvalidArgument)
    ensures r.Ok? ==> r.value == Render(Normal(path))
  {
    if |path| > MAX_PATH {
      return Err(InvalidArgument);
    }
    var a := new char[MAX_PATH];
    a[0] := '/';
    var p := 1;
    var first := SkipAt(path, 1);
    ghost var dirs: seq<string> := [];
    assert a[..1] == "/";
    while first < |path|
      invariant 0 < p <= first <= |path| <= a.Length
      invariant Progress(path, first, dirs, a[..p])
    {
      var done;
      if DotAt(path, first) || DotDotAt(path, first) {
        done, p, first, dirs := TakeDots(path, first, a, p, dirs);
      } else {
        done, p, first, dirs := TakeName(path, first, a, p, dirs);
      }
      if done {
        return Ok(a[..p]);
      }
    }
    Finished(path, dirs, a[..p]);
    return Ok(a[..p]);
  }

  /** The part of the loop of normalize_path that handles "." and "..". */
  method TakeDots(path: string, first: nat, a: array<char>, at: nat, ghost dirs: seq<string>)
    returns (done: bool, p: nat, next: nat, ghost dirs': seq<string>)
    requires first < |path| && 0 < at <= first && |path| <= a.Length
    requires Progress(path, first, dirs, a[..at]) && (DotAt(path, first) || DotDotAt(path, first))
    modifies a
    ensures 0 < p <= at && first < next <= |path|
    ensures if done then a[..p] == Render(Normal(path)) else Progress(path, next, dirs', a[..p])
  {
    p, dirs' := at, dirs;
    if first + 1 == |path| {
      DotEnd(path, first, dirs, a[..p]);
      return true, p, |path|, dirs';
    }
    if path[first+1] == '/' {
      DotSlash(path, first, dirs, a[..p]);
      return false, p, first + 2, dirs';
    }
    done, p, next, dirs' := TakeDotDot(path, first, a, at, dirs);
  }

  method TakeDotDot(path: string, first: nat, a: array<char>, at: nat, ghost dirs: seq<string>)
    returns (done: bool, p: nat, next: nat, ghost dirs': seq<string>)
    requires first < |path| && 0 < at <= first && |path| <= a.Length
    requires Progress(path, first, dirs, a[..at]) && DotDotAt(path, first)
    modifies a
    ensures 0 < p <= at && first < next <= |path|
    ensures if done then a[..p] == Render(Normal(path)) else Progress(path, next, dirs', a[..p])
  {
    ghost var w := a[..at];
    p := PopDir(a, at, dirs);
    dirs' := Pop(dirs);
    DotDotStep(path, first, dirs, w, a[..p]);
    done := first + 2 == |path|;
    next := if done then |path| else first + 3;
  }

  lemma DotDotStep(path: string, first: nat, dirs: seq<string>, w: string, w': string)
    requires first < |path| && Progress(path, first, dirs, w) && DotDotAt(path, first)
    requires w' == Render(Path(Pop(dirs), ""))
    ensures if first + 2 == |path| then w' == Render(Normal(path)) else Progress(path, first + 3, Pop(dirs), w')
  {
    if first + 2 == |path| {
      DotDotEnd(path, first, dirs, w, w');
    } else {
      DotDotSlash(path, first, dirs, w, w');
    }
  }

  /** eat_dir on a rendered stack pops it. */
  method PopDir(a: array<char>, last: nat, ghost dirs: seq<string>) returns (p: nat)
    requires last <= a.Length && AllPlain(dirs) && a[..last] == Render(Path(dirs, ""))
    modifies a
    ensures 0 < p <= last && a[..p] == Render(Path(Pop(dirs), ""))
  {
    StackTop(dirs);
    p := EatDir(a, last, Kept(dirs), Top(dirs));
  }

  /** The part of the loop of normalize_path that copies an ordinary component. */
  method TakeName(path: string, first: nat, a: array<char>, at: nat, ghost dirs: seq<string>)
    returns (done: bool, p: nat, next: nat, ghost dirs': seq<string>)
    requires first < |path| && 0 < at <= first && |path| <= a.Length
    requires Progress(path, first, dirs, a[..at]) && !DotAt(path, first) && !DotDotAt(path, first)
    modifies a
    ensures at <= p <= next <= |path| && first < next
    ensures if done then a[..p] == Render(Normal(path)) else Progress(path, next, dirs', a[..p])
  {
    // the source would drop an unfinished file name here, but there never is one
    EndsInSlash(dirs);
    assert a[at-1] == a[..at][at-1] == '/';
    var slash := FindSlash(path, first);
    if slash == |path| {
      FileEnd(path, first, dirs, a[..at]);
      p := Copy(path, first, |path|, a, at);
      return true, p, |path|, dirs;
    }
    done := false;
    p, next, dirs' := TakeDir(path, first, slash, a, at, dirs);
  }

  method TakeDir(path: string, first: nat, slash: nat, a: array<char>, at: nat, ghost dirs: seq<string>)
    returns (p: nat, next: nat, ghost dirs': seq<string>)
    requires first < |path| && 0 < at <= first && |path| <= a.Length
    requires slash == first + Slash(path[first..]) < |path|
    requires Progress(path, first, dirs, a[..at]) && !DotAt(path, first) && !DotDotAt(path, first)
    modifies a
    ensures at <= p <= next <= |path| && first < next && Progress(path, next, dirs', a[..p])
  {
    next, dirs' := AfterDir(path, first, slash, dirs, a[..at]);
    p := Copy(path, first, slash + 1, a, at);
  }

  /** Past a component that is kept, and the slashes after it. */
  method AfterDir(path: string, first: nat, slash: nat, ghost dirs: seq<string>, ghost w: string)
    returns (next: nat, ghost dirs': seq<string>)
    requires first < |path| && slash == first + Slash(path[first..]) < |path|
    requires Progress(path, first, dirs, w) && !DotAt(path, first) && !DotDotAt(path, first)
    ensures slash < next <= |path| && Progress(path, next, dirs', w + path[first..slash+1])
  {
    next := SkipAt(path, slash + 1);
    DirSlash(path, first, slash, next, dirs, w);
    dirs' := dirs + [path[first..slash]];
  }

  /** std::ranges::find for a slash. */
  method FindSlash(path: string, first: nat) returns (slash: nat)
    requires first <= |path|
    ensures first <= slash <= |path| && slash == first + Slash(path[first..])
  {
    slash := first;
    while slash < |path| && path[slash] != '/'
      invariant first <= slash <= |path|
      invariant forall i :: first <= i < slash ==> path[i] != '/'
    {
      slash := slash + 1;
    }
    SlashUnique(path[first..], slash - first);
  }

  /** The buffer holds the stack, and reducing the rest of the path on it gives the normal form. */
  ghost predicate Progress(path: string, first: nat, dirs: seq<string>, w: string)
    requires path != [] && first <= |path|
  {
    AllPlain(dirs) && w == Render(Path(dirs, "")) && Reduce(path[first..], dirs) == Normal(path)
  }

  predicate DotAt(path: string, first: nat)
    requires first < |path|
  {
    path[first] == '.' && (first + 1 == |path| || path[first+1] == '/')
  }

  predicate DotDotAt(path: string, first: nat)
    requires first < |path|
  {
    path[first] == '.' && first + 1 < |path| && path[first+1] == '.' && (first + 2 == |path| || path[first+2] == '/')
  }

  lemma Finished(path: string, dirs: seq<string>, w: string)
    requires path != [] && Progress(path, |path|, dirs, w)
    ensures w == Render(Normal(path))
  {
    assert path[|path|..] == "";
  }

  lemma DotEnd(path: string, first: nat, dirs: seq<string>, w: string)
    requires first < |path| && Progress(path, first, dirs, w) && DotAt(path, first) && first + 1 == |path|
    ensures w == Render(Normal(path))
  {
    assert path[first..] == ".";
    SlashUnique(path[first..], 1);
  }

  lemma DotSlash(path: string, first: nat, dirs: seq<string>, w: string)
    requires first < |path| && Progress(path, first, dirs, w) && DotAt(path, first) && first + 1 < |path|
    ensures Progress(path, first + 2, dirs, w)
  {
    assert path[first..] == "." + "/" + path[first+2..];
    ReduceStep(".", path[first+2..], dirs);
  }

  lemma DotDotEnd(path: string, first: nat, dirs: seq<string>, w: string, w': string)
    requires first < |path| && Progress(path, first, dirs, w) && DotDotAt(path, first) && first + 2 == |path|
    requires w' == Render(Path(Pop(dirs), ""))
    ensures w' == Render(Normal(path))
  {
    assert path[first..] == "..";
    SlashUnique(path[first..], 2);
  }

  lemma DotDotSlash(path: string, first: nat, dirs: seq<string>, w: string, w': string)
    requires first < |path| && Progress(path, first, dirs, w) && DotDotAt(path, first) && first + 2 < |path|
    requires w' == Render(Path(Pop(dirs), ""))
    ensures Progress(path, first + 3, Pop(dirs), w')
  {
    assert path[first..] == ".." + "/" + path[first+3..];
    ReduceStep("..", path[first+3..], dirs);
  }

  lemma FileEnd(path: string, first: nat, dirs: seq<string>, w: string)
    requires first < |path| && Progress(path, first, dirs, w) && !DotAt(path, first) && !DotDotAt(path, first)
    requires first + Slash(path[first..]) == |path|
    ensures w + path[first..|path|] == Render(Normal(path))
  {
    var s := path[first..];
    assert s == path[first..|path|] && s[..|s|] == s;
    NotDots(path, first, |s|);
  }

  lemma DirSlash(path: string, first: nat, slash: nat, next: nat, dirs: seq<string>, w: string)
    requires first < |path| && Progress(path, first, dirs, w) && !DotAt(path, first) && !DotDotAt(path, first)
    requires slash == first + Slash(path[first..]) < |path|
    requires next <= |path| && path[next..] == SkipSlashes(path[slash+1..])
    ensures Progress(path, next, dirs + [path[first..slash]], w + path[first..slash+1])
  {
    NotDots(path, first, slash - first);
    assert path[slash] == path[first..][slash-first];
    SplitAt(path, first, slash);
    DirStep(path[first..slash], path[slash+1..], dirs);
  }

  lemma DirStep(d: string, tail: string, dirs: seq<string>)
    requires AllPlain(dirs) && Plain(d)
    ensures AllPlain(dirs + [d])
    ensures Render(Path(dirs + [d], "")) == Render(Path(dirs, "")) + (d + "/")
    ensures Reduce(d + "/" + tail, dirs) == Reduce(SkipSlashes(tail), dirs + [d])
  {
    PushDir(dirs, d);
    ReduceStep(d, tail, dirs);
  }

  lemma SplitAt(path: string, first: nat, slash: nat)
    requires first <= slash < |path| && path[slash] == '/'
    ensures path[first..slash+1] == path[first..slash] + "/"
    ensures path[first..] == path[first..slash] + "/" + path[slash+1..]
  {
  }

  lemma PushDir(dirs: seq<string>, d: string)
    ensures Render(Path(dirs + [d], "")) == Render(Path(dirs, "")) + (d + "/")
  {
    FlatPush(dirs, d);
  }

  lemma NotDots(path: string, first: nat, k: nat)
    requires first < |path| && k == Slash(path[first..])
    requires !DotAt(path, first) && !DotDotAt(path, first)
    ensures path[first..][..k] == path[first..first+k] && Plain(path[first..first+k])
  {
    var c := path[first..first+k];
    assert c == path[first..][..k];
    assert k >= 1 ==> c[0] == path[first];
    assert k >= 2 ==> c[1] == path[first+1];
    assert first + k < |path| ==> path[first+k] == path[first..][k];
  }
}
