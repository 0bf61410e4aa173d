/**
 * Resolving a namespace to a generator module: `lookup` tries each
 * candidate namespace under both sub-bases of one root, `findByNamespace`
 * tries the local root, then each plugin root, then the built-in root.
 * Every attempted path is logged. The functions here are the reference
 * reading of that search; `Engine.Generators.Lookup` and `Engine.Generators.FindByNamespace`
 * are proved to compute them.
 */
module Resolution {
  import opened Wrappers
  import opened Strings
  import opened PathConvention
  import opened Loading

  /** A found module, stamped with the path it was found at and the namespace read from that path. */
  datatype Klass = Klass(mod: GenModule, path: string, namespace: string)

  /** The result of a search: a module, nothing, or an error thrown out of `require`. */
  datatype Probe = Hit(klass: Klass) | Miss | Raised(message: string)

  /** A search result together with the paths it pushed onto `loadedPath`, in order. */
  datatype Search = Search(outcome: Probe, log: seq<string>)

  /** The two sub-bases tried under `<root>/lib/`, in this order. */
  const SubBases: seq<string> := ["yeoman/generators", "generators"]

  /** `[basedir, 'lib', base, rawPath].join('/')` */
  function CandidatePath(dir: string, sub: string, rawPath: string): (path: string)
  {
    dir + "/lib/" + sub + "/" + rawPath
  }

  /** Both places a raw path is looked for under one root, in probing order. */
  function CandidatePaths(dir: string, rawPath: string): (paths: seq<string>)
  {
    [CandidatePath(dir, SubBases[0], rawPath), CandidatePath(dir, SubBases[1], rawPath)]
  }

  /** Every place `lookup` can try under one root, in probing order. */
  function AllPaths(dir: string, rawPaths: seq<string>): (paths: seq<string>)
  {
    if rawPaths == [] then [] else CandidatePaths(dir, rawPaths[0]) + AllPaths(dir, rawPaths[1..])
  }

  /** Every place a search over several roots can try, root by root. */
  function RootsPaths(dirs: seq<string>, rawPaths: seq<string>): (r: seq<string>)
  {
    if dirs == [] then [] else AllPaths(dirs[0], rawPaths) + RootsPaths(dirs[1..], rawPaths)
  }

  /** The candidate namespaces of `findByNamespace(name, base)`. */
  function Candidates(name: string, base: string): (c: seq<string>)
    ensures base != "" ==> c == [base + ":" + name, base]
    ensures base == "" ==> c == [name]
    ensures ':' !in name ==> Split(c[0], ':') == (if base != "" then Split(base, ':') else []) + [name]
  {
    FullNameSplit(name, base);
    if base != "" then [base + ":" + name, base] else [name]
  }

  /** The full namespace `base:name` splits into the base's segments followed by the name. */
  lemma FullNameSplit(name: string, base: string)
    ensures ':' !in name ==>
      Split(if base != "" then base + ":" + name else name, ':') == (if base != "" then Split(base, ':') else []) + [name]
  {
    if ':' !in name {
      if base != "" {
        assert base + ":" + name == base + [':'] + name;
        SplitBeforeLast(base, name, ':');
      } else {
        SplitWithoutSeparator(name, ':');
      }
    }
  }

  // ---------------------------------------------------------------------------
  // One candidate under one root

  /** The state of `lookup`'s local `generator` after an attempt, or the error that escaped. */
  datatype Step = Continue(found: Option<Klass>) | Abort(message: string)

  datatype Probed = Probed(step: Step, log: seq<string>)

  /** One `require` attempt: a module overwrites `generator`; a miss leaves it; an error escapes. */
  function ProbeAt(loader: Loader, path: string, rawPath: string, found: Option<Klass>): (r: Step)
  {
    match Classify(loader, path)
    case Present(m) => Continue(Some(Klass(m, path, PathToNamespace(rawPath))))
    case Absent => Continue(found)
    case Broken(msg) => Abort(msg)
  }

  /**
   * The state after the first `j` sub-bases were tried for one candidate:
   * each path is logged before it is required, and nothing is tried once
   * an error has escaped.
   */
  function ProbeUpTo(loader: Loader, dir: string, rawPath: string, j: nat): (r: Probed)
    requires j <= |SubBases|
  {
    if j == 0 then Probed(Continue(None), [])
    else
      var prev := ProbeUpTo(loader, dir, rawPath, j - 1);
      var path := CandidatePath(dir, SubBases[j - 1], rawPath);
      match prev.step
      case Abort(_) => prev
      case Continue(f) => Probed(ProbeAt(loader, path, rawPath, f), prev.log + [path])
  }

  /** Once an error has escaped, no further sub-base is tried. */
  lemma {:induction false} AbortIsFinal(loader: Loader, dir: string, rawPath: string, j: nat, k: nat)
    requires j <= k <= |SubBases|
    requires ProbeUpTo(loader, dir, rawPath, j).step.Abort?
    ensures ProbeUpTo(loader, dir, rawPath, k) == ProbeUpTo(loader, dir, rawPath, j)
    decreases k - j
  {
    if j < k {
      AbortIsFinal(loader, dir, rawPath, j, k - 1);
    }
  }

  /** The search result a probing state stands for. */
  function StepProbe(step: Step): (r: Probe)
  {
    match step
    case Abort(msg) => Raised(msg)
    case Continue(f) => FoundToProbe(f)
  }

  function FoundToProbe(found: Option<Klass>): (r: Probe)
  {
    match found
    case None => Miss
    case Some(k) => Hit(k)
  }

  /** One candidate under one root: both sub-bases tried in turn. */
  function TryCandidate(loader: Loader, dir: string, rawPath: string): (r: Search)
  {
    var p := ProbeUpTo(loader, dir, rawPath, |SubBases|);
    Search(StepProbe(p.step), p.log)
  }

  /**
   * Both sub-bases are always tried (unless the first throws), and a
   * module under `generators` wins over one under `yeoman/generators`.
   */
  lemma TryCandidateCases(loader: Loader, dir: string, rawPath: string)
    ensures var p1 := CandidatePath(dir, SubBases[0], rawPath);
            var p2 := CandidatePath(dir, SubBases[1], rawPath);
            var st1 := Classify(loader, p1);
            var st2 := Classify(loader, p2);
            var s := TryCandidate(loader, dir, rawPath);
            && (st1.Broken? ==> s == Search(Raised(st1.message), [p1]))
            && (!st1.Broken? ==> s.log == [p1, p2])
            && (!st1.Broken? && st2.Broken? ==> s.outcome == Raised(st2.message))
            && (s.outcome.Miss? <==> st1.Absent? && st2.Absent?)
            && (st2.Present? && !st1.Broken? ==> s.outcome == Hit(Klass(st2.mod, p2, PathToNamespace(rawPath))))
            && (st1.Present? && st2.Absent? ==> s.outcome == Hit(Klass(st1.mod, p1, PathToNamespace(rawPath))))
  {
    var p1 := CandidatePath(dir, SubBases[0], rawPath);
    assert ProbeUpTo(loader, dir, rawPath, 1) == Probed(ProbeAt(loader, p1, rawPath, None), [] + [p1]);
  }

  // ---------------------------------------------------------------------------
  // Ordered search with a log

  /** The first search that does not miss decides; every search up to it is logged. */
  function Sequence(ss: seq<Search>): (r: Search)
  {
    if ss == [] then Search(Miss, [])
    else if !ss[0].outcome.Miss? then ss[0]
    else
      var rest := Sequence(ss[1..]);
      Search(rest.outcome, ss[0].log + rest.log)
  }

  /** All the logs of `ss`, in order. */
  function Logs(ss: seq<Search>): (r: seq<string>)
  {
    if ss == [] then [] else ss[0].log + Logs(ss[1..])
  }

  /** `lookup(namespaces)`'s attempts, one per raw path. */
  function Tries(loader: Loader, dir: string, rawPaths: seq<string>): (ts: seq<Search>)
    ensures |ts| == |rawPaths|
    ensures forall i :: 0 <= i < |rawPaths| ==> ts[i] == TryCandidate(loader, dir, rawPaths[i])
  {
    seq(|rawPaths|, i requires 0 <= i < |rawPaths| => TryCandidate(loader, dir, rawPaths[i]))
  }

  /** `lookup(namespaces, dir)` on the raw paths of the namespaces. */
  function LookupSpec(loader: Loader, dir: string, rawPaths: seq<string>): (r: Search)
  {
    Sequence(Tries(loader, dir, rawPaths))
  }

  /** One `lookup` per root. */
  function Lookups(loader: Loader, dirs: seq<string>, rawPaths: seq<string>): (ls: seq<Search>)
    ensures |ls| == |dirs|
    ensures forall i :: 0 <= i < |dirs| ==> ls[i] == LookupSpec(loader, dirs[i], rawPaths)
  {
    seq(|dirs|, i requires 0 <= i < |dirs| => LookupSpec(loader, dirs[i], rawPaths))
  }

  /** The roots probed in order, stopping at the first that does not miss. */
  function SearchRoots(loader: Loader, dirs: seq<string>, rawPaths: seq<string>): (r: Search)
  {
    Sequence(Lookups(loader, dirs, rawPaths))
  }

  /** `findByNamespace(name, base)` over `roots` (local, then plugins, then built-in). */
  function FindSpec(loader: Loader, roots: seq<string>, name: string, base: string): (r: Search)
  {
    SearchRoots(loader, roots, NamespacesToPaths(Candidates(name, base)))
  }

  // ---------------------------------------------------------------------------
  // Lemmas about ordered search

  /** Unfolding `Sequence` at position `i`, as a loop over `ss` sees it. */
  lemma SequenceStep(ss: seq<Search>, i: nat)
    requires i < |ss|
    ensures Sequence(ss[i..]) ==
      if ss[i].outcome.Miss? then Search(Sequence(ss[i + 1..]).outcome, ss[i].log + Sequence(ss[i + 1..]).log)
      else ss[i]
  {
    assert ss[i..][0] == ss[i];
    assert ss[i..][1..] == ss[i + 1..];
  }

  /** The search stops at the first entry that does not miss, having logged everything before it. */
  lemma {:induction false} SequenceFirstDecisive(ss: seq<Search>, i: nat)
    requires i < |ss|
    requires forall j :: 0 <= j < i ==> ss[j].outcome.Miss?
    requires !ss[i].outcome.Miss?
    ensures Sequence(ss) == Search(ss[i].outcome, Logs(ss[..i]) + ss[i].log)
    decreases i
  {
    if i > 0 {
      SequenceFirstDecisive(ss[1..], i - 1);
      assert ss[1..][..i - 1] == ss[..i][1..];
    }
  }

  /** The search misses exactly when every entry misses, and then it has logged everything. */
  lemma {:induction false} SequenceMiss(ss: seq<Search>)
    ensures Sequence(ss).outcome.Miss? <==> forall j :: 0 <= j < |ss| ==> ss[j].outcome.Miss?
    ensures Sequence(ss).outcome.Miss? ==> Sequence(ss).log == Logs(ss)
  {
    if ss != [] {
      SequenceMiss(ss[1..]);
      if ss[0].outcome.Miss? {
        assert forall j :: 1 <= j < |ss| ==> ss[j] == ss[1..][j - 1];
      }
    }
  }

  /** Whatever the search decides, it is the decision of one of its entries. */
  lemma {:induction false} SequenceOutcomeFromEntry(ss: seq<Search>)
    requires !Sequence(ss).outcome.Miss?
    ensures exists i :: 0 <= i < |ss| && Sequence(ss).outcome == ss[i].outcome
  {
    if !ss[0].outcome.Miss? {
      assert Sequence(ss).outcome == ss[0].outcome;
    } else {
      SequenceOutcomeFromEntry(ss[1..]);
      var i :| 0 <= i < |ss[1..]| && Sequence(ss[1..]).outcome == ss[1..][i].outcome;
      assert Sequence(ss).outcome == ss[i + 1].outcome;
    }
  }

  lemma {:induction false} LogsAppend(a: seq<Search>, b: seq<Search>)
    ensures Logs(a + b) == Logs(a) + Logs(b)
  {
    if a != [] {
      LogsAppend(a[1..], b);
      assert (a + b)[0] == a[0];
      assert (a + b)[1..] == a[1..] + b;
    } else {
      assert a + b == b;
    }
  }

  /** Searching `a + b` is searching `a`, then `b` only if `a` missed. */
  lemma {:induction false} SequenceAppend(a: seq<Search>, b: seq<Search>)
    ensures Sequence(a + b) ==
      if Sequence(a).outcome.Miss? then Search(Sequence(b).outcome, Sequence(a).log + Sequence(b).log)
      else Sequence(a)
  {
    if a == [] {
      assert a + b == b;
    } else {
      SequenceAppend(a[1..], b);
      assert (a + b)[0] == a[0];
      assert (a + b)[1..] == a[1..] + b;
    }
  }

  /** Searching the roots `a + b` is searching `a`, then `b` only if nothing was found in `a`. */
  lemma SearchRootsAppend(loader: Loader, a: seq<string>, b: seq<string>, rawPaths: seq<string>)
    ensures SearchRoots(loader, a + b, rawPaths) ==
      if SearchRoots(loader, a, rawPaths).outcome.Miss? then
        Search(SearchRoots(loader, b, rawPaths).outcome, SearchRoots(loader, a, rawPaths).log + SearchRoots(loader, b, rawPaths).log)
      else SearchRoots(loader, a, rawPaths)
  {
    assert Lookups(loader, a + b, rawPaths) == Lookups(loader, a, rawPaths) + Lookups(loader, b, rawPaths);
    SequenceAppend(Lookups(loader, a, rawPaths), Lookups(loader, b, rawPaths));
  }

  /** Searching a single root is looking it up. */
  lemma SearchOneRoot(loader: Loader, dir: string, rawPaths: seq<string>)
    ensures SearchRoots(loader, [dir], rawPaths) == LookupSpec(loader, dir, rawPaths)
  {
    var l := LookupSpec(loader, dir, rawPaths);
    assert Lookups(loader, [dir], rawPaths) == [l];
    assert [l][1..] == [];
    assert Sequence([l]) == if l.outcome.Miss? then Search(Sequence([]).outcome, l.log + Sequence([]).log) else l;
    assert l.log + [] == l.log;
  }

  /** The logs of one more entry. */
  lemma LogsSnoc(ss: seq<Search>, i: nat)
    requires i < |ss|
    ensures Logs(ss[..i + 1]) == Logs(ss[..i]) + ss[i].log
  {
    LogsAppend(ss[..i], [ss[i]]);
    assert ss[..i + 1] == ss[..i] + [ss[i]];
    assert Logs([ss[i]]) == ss[i].log + Logs([]);
  }

  // ---------------------------------------------------------------------------
  // Lemmas about lookup and findByNamespace

  /** Misses log exactly both sub-base paths of every candidate. */
  lemma {:induction false} MissedTriesLogAllPaths(loader: Loader, dir: string, rawPaths: seq<string>)
    requires forall j :: 0 <= j < |rawPaths| ==> TryCandidate(loader, dir, rawPaths[j]).outcome.Miss?
    ensures Logs(Tries(loader, dir, rawPaths)) == AllPaths(dir, rawPaths)
  {
    if rawPaths != [] {
      TryCandidateCases(loader, dir, rawPaths[0]);
      MissedTriesLogAllPaths(loader, dir, rawPaths[1..]);
      assert Tries(loader, dir, rawPaths)[1..] == Tries(loader, dir, rawPaths[1..]);
    }
  }

  /**
   * `lookup` misses exactly when every path it can try holds no module, and
   * then it has logged each of them, in order.
   */
  lemma LookupMiss(loader: Loader, dir: string, rawPaths: seq<string>)
    ensures LookupSpec(loader, dir, rawPaths).outcome.Miss? <==>
      forall j, k :: 0 <= j < |rawPaths| && 0 <= k < |SubBases| ==>
        Classify(loader, CandidatePath(dir, SubBases[k], rawPaths[j])).Absent?
    ensures LookupSpec(loader, dir, rawPaths).outcome.Miss? ==>
      LookupSpec(loader, dir, rawPaths).log == AllPaths(dir, rawPaths)
  {
    var ts := Tries(loader, dir, rawPaths);
    SequenceMiss(ts);
    forall j | 0 <= j < |rawPaths| {
      TryCandidateCases(loader, dir, rawPaths[j]);
    }
    if Sequence(ts).outcome.Miss? {
      MissedTriesLogAllPaths(loader, dir, rawPaths);
    }
  }

  /**
   * `lookup` stops at the first candidate that loads (or throws): the
   * candidates before it missed under both sub-bases, and the candidates
   * after it are neither tried nor logged.
   */
  lemma LookupFirstDecisive(loader: Loader, dir: string, rawPaths: seq<string>, i: nat)
    requires i < |rawPaths|
    requires forall j :: 0 <= j < i ==> TryCandidate(loader, dir, rawPaths[j]).outcome.Miss?
    requires !TryCandidate(loader, dir, rawPaths[i]).outcome.Miss?
    ensures LookupSpec(loader, dir, rawPaths) ==
      Search(TryCandidate(loader, dir, rawPaths[i]).outcome,
             AllPaths(dir, rawPaths[..i]) + TryCandidate(loader, dir, rawPaths[i]).log)
  {
    var ts := Tries(loader, dir, rawPaths);
    SequenceFirstDecisive(ts, i);
    assert ts[..i] == Tries(loader, dir, rawPaths[..i]);
    MissedTriesLogAllPaths(loader, dir, rawPaths[..i]);
  }

  /** A module `lookup` returns was loaded at a logged path and carries the namespace read from that path. */
  lemma LookupHitStamped(loader: Loader, dir: string, rawPaths: seq<string>)
    requires LookupSpec(loader, dir, rawPaths).outcome.Hit?
    ensures var k := LookupSpec(loader, dir, rawPaths).outcome.klass;
      && Classify(loader, k.path) == Present(k.mod)
      && k.path in LookupSpec(loader, dir, rawPaths).log
      && exists j :: 0 <= j < |rawPaths| && k.path in CandidatePaths(dir, rawPaths[j])
           && k.namespace == PathToNamespace(rawPaths[j])
  {
    var ts := Tries(loader, dir, rawPaths);
    var i :| 0 <= i < |ts| && !ts[i].outcome.Miss? && forall j :: 0 <= j < i ==> ts[j].outcome.Miss? by {
      FirstNonMiss(ts);
    }
    LookupFirstDecisive(loader, dir, rawPaths, i);
    TryCandidateCases(loader, dir, rawPaths[i]);
  }

  /** Some entry does not miss, so a first one does. */
  lemma FirstNonMiss(ss: seq<Search>)
    requires !Sequence(ss).outcome.Miss?
    ensures exists i :: 0 <= i < |ss| && !ss[i].outcome.Miss? && forall j :: 0 <= j < i ==> ss[j].outcome.Miss?
  {
    SequenceMiss(ss);
    var n :| 0 <= n < |ss| && !ss[n].outcome.Miss?;
    var i := n;
    while i > 0 && exists j :: 0 <= j < i && !ss[j].outcome.Miss?
      invariant 0 <= i <= n && !ss[i].outcome.Miss?
      decreases i
    {
      var j :| 0 <= j < i && !ss[j].outcome.Miss?;
      i := j;
    }
  }

  /** When the local root finds the generator, no plugin or built-in root is consulted or logged. */
  lemma LocalPrecedence(loader: Loader, roots: seq<string>, name: string, base: string)
    requires |roots| > 0
    requires !LookupSpec(loader, roots[0], NamespacesToPaths(Candidates(name, base))).outcome.Miss?
    ensures FindSpec(loader, roots, name, base) == LookupSpec(loader, roots[0], NamespacesToPaths(Candidates(name, base)))
  {
  }

  /**
   * Roots are probed in order: the first root whose lookup does not miss
   * decides, after every earlier root was searched in full; later roots
   * are never probed.
   */
  lemma RootOrder(loader: Loader, roots: seq<string>, rawPaths: seq<string>, i: nat)
    requires i < |roots|
    requires forall j :: 0 <= j < i ==> LookupSpec(loader, roots[j], rawPaths).outcome.Miss?
    requires !LookupSpec(loader, roots[i], rawPaths).outcome.Miss?
    ensures SearchRoots(loader, roots, rawPaths) ==
      Search(LookupSpec(loader, roots[i], rawPaths).outcome,
             RootsPaths(roots[..i], rawPaths) + LookupSpec(loader, roots[i], rawPaths).log)
  {
    var ls := Lookups(loader, roots, rawPaths);
    SequenceFirstDecisive(ls, i);
    assert ls[..i] == Lookups(loader, roots[..i], rawPaths);
    MissedLookupsLogAllPaths(loader, roots[..i], rawPaths);
  }

  /** A search that finds nothing anywhere has logged every candidate path of every root, in order. */
  lemma SearchMissLog(loader: Loader, roots: seq<string>, rawPaths: seq<string>)
    requires SearchRoots(loader, roots, rawPaths).outcome.Miss?
    ensures SearchRoots(loader, roots, rawPaths).log == RootsPaths(roots, rawPaths)
  {
    var ls := Lookups(loader, roots, rawPaths);
    SequenceMiss(ls);
    MissedLookupsLogAllPaths(loader, roots, rawPaths);
  }

  lemma {:induction false} MissedLookupsLogAllPaths(loader: Loader, roots: seq<string>, rawPaths: seq<string>)
    requires forall j :: 0 <= j < |roots| ==> LookupSpec(loader, roots[j], rawPaths).outcome.Miss?
    ensures Logs(Lookups(loader, roots, rawPaths)) == RootsPaths(roots, rawPaths)
  {
    if roots != [] {
      LookupMiss(loader, roots[0], rawPaths);
      MissedLookupsLogAllPaths(loader, roots[1..], rawPaths);
      assert Lookups(loader, roots, rawPaths)[1..] == Lookups(loader, roots[1..], rawPaths);
    }
  }
}
