/**
 * The generator factory, `create`: split the namespace, resolve it (with
 * the `yeoman` and `:all` fallbacks when no base was given), instantiate
 * the class, stamp its identity, and create one child generator per
 * declared hook. Hook expansion re-enters `create`; nothing bounds that
 * recursion in the system, so the model counts it with `fuel` and reports
 * `Exhausted` when it runs out.
 */
module Factory {
  import opened Wrappers
  import opened Strings
  import opened JsValues
  import opened Loading
  import opened PathConvention
  import opened Resolution

  /** A generator instance: what it was created with, its stamped identity, and its expanded hooks. */
  datatype Generator = Generator(
    mod: GenModule,
    args: seq<string>,
    options: Fields,
    config: Fields,
    namespace: string,
    generatorName: string,
    generatorPath: string,
    sourceRoot: string,
    hooks: seq<Hook>)

  /** A hook record after `create` has filled it in. */
  datatype Hook = Hook(
    name: string,
    alias: string,
    context: string,
    args: seq<string>,
    options: Fields,
    config: Fields,
    child: Option<Generator>)

  datatype Created = Made(generator: Generator) | NotFound | Failed(message: string) | Exhausted

  /** A creation outcome with the paths it pushed onto `loadedPath`. */
  datatype Creation = Creation(outcome: Created, log: seq<string>)

  /** `names.pop()`: the last `:` segment. */
  function GeneratorName(ns: string): (name: string)
  {
    var segs := Split(ns, ':');
    segs[|segs| - 1]
  }

  /** What is left of `names` after the pop. */
  function BaseSegments(ns: string): (r: seq<string>)
  {
    var segs := Split(ns, ':');
    segs[..|segs| - 1]
  }

  /**
   * The class lookup of `create`: with base segments, one
   * `findByNamespace(name, base)`; without, that search, then the one
   * forced under `yeoman`, then `name:all`, the first that does not miss
   * deciding.
   */
  function ResolveSpec(loader: Loader, roots: seq<string>, ns: string): (r: Search)
  {
    var name := GeneratorName(ns);
    var names := BaseSegments(ns);
    if |names| > 0 then FindSpec(loader, roots, name, Join(names, ':'))
    else Sequence([FindSpec(loader, roots, name, ""),
                   FindSpec(loader, roots, name, "yeoman"),
                   FindSpec(loader, roots, name + ":all", "")])
  }

  /** `gruntConfig.generator || {}` */
  function GeneratorSection(config: Fields): (r: Fields)
  {
    match Get(config, "generator")
    case Obj(m) => m
    case _ => map[]
  }

  /** `(options[hook.name] || config[hook.name]) + ':' + (hook.as || name)` */
  function HookContext(decl: HookDecl, name: string, options: Fields, config: Fields): (r: string)
  {
    var resolved := Or(Get(options, decl.name), Get(GeneratorSection(config), decl.name));
    ToJsString(resolved) + ":" + (if decl.alias != "" then decl.alias else name)
  }

  /** A hook record before its child is created: context, and args, options, config defaulted from the parent. */
  function HookRecord(decl: HookDecl, name: string, args: seq<string>, options: Fields, config: Fields): (r: Hook)
  {
    Hook(decl.name, decl.alias, HookContext(decl, name, options, config),
         match decl.args case Some(a) => a case None => args,
         match decl.options case Some(o) => o case None => options,
         match decl.config case Some(c) => c case None => GeneratorSection(config),
         None)
  }

  /** `new Klass(args, options, gruntConfig)` followed by the identity stamps. */
  function Instantiate(k: Klass, name: string, args: seq<string>, options: Fields, config: Fields): (r: Generator)
  {
    Generator(k.mod, args, options, config, k.namespace, name, k.path, k.mod.sourceRoot, [])
  }

  /** The generator a hook is expanded for: its name and what it was created with. */
  datatype Parent = Parent(name: string, args: seq<string>, options: Fields, config: Fields)

  /** The hooks of one generator, filled in, or the outcome that stopped their expansion. */
  datatype Expansion = Expanded(hooks: seq<Hook>, log: seq<string>) | Stopped(outcome: Created, log: seq<string>)

  /** `create(ns, args, options, config)` with `fuel` levels of nesting allowed. */
  function CreateSpec(loader: Loader, roots: seq<string>, ns: string, args: seq<string>,
                      options: Fields, config: Fields, fuel: nat): (c: Creation)
    decreases fuel, 0, 0
  {
    if fuel == 0 then Creation(Exhausted, [])
    else
      var res := ResolveSpec(loader, roots, ns);
      match res.outcome
      case Raised(msg) => Creation(Failed(msg), res.log)
      case Miss => Creation(NotFound, res.log)
      case Hit(k) =>
        var c := Instantiation(loader, roots, k, Parent(GeneratorName(ns), args, options, config), fuel - 1);
        Creation(c.outcome, res.log + c.log)
  }

  /**
   * What `create` does with the class it resolved for `p`: instantiate it,
   * or fail with the error instantiation throws before any hook is
   * expanded; then expand the hooks with `fuel` levels left.
   */
  function Instantiation(loader: Loader, roots: seq<string>, k: Klass, p: Parent, fuel: nat): (c: Creation)
    decreases fuel, 2, 0
  {
    match k.mod.constructError
    case Some(msg) => Creation(Failed(msg), [])
    case None =>
      var e := Expand(loader, roots, fuel, k.mod.hooks, 0, p);
      Creation(Assembled(k, p, e), e.log)
  }

  /** The generator of class `k` with its hooks filled in, or what stopped their expansion. */
  function Assembled(k: Klass, p: Parent, e: Expansion): (r: Created)
  {
    match e
    case Expanded(hs, _) => Made(Instantiate(k, p.name, p.args, p.options, p.config).(hooks := hs))
    case Stopped(o, _) => o
  }

  /** A hook record before its child is created, for the hook of `p` declared as `decl`. */
  function ParentHook(decl: HookDecl, p: Parent): (r: Hook)
  {
    HookRecord(decl, p.name, p.args, p.options, p.config)
  }

  /** The creation of the child of the hook of `p` declared as `decl`. */
  function HookChild(loader: Loader, roots: seq<string>, decl: HookDecl, p: Parent, fuel: nat): (r: Creation)
    decreases fuel, 0, 1
  {
    var h := ParentHook(decl, p);
    CreateSpec(loader, roots, h.context, h.args, h.options, h.config, fuel)
  }

  /**
   * The hooks `decls[i..]`, in order, each with its child; a child that is
   * not found leaves the hook without one, an error or exhaustion stops
   * the expansion.
   */
  function Expand(loader: Loader, roots: seq<string>, fuel: nat, decls: seq<HookDecl>, i: nat, p: Parent): (r: Expansion)
    decreases fuel, 1, |decls| - i
  {
    if i >= |decls| then Expanded([], [])
    else
      var h := ParentHook(decls[i], p);
      var c := HookChild(loader, roots, decls[i], p, fuel);
      if c.outcome.Made? || c.outcome.NotFound? then
        var h' := if c.outcome.Made? then h.(child := Some(c.outcome.generator)) else h;
        match Expand(loader, roots, fuel, decls, i + 1, p)
        case Expanded(hs, log) => Expanded([h'] + hs, c.log + log)
        case Stopped(o, log) => Stopped(o, c.log + log)
      else Stopped(c.outcome, c.log)
  }

  // ---------------------------------------------------------------------------
  // Lemmas

  /** The name is the last segment and has no `:`; name and base segments join back to the namespace. */
  lemma SplitNamespace(ns: string)
    ensures ':' !in GeneratorName(ns)
    ensures Join(BaseSegments(ns) + [GeneratorName(ns)], ':') == ns
    ensures |BaseSegments(ns)| == 0 <==> ':' !in ns
  {
    var segs := Split(ns, ':');
    assert BaseSegments(ns) + [GeneratorName(ns)] == segs;
    JoinSplit(ns, ':');
    assert |segs| == 1 ==> ns == segs[0];
    if ':' !in ns {
      SplitWithoutSeparator(ns, ':');
    }
  }

  /** With base segments the namespace is looked up once, with no fallback. */
  lemma NoFallbackWithBase(loader: Loader, roots: seq<string>, ns: string)
    requires ':' in ns
    ensures |BaseSegments(ns)| > 0
    ensures ResolveSpec(loader, roots, ns) == FindSpec(loader, roots, GeneratorName(ns), Join(BaseSegments(ns), ':'))
  {
    SplitNamespace(ns);
  }

  /**
   * Without base segments: the plain name first; only if it misses, the
   * name under `yeoman`; only if that misses too, `name:all`. Every
   * search made is logged in that order.
   */
  lemma FallbackOrder(loader: Loader, roots: seq<string>, ns: string)
    requires ':' !in ns
    ensures GeneratorName(ns) == ns
    ensures var plain := FindSpec(loader, roots, ns, "");
            var forced := FindSpec(loader, roots, ns, "yeoman");
            var all := FindSpec(loader, roots, ns + ":all", "");
            var r := ResolveSpec(loader, roots, ns);
            && (!plain.outcome.Miss? ==> r == plain)
            && (plain.outcome.Miss? && !forced.outcome.Miss? ==> r == Search(forced.outcome, plain.log + forced.log))
            && (plain.outcome.Miss? && forced.outcome.Miss? ==> r == Search(all.outcome, plain.log + forced.log + all.log))
  {
    SplitNamespace(ns);
    SplitWithoutSeparator(ns, ':');
    var plain := FindSpec(loader, roots, ns, "");
    var forced := FindSpec(loader, roots, ns, "yeoman");
    var all := FindSpec(loader, roots, ns + ":all", "");
    var ss := [plain, forced, all];
    assert ss[1..] == [forced, all];
    assert [forced, all][1..] == [all];
    assert [all][1..] == [];
    var s3 := Sequence([all]);
    assert s3.outcome == all.outcome && s3.log == all.log + [] by {
      if all.outcome.Miss? { assert s3 == Search(Sequence([]).outcome, all.log + Sequence([]).log); }
    }
    var s2 := Sequence([forced, all]);
    assert s2 == if forced.outcome.Miss? then Search(s3.outcome, forced.log + s3.log) else forced;
    assert Sequence(ss) == if plain.outcome.Miss? then Search(s2.outcome, plain.log + s2.log) else plain;
    assert all.log + [] == all.log;
  }

  /** Expansion never stops on "not found": a hook whose child is not found just has no child. */
  lemma {:induction false} ExpandStopsOnlyOnFailure(loader: Loader, roots: seq<string>, fuel: nat,
                                                    decls: seq<HookDecl>, i: nat, p: Parent)
    requires Expand(loader, roots, fuel, decls, i, p).Stopped?
    ensures Expand(loader, roots, fuel, decls, i, p).outcome.Failed? ||
            Expand(loader, roots, fuel, decls, i, p).outcome.Exhausted?
    decreases |decls| - i
  {
    var c := HookChild(loader, roots, decls[i], p, fuel);
    if c.outcome.Made? || c.outcome.NotFound? {
      ExpandStopsOnlyOnFailure(loader, roots, fuel, decls, i + 1, p);
    }
  }

  /** `create` returns nothing exactly when the class lookup, fallbacks included, found nothing. */
  lemma CreateNotFoundIffUnresolved(loader: Loader, roots: seq<string>, ns: string, args: seq<string>,
                                    options: Fields, config: Fields, fuel: nat)
    requires fuel > 0
    ensures CreateSpec(loader, roots, ns, args, options, config, fuel).outcome.NotFound? <==>
            ResolveSpec(loader, roots, ns).outcome.Miss?
    ensures ResolveSpec(loader, roots, ns).outcome.Miss? ==>
            CreateSpec(loader, roots, ns, args, options, config, fuel).log == ResolveSpec(loader, roots, ns).log
  {
    var res := ResolveSpec(loader, roots, ns);
    if res.outcome.Hit? {
      var k := res.outcome.klass;
      var p := Parent(GeneratorName(ns), args, options, config);
      if k.mod.constructError.None? && Expand(loader, roots, fuel - 1, k.mod.hooks, 0, p).Stopped? {
        ExpandStopsOnlyOnFailure(loader, roots, fuel - 1, k.mod.hooks, 0, p);
      }
    }
  }

  /**
   * A class whose instantiation throws makes `create` fail with that error
   * right after the class lookup: no hook is expanded, and only the
   * lookup's paths are logged.
   */
  lemma UnconstructibleFails(loader: Loader, roots: seq<string>, ns: string, args: seq<string>,
                             options: Fields, config: Fields, fuel: nat)
    requires fuel > 0
    requires ResolveSpec(loader, roots, ns).outcome.Hit?
    requires ResolveSpec(loader, roots, ns).outcome.klass.mod.constructError.Some?
    ensures CreateSpec(loader, roots, ns, args, options, config, fuel) ==
      Creation(Failed(ResolveSpec(loader, roots, ns).outcome.klass.mod.constructError.value),
               ResolveSpec(loader, roots, ns).log)
  {
    assert ResolveSpec(loader, roots, ns).log + [] == ResolveSpec(loader, roots, ns).log;
  }

  /** A hook record filled in from its declaration, holding the child created for it if one was. */
  ghost predicate HookFilled(loader: Loader, roots: seq<string>, fuel: nat, hk: Hook, decl: HookDecl, p: Parent)
  {
    var c := HookChild(loader, roots, decl, p, fuel).outcome;
    && hk == ParentHook(decl, p).(child := hk.child)
    && (hk.child.None? ==> c.NotFound?)
    && (hk.child.Some? ==> c == Made(hk.child.value))
  }

  /** Expanded hooks: one per remaining declaration, in order, each filled in from its declaration and holding its child. */
  ghost predicate ExpandedHooks(loader: Loader, roots: seq<string>, fuel: nat, hs: seq<Hook>, decls: seq<HookDecl>,
                                i: nat, p: Parent)
    decreases |decls| - i
  {
    if i >= |decls| then hs == []
    else
      && |hs| > 0
      && HookFilled(loader, roots, fuel, hs[0], decls[i], p)
      && ExpandedHooks(loader, roots, fuel, hs[1..], decls, i + 1, p)
  }

  /**
   * A successful expansion has one filled-in hook per remaining
   * declaration; a hook whose child was not found does not stop the hooks
   * after it.
   */
  lemma {:induction false} ExpandShape(loader: Loader, roots: seq<string>, fuel: nat,
                                       decls: seq<HookDecl>, i: nat, p: Parent)
    requires Expand(loader, roots, fuel, decls, i, p).Expanded?
    ensures ExpandedHooks(loader, roots, fuel, Expand(loader, roots, fuel, decls, i, p).hooks, decls, i, p)
    decreases |decls| - i
  {
    if i < |decls| {
      ExpandShape(loader, roots, fuel, decls, i + 1, p);
      var hs := Expand(loader, roots, fuel, decls, i, p).hooks;
      assert hs[1..] == Expand(loader, roots, fuel, decls, i + 1, p).hooks;
    }
  }

  /**
   * A created generator is `new Klass(args, options, config)` of the class
   * that resolution found, which threw nothing: it carries that class's
   * module, namespace, path and template root, the requested name, the
   * values it was created with, and the hooks of a completed expansion.
   */
  lemma CreatedIdentity(loader: Loader, roots: seq<string>, ns: string, args: seq<string>,
                        options: Fields, config: Fields, fuel: nat)
    requires CreateSpec(loader, roots, ns, args, options, config, fuel).outcome.Made?
    ensures fuel > 0 && ResolveSpec(loader, roots, ns).outcome.Hit?
    ensures var k := ResolveSpec(loader, roots, ns).outcome.klass;
            var e := Expand(loader, roots, fuel - 1, k.mod.hooks, 0, Parent(GeneratorName(ns), args, options, config));
            var g := CreateSpec(loader, roots, ns, args, options, config, fuel).outcome.generator;
            && k.mod.constructError.None?
            && e.Expanded?
            && g == Generator(k.mod, args, options, config, k.namespace, GeneratorName(ns), k.path, k.mod.sourceRoot, e.hooks)
  {
    CreateMadeByInstantiation(loader, roots, ns, args, options, config, fuel);
    var k := ResolveSpec(loader, roots, ns).outcome.klass;
    InstantiationMade(loader, roots, k, Parent(GeneratorName(ns), args, options, config), fuel - 1);
  }

  /** A created generator comes from instantiating the class resolution found. */
  lemma CreateMadeByInstantiation(loader: Loader, roots: seq<string>, ns: string, args: seq<string>,
                                  options: Fields, config: Fields, fuel: nat)
    requires CreateSpec(loader, roots, ns, args, options, config, fuel).outcome.Made?
    ensures fuel > 0 && ResolveSpec(loader, roots, ns).outcome.Hit?
    ensures CreateSpec(loader, roots, ns, args, options, config, fuel).outcome ==
            Instantiation(loader, roots, ResolveSpec(loader, roots, ns).outcome.klass,
                          Parent(GeneratorName(ns), args, options, config), fuel - 1).outcome
  {
  }

  /** An instantiation that makes a generator threw no error and expanded every hook. */
  lemma InstantiationMade(loader: Loader, roots: seq<string>, k: Klass, p: Parent, fuel: nat)
    requires Instantiation(loader, roots, k, p, fuel).outcome.Made?
    ensures k.mod.constructError.None?
    ensures Expand(loader, roots, fuel, k.mod.hooks, 0, p).Expanded?
    ensures Instantiation(loader, roots, k, p, fuel).outcome.generator ==
            Instantiate(k, p.name, p.args, p.options, p.config).(hooks := Expand(loader, roots, fuel, k.mod.hooks, 0, p).hooks)
  {
    if Expand(loader, roots, fuel, k.mod.hooks, 0, p).Stopped? {
      ExpandStopsOnlyOnFailure(loader, roots, fuel, k.mod.hooks, 0, p);
    }
  }

  /**
   * A hook's context always has a base segment, whatever the alias: the
   * `:` after the stringified override is in it. So a hook's child is never
   * looked up through the `yeoman` or `:all` fallbacks.
   */
  lemma HookContextHasBase(decl: HookDecl, name: string, options: Fields, config: Fields)
    ensures |BaseSegments(HookContext(decl, name, options, config))| > 0
  {
    SplitWithSeparator(HookContext(decl, name, options, config), ':');
  }

  /**
   * When the alias (or the parent's name) has no `:`, the context splits
   * exactly: that is the child's name, and the base segments join back to
   * the stringified override.
   */
  lemma HookContextSegments(decl: HookDecl, name: string, options: Fields, config: Fields)
    requires ':' !in (if decl.alias != "" then decl.alias else name)
    ensures var ctx := HookContext(decl, name, options, config);
            var resolved := Or(Get(options, decl.name), Get(GeneratorSection(config), decl.name));
            && GeneratorName(ctx) == (if decl.alias != "" then decl.alias else name)
            && Join(BaseSegments(ctx), ':') == ToJsString(resolved)
  {
    var resolved := Or(Get(options, decl.name), Get(GeneratorSection(config), decl.name));
    var target := if decl.alias != "" then decl.alias else name;
    var x := ToJsString(resolved);
    var ctx := HookContext(decl, name, options, config);
    assert ctx == x + [':'] + target;
    SplitBeforeLast(x, target, ':');
    assert BaseSegments(ctx) == Split(x, ':');
    JoinSplit(x, ':');
  }

  /** With no override in the options or in `config.generator`, the context begins with the literal `undefined`. */
  lemma UnconfiguredHookContext(decl: HookDecl, name: string, options: Fields, config: Fields)
    requires decl.name !in options
    requires decl.name !in GeneratorSection(config)
    ensures HookContext(decl, name, options, config) == "undefined:" + (if decl.alias != "" then decl.alias else name)
  {
  }

  /** An override in the options wins over one in `config.generator`, unless it is falsy. */
  lemma HookContextPrefersOptions(decl: HookDecl, name: string, options: Fields, config: Fields)
    requires decl.name in options && Truthy(options[decl.name])
    ensures HookContext(decl, name, options, config) ==
            ToJsString(options[decl.name]) + ":" + (if decl.alias != "" then decl.alias else name)
  {
  }

  /**
   * When `create` finds no class for a namespace with base segments, the
   * paths it logged are exactly every candidate path of every root, in order.
   */
  lemma UnresolvedTrailWithBase(loader: Loader, roots: seq<string>, ns: string)
    requires ':' in ns
    requires ResolveSpec(loader, roots, ns).outcome.Miss?
    ensures ResolveSpec(loader, roots, ns).log ==
      RootsPaths(roots, NamespacesToPaths(Candidates(GeneratorName(ns), Join(BaseSegments(ns), ':'))))
  {
    NoFallbackWithBase(loader, roots, ns);
    SearchMissLog(loader, roots, NamespacesToPaths(Candidates(GeneratorName(ns), Join(BaseSegments(ns), ':'))));
  }

  /**
   * When `create` finds no class for a bare name, it has logged every
   * candidate path of every root for the name, then for the name under
   * `yeoman`, then for `name:all`.
   */
  lemma UnresolvedTrailBare(loader: Loader, roots: seq<string>, ns: string)
    requires ':' !in ns
    requires ResolveSpec(loader, roots, ns).outcome.Miss?
    ensures ResolveSpec(loader, roots, ns).log ==
      RootsPaths(roots, NamespacesToPaths([ns])) +
      RootsPaths(roots, NamespacesToPaths(["yeoman:" + ns, "yeoman"])) +
      RootsPaths(roots, NamespacesToPaths([ns + ":all"]))
  {
    FallbackOrder(loader, roots, ns);
    var plain := FindSpec(loader, roots, ns, "");
    var forced := FindSpec(loader, roots, ns, "yeoman");
    var all := FindSpec(loader, roots, ns + ":all", "");
    assert plain.outcome.Miss? && forced.outcome.Miss?;
    assert ResolveSpec(loader, roots, ns).log == plain.log + forced.log + all.log;
    assert all.outcome.Miss?;
    assert Candidates(ns, "") == [ns];
    assert "yeoman" + ":" + ns == "yeoman:" + ns;
    assert Candidates(ns, "yeoman") == ["yeoman:" + ns, "yeoman"];
    assert Candidates(ns + ":all", "") == [ns + ":all"];
    SearchMissLog(loader, roots, NamespacesToPaths([ns]));
    SearchMissLog(loader, roots, NamespacesToPaths(["yeoman:" + ns, "yeoman"]));
    SearchMissLog(loader, roots, NamespacesToPaths([ns + ":all"]));
  }
}
