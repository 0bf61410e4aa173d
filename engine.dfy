/**
 * The `generators` module object: the state it keeps between calls
 * (`loadedPath`, the prepared name, arguments and options, the roots it
 * searches) and the operations that read and update that state. Each
 * operation is proved to compute the reference function of its module:
 * `Lookup` computes `Resolution.LookupSpec`, `FindByNamespace` computes
 * `Resolution.FindSpec`, `Create` computes `Factory.CreateSpec`, `Invoke`
 * computes `Invocation.Decide` on it, `LookupHelp` computes
 * `HelpCatalog.Catalog` and `Help` computes `HelpCatalog.HelpOutput`.
 */
module Engine {
  import opened Wrappers
  import opened Strings
  import opened JsValues
  import opened Loading
  import opened PathConvention
  import opened Resolution
  import opened Factory
  import opened Invocation
  import opened HelpCatalog
  import opened Prepare

  /** The part of `grunt.cli` that `prepare` reads and rewrites. */
  class Cli {
    var tasks: seq<string>
    var options: Fields

    constructor (tasks: seq<string>, options: Fields)
      ensures this.tasks == tasks && this.options == options
    {
      this.tasks := tasks;
      this.options := options;
    }
  }

  class Generators {
    /** What `require` finds at each path. */
    const loader: Loader
    /** `path.join(__dirname, '../..')`, the built-in root. */
    const builtin: string
    /** The application root found by `setup`; also the working directory. */
    const base: string
    /** The plugin roots, already resolved. */
    const plugins: seq<string>
    /** Every path `require` was asked for since the last reset. */
    var loadedPath: seq<string>
    var args: seq<string>
    var name: Option<string>
    var options: Fields

    /** Resolved roots are never empty, so `basedir || base` picks them. */
    predicate Valid()
    {
      builtin != "" && forall i :: 0 <= i < |plugins| ==> plugins[i] != ""
    }

    /** The roots `findByNamespace` searches, in order. */
    function Roots(): (r: seq<string>)
    {
      [base] + plugins + [builtin]
    }

    constructor (loader: Loader, builtin: string, base: string, plugins: seq<string>)
      requires builtin != "" && forall i :: 0 <= i < |plugins| ==> plugins[i] != ""
      ensures Valid()
      ensures this.loader == loader && this.builtin == builtin && this.base == base && this.plugins == plugins
      ensures loadedPath == [] && args == [] && name == None && options == map[]
    {
      this.loader := loader;
      this.builtin := builtin;
      this.base := base;
      this.plugins := plugins;
      loadedPath := [];
      args := [];
      name := None;
      options := map[];
    }

    /**
     * `prepare(grunt)`: keep the name and arguments, copy the options, and
     * rewrite the command line for grunt. The copy is taken before `help`
     * is switched off, so the generator still sees `--help`.
     */
    method Prepare(cli: Cli)
      modifies this`args, this`name, this`options, cli
      ensures args == PositionalArgs(old(cli.tasks))
      ensures name == RequestedName(old(cli.tasks))
      ensures options == old(cli.options)
      ensures cli.tasks == RewriteTasks(old(cli.tasks))
      ensures cli.options == old(cli.options)["help" := Bool(false)]
    {
      args := PositionalArgs(cli.tasks);
      name := RequestedName(cli.tasks);
      options := cli.options;
      cli.tasks := RewriteTasks(cli.tasks);
      cli.options := cli.options["help" := Bool(false)];
    }

    /**
     * `lookup(namespaces, basedir)`: the candidates' raw paths, tried under
     * `basedir`, or under the application root when none is given.
     */
    method Lookup(namespaces: seq<string>, basedir: string) returns (r: Probe)
      modifies this`loadedPath
      ensures r == LookupSpec(loader, if basedir == "" then base else basedir, NamespacesToPaths(namespaces)).outcome
      ensures loadedPath == old(loadedPath) + LookupSpec(loader, if basedir == "" then base else basedir, NamespacesToPaths(namespaces)).log
    {
      var paths := NamespacesToPaths(namespaces);
      var dir := if basedir == "" then base else basedir;
      r := LookupPaths(dir, paths);
    }

    /** `lookup`'s loop: try each candidate in turn until one is found. */
    method LookupPaths(dir: string, paths: seq<string>) returns (r: Probe)
      modifies this`loadedPath
      ensures r == Sequence(Tries(loader, dir, paths)).outcome
      ensures loadedPath == old(loadedPath) + Sequence(Tries(loader, dir, paths)).log
    {
      ghost var ts := Tries(loader, dir, paths);
      ghost var done: seq<string> := [];
      var generator: Option<Klass> := None;
      var i := 0;
      while i < |paths|
        invariant 0 <= i <= |paths|
        invariant loadedPath == old(loadedPath) + done
        invariant generator.None? ==> forall j :: 0 <= j < i ==> ts[j].outcome.Miss?
        invariant generator.None? ==> done == Logs(ts[..i])
        invariant generator.Some? ==> Sequence(ts) == Search(Hit(generator.value), done)
      {
        if generator.None? {
          var found := ProbeCandidate(dir, paths[i]);
          LogsSnoc(ts, i);
          AppendAssoc(old(loadedPath), done, ts[i].log);
          done := done + ts[i].log;
          if !found.Miss? {
            SequenceFirstDecisive(ts, i);
          }
          match found {
            case Raised(msg) => return Raised(msg);
            case Hit(k) => generator := Some(k);
            case Miss =>
          }
        }
        i := i + 1;
      }
      if generator.None? {
        assert ts[..|paths|] == ts;
        SequenceMiss(ts);
      }
      r := FoundToProbe(generator);
    }

    /**
     * The body of `lookup`'s loop for one candidate: require it under each
     * sub-base in turn, logging the path first; a module overwrites the
     * one found so far, a failure that does not mention the path escapes.
     */
    method ProbeCandidate(dir: string, rawPath: string) returns (r: Probe)
      modifies this`loadedPath
      ensures r == TryCandidate(loader, dir, rawPath).outcome
      ensures loadedPath == old(loadedPath) + TryCandidate(loader, dir, rawPath).log
    {
      ghost var tried: seq<string> := [];
      var generator: Option<Klass> := None;
      var j := 0;
      while j < |SubBases|
        invariant 0 <= j <= |SubBases|
        invariant loadedPath == old(loadedPath) + tried
        invariant ProbeUpTo(loader, dir, rawPath, j) == Probed(Continue(generator), tried)
      {
        var path := CandidatePath(dir, SubBases[j], rawPath);
        loadedPath := loadedPath + [path];
        tried := tried + [path];
        match Load(loader, path) {
          case Loaded(m) =>
            generator := Some(Klass(m, path, PathToNamespace(rawPath)));
          case Threw(msg) =>
            if !Contains(msg, path) {
              AbortIsFinal(loader, dir, rawPath, j + 1, |SubBases|);
              return Raised(msg);
            }
        }
        j := j + 1;
      }
      r := FoundToProbe(generator);
    }

    /**
     * `findByNamespace(name, base)`: the local root, then each plugin, then
     * the built-in root; the first that does not miss decides.
     */
    method FindByNamespace(name: string, baseNs: string) returns (r: Probe)
      requires Valid()
      modifies this`loadedPath
      ensures r == FindSpec(loader, Roots(), name, baseNs).outcome
      ensures loadedPath == old(loadedPath) + FindSpec(loader, Roots(), name, baseNs).log
    {
      var lookups := if baseNs != "" then [baseNs + ":" + name, baseNs] else [name];
      ghost var rawPaths := NamespacesToPaths(lookups);
      ghost var local := SearchRoots(loader, [base], rawPaths);
      ghost var others := SearchRoots(loader, plugins, rawPaths);
      ghost var internal := SearchRoots(loader, [builtin], rawPaths);
      SearchOneRoot(loader, base, rawPaths);
      SearchOneRoot(loader, builtin, rawPaths);
      SearchRootsAppend(loader, [base], plugins, rawPaths);
      SearchRootsAppend(loader, [base] + plugins, [builtin], rawPaths);
      assert FindSpec(loader, Roots(), name, baseNs) == SearchRoots(loader, [base] + plugins + [builtin], rawPaths);
      ghost var trail := loadedPath;
      // first search locally
      var generator := Lookup(lookups, "");
      ghost var done := local.log;
      // then try in each plugin
      if generator.Miss? {
        generator := LookupEach(lookups, plugins);
        AppendAssoc(trail, done, others.log);
        done := done + others.log;
      }
      // finally try in the built-in root
      if generator.Miss? {
        generator := Lookup(lookups, builtin);
        AppendAssoc(trail, done, internal.log);
        done := done + internal.log;
      }
      assert loadedPath == trail + done;
      r := generator;
    }

    /** `generator = generator || lookup(lookups, dir)` for each of `dirs`, in order. */
    method LookupEach(lookups: seq<string>, dirs: seq<string>) returns (r: Probe)
      requires forall i :: 0 <= i < |dirs| ==> dirs[i] != ""
      modifies this`loadedPath
      ensures r == SearchRoots(loader, dirs, NamespacesToPaths(lookups)).outcome
      ensures loadedPath == old(loadedPath) + SearchRoots(loader, dirs, NamespacesToPaths(lookups)).log
    {
      ghost var ls := Lookups(loader, dirs, NamespacesToPaths(lookups));
      ghost var whole := Sequence(ls);
      ghost var done: seq<string> := [];
      var generator := Miss;
      var k := 0;
      assert ls[0..] == ls;
      while k < |dirs|
        invariant 0 <= k <= |dirs|
        invariant loadedPath == old(loadedPath) + done
        invariant generator.Miss? ==> whole == Search(Sequence(ls[k..]).outcome, done + Sequence(ls[k..]).log)
        invariant !generator.Miss? ==> whole == Search(generator, done)
      {
        if generator.Miss? {
          assert ls[k] == LookupSpec(loader, dirs[k], NamespacesToPaths(lookups));
          generator := Lookup(lookups, dirs[k]);
          SequenceStep(ls, k);
          AppendAssoc(done, ls[k].log, Sequence(ls[k + 1..]).log);
          AppendAssoc(old(loadedPath), done, ls[k].log);
          done := done + ls[k].log;
        }
        k := k + 1;
      }
      if generator.Miss? {
        assert ls[|dirs|..] == [];
        assert done + [] == done;
      }
      r := generator;
    }

    /**
     * The class lookup at the top of `create`: split off the name and search
     * it under the rest of the namespace; with no rest, fall back as
     * `ResolveBare` does.
     */
    method ResolveClass(ns: string) returns (r: Probe)
      requires Valid()
      modifies this`loadedPath
      ensures r == ResolveSpec(loader, Roots(), ns).outcome
      ensures loadedPath == old(loadedPath) + ResolveSpec(loader, Roots(), ns).log
    {
      var name := GeneratorName(ns);
      var names := BaseSegments(ns);
      SplitNamespace(ns);
      if |names| > 0 {
        NoFallbackWithBase(loader, Roots(), ns);
        r := FindByNamespace(name, Join(names, ':'));
      } else {
        r := ResolveBare(ns);
      }
    }

    /** A namespace without `:`: the name, then the name under `yeoman`, then `name:all`. */
    method ResolveBare(ns: string) returns (r: Probe)
      requires Valid()
      requires ':' !in ns
      modifies this`loadedPath
      ensures r == ResolveSpec(loader, Roots(), ns).outcome
      ensures loadedPath == old(loadedPath) + ResolveSpec(loader, Roots(), ns).log
    {
      ghost var trail := loadedPath;
      ghost var plain := FindSpec(loader, Roots(), ns, "");
      ghost var forced := FindSpec(loader, Roots(), ns, "yeoman");
      FallbackOrder(loader, Roots(), ns);
      r := FindByNamespace(ns, "");
      if r.Miss? {
        r := FindByNamespace(ns, "yeoman");
        AppendAssoc(trail, plain.log, forced.log);
        if r.Miss? {
          ghost var all := FindSpec(loader, Roots(), ns + ":all", "");
          r := FindByNamespace(ns + ":all", "");
          AppendAssoc(trail, plain.log + forced.log, all.log);
        }
      }
    }

    /**
     * `create(namespace, args, options, gruntConfig)`: resolve the class,
     * instantiate it, stamp its identity, and create one child per hook.
     */
    method Create(ns: string, args: seq<string>, options: Fields, config: Fields, fuel: nat) returns (c: Created)
      requires Valid()
      modifies this`loadedPath
      ensures c == CreateSpec(loader, Roots(), ns, args, options, config, fuel).outcome
      ensures loadedPath == old(loadedPath) + CreateSpec(loader, Roots(), ns, args, options, config, fuel).log
      decreases fuel, 0
    {
      ghost var spec := CreateSpec(loader, Roots(), ns, args, options, config, fuel);
      if fuel == 0 {
        assert spec == Creation(Exhausted, []);
        assert loadedPath + [] == loadedPath;
        return Exhausted;
      }
      ghost var trail := loadedPath;
      ghost var roots := Roots();
      var klass := ResolveClass(ns);
      ghost var res := ResolveSpec(loader, roots, ns);
      match klass {
        case Raised(msg) =>
          assert spec == Creation(Failed(msg), res.log);
          c := Failed(msg);
        case Miss =>
          assert spec == Creation(NotFound, res.log);
          c := NotFound;
        case Hit(k) =>
          var p := Parent(GeneratorName(ns), args, options, config);
          ghost var made := Instantiation(loader, roots, k, p, fuel - 1);
          assert spec == Creation(made.outcome, res.log + made.log);
          c := CreateFrom(k, p, fuel - 1);
          AppendAssoc(trail, res.log, made.log);
      }
    }

    /**
     * `new Klass(...)`, the identity stamps, then the hooks of the class; an
     * error instantiation throws escapes before any hook is created.
     */
    method CreateFrom(k: Klass, p: Parent, fuel: nat) returns (c: Created)
      requires Valid()
      modifies this`loadedPath
      ensures c == Instantiation(loader, Roots(), k, p, fuel).outcome
      ensures loadedPath == old(loadedPath) + Instantiation(loader, Roots(), k, p, fuel).log
      decreases fuel, 3
    {
      if k.mod.constructError.Some? {
        assert loadedPath + [] == loadedPath;
        return Failed(k.mod.constructError.value);
      }
      var hooks, stop := CreateHooks(k.mod.hooks, p, fuel);
      if stop.Some? {
        c := stop.value;
      } else {
        c := Made(Instantiate(k, p.name, p.args, p.options, p.config).(hooks := hooks));
      }
    }

    /**
     * The loop over `hooks` in `create`: one hook record per declaration,
     * each with the generator created for its context, stopping at the first
     * child that fails.
     */
    method CreateHooks(decls: seq<HookDecl>, p: Parent, fuel: nat) returns (hooks: seq<Hook>, stop: Option<Created>)
      requires Valid()
      modifies this`loadedPath
      ensures Expand(loader, Roots(), fuel, decls, 0, p).Expanded? ==>
        stop.None? && hooks == Expand(loader, Roots(), fuel, decls, 0, p).hooks
      ensures Expand(loader, Roots(), fuel, decls, 0, p).Stopped? ==>
        stop == Some(Expand(loader, Roots(), fuel, decls, 0, p).outcome)
      ensures loadedPath == old(loadedPath) + Expand(loader, Roots(), fuel, decls, 0, p).log
      decreases fuel, 2
    {
      ghost var roots := Roots();
      ghost var whole := Expand(loader, roots, fuel, decls, 0, p);
      ghost var done: seq<string> := [];
      hooks := [];
      stop := None;
      var i := 0;
      while i < |decls|
        invariant 0 <= i <= |decls|
        invariant loadedPath == old(loadedPath) + done
        invariant whole == Extend(hooks, done, Expand(loader, roots, fuel, decls, i, p))
      {
        var hook, child, log := CreateHook(decls, i, p, fuel, whole, hooks, done);
        AppendAssoc(old(loadedPath), done, log);
        done := done + log;
        if !(child.Made? || child.NotFound?) {
          stop := Some(child);
          return;
        }
        hooks := hooks + [WithChild(hook, child)];
        i := i + 1;
      }
      assert done + [] == done;
    }

    /**
     * One turn of the hook loop: create the child of hook `i` and say how
     * the expansion of all the hooks goes on from there.
     */
    method CreateHook(decls: seq<HookDecl>, i: nat, p: Parent, fuel: nat,
                      ghost whole: Expansion, ghost hooks: seq<Hook>, ghost done: seq<string>)
      returns (hook: Hook, child: Created, ghost log: seq<string>)
      requires Valid() && i < |decls|
      requires whole == Extend(hooks, done, Expand(loader, Roots(), fuel, decls, i, p))
      modifies this`loadedPath
      ensures hook == ParentHook(decls[i], p)
      ensures (child.Made? || child.NotFound?) ==>
        whole == Extend(hooks + [WithChild(hook, child)], done + log, Expand(loader, Roots(), fuel, decls, i + 1, p))
      ensures !(child.Made? || child.NotFound?) ==> whole == Stopped(child, done + log)
      ensures loadedPath == old(loadedPath) + log
      decreases fuel, 1
    {
      hook := ParentHook(decls[i], p);
      child := Create(hook.context, hook.args, hook.options, hook.config, fuel);
      log := HookChild(loader, Roots(), decls[i], p, fuel).log;
      ExpandAdvance(loader, Roots(), fuel, decls, i, p, whole, hooks, done);
    }

    /**
     * `invoke(namespace, args, options, config)`: reset the trail, create
     * the generator, and decide what to do with it.
     */
    method Invoke(ns: string, args: seq<string>, options: Fields, config: Fields, fuel: nat) returns (r: Invocation)
      requires Valid()
      modifies this`loadedPath
      ensures loadedPath == CreateSpec(loader, Roots(), ns, args, options, config, fuel).log
      ensures r == Decide(ns, CreateSpec(loader, Roots(), ns, args, options, config, fuel).outcome, args, options, loadedPath)
    {
      loadedPath := [];
      var generator := Create(ns, args, options, config, fuel);
      r := Decide(ns, generator, args, options, loadedPath);
    }

    /**
     * `lookupHelp(basedir)`: every generator module under the two sub-bases
     * of `basedir` (or of `base`), each file once.
     */
    method LookupHelp(basedir: string, disk: seq<string>) returns (r: Result<seq<Entry>, string>)
      ensures r == Catalog(loader, if basedir == "" then base else basedir, disk)
    {
      var dir := if basedir == "" then base else basedir;
      var found := Scan(loader, dir, disk);
      if found.Failure? {
        return Failure(found.error);
      }
      var kept := DedupByFullpath(GeneratorEntries(found.value));
      return Success(kept);
    }

    /** The plugin half of `help()`: one catalog per plugin root, concatenated in order. */
    method PluginHelp(disk: seq<string>) returns (r: Result<seq<Entry>, string>)
      requires Valid()
      ensures r == PluginCatalogs(loader, plugins, disk)
    {
      var found: seq<Entry> := [];
      var j := 0;
      assert plugins[0..] == plugins;
      PrefixedNothing(PluginCatalogs(loader, plugins, disk));
      while j < |plugins|
        invariant 0 <= j <= |plugins|
        invariant PluginCatalogs(loader, plugins, disk) == Prefixed(found, PluginCatalogs(loader, plugins[j..], disk))
      {
        var c := LookupHelp(plugins[j], disk);
        assert plugins[j..][1..] == plugins[j + 1..];
        if c.Failure? {
          return Failure(c.error);
        }
        PrefixedTwice(found, c.value, PluginCatalogs(loader, plugins[j + 1..], disk));
        found := found + c.value;
        j := j + 1;
      }
      assert found + [] == found;
      return Success(found);
    }

    /**
     * `help()`: the built-in, application and plugin catalogs, merged and
     * printed; the first failure escapes.
     */
    method Help(disk: seq<string>) returns (r: Result<seq<string>, string>)
      requires Valid()
      ensures r == HelpOutput(loader, base, plugins, builtin, disk)
    {
      var internal := LookupHelp(builtin, disk);
      if internal.Failure? {
        return Failure(internal.error);
      }
      var users := LookupHelp(base, disk);
      if users.Failure? {
        return Failure(users.error);
      }
      var plugs := PluginHelp(disk);
      if plugs.Failure? {
        return Failure(plugs.error);
      }
      var out := PrintHelp(users.value + plugs.value + internal.value);
      return Success(out);
    }
  }

  /** The entries gathered so far, in front of what the remaining roots give. */
  ghost function Prefixed(found: seq<Entry>, rest: Result<seq<Entry>, string>): (r: Result<seq<Entry>, string>)
  {
    match rest
    case Failure(e) => Failure(e)
    case Success(more) => Success(found + more)
  }

  lemma PrefixedNothing(rest: Result<seq<Entry>, string>)
    ensures Prefixed([], rest) == rest
  {
    if rest.Success? {
      assert [] + rest.value == rest.value;
    }
  }

  lemma PrefixedTwice(a: seq<Entry>, b: seq<Entry>, rest: Result<seq<Entry>, string>)
    ensures Prefixed(a, Prefixed(b, rest)) == Prefixed(a + b, rest)
  {
    if rest.Success? {
      assert a + (b + rest.value) == a + b + rest.value;
    }
  }

  /** The hooks and log gathered so far, in front of what the rest of the expansion gives. */
  ghost function Extend(hooks: seq<Hook>, log: seq<string>, rest: Expansion): (r: Expansion)
  {
    match rest
    case Expanded(hs, l) => Expanded(hooks + hs, log + l)
    case Stopped(o, l) => Stopped(o, log + l)
  }

  lemma ExtendAssoc(h1: seq<Hook>, l1: seq<string>, h2: seq<Hook>, l2: seq<string>, rest: Expansion)
    ensures Extend(h1, l1, Extend(h2, l2, rest)) == Extend(h1 + h2, l1 + l2, rest)
  {
    match rest
    case Expanded(hs, l) =>
      assert h1 + (h2 + hs) == (h1 + h2) + hs;
      assert l1 + (l2 + l) == (l1 + l2) + l;
    case Stopped(o, l) =>
      assert l1 + (l2 + l) == (l1 + l2) + l;
  }

  /** A hook record with the generator created for it, if one was. */
  function WithChild(h: Hook, c: Created): (r: Hook)
    ensures r.child == (if c.Made? then Some(c.generator) else h.child)
    ensures r.(child := h.child) == h
  {
    if c.Made? then h.(child := Some(c.generator)) else h
  }

  /**
   * One turn of the hook loop: after the child of hook `i` is created,
   * either the expansion goes on with one more hook and the child's trail,
   * or it stops with the child's outcome.
   */
  lemma ExpandAdvance(loader: Loader, roots: seq<string>, fuel: nat, decls: seq<HookDecl>, i: nat, p: Parent,
                      whole: Expansion, hooks: seq<Hook>, done: seq<string>)
    requires i < |decls|
    requires whole == Extend(hooks, done, Expand(loader, roots, fuel, decls, i, p))
    ensures var h := ParentHook(decls[i], p);
            var c := HookChild(loader, roots, decls[i], p, fuel);
            && ((c.outcome.Made? || c.outcome.NotFound?) ==>
                  whole == Extend(hooks + [WithChild(h, c.outcome)], done + c.log, Expand(loader, roots, fuel, decls, i + 1, p)))
            && (!(c.outcome.Made? || c.outcome.NotFound?) ==> whole == Stopped(c.outcome, done + c.log))
  {
    var h := ParentHook(decls[i], p);
    var c := HookChild(loader, roots, decls[i], p, fuel);
    if c.outcome.Made? || c.outcome.NotFound? {
      ExtendAssoc(hooks, done, [WithChild(h, c.outcome)], c.log, Expand(loader, roots, fuel, decls, i + 1, p));
    }
  }
}
