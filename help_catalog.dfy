/**
 * The help listing: `lookupHelp` finds every `index.js` under a root's two
 * sub-bases, skips template directories, reads each path back as a
 * namespace, keeps the modules that are generators and drops repeated
 * files; `help` merges the catalogs of all roots, removes repeated and
 * hidden namespaces, groups them by first segment and prints the
 * `yeoman` group first.
 */
module HelpCatalog {
  import opened Wrappers
  import opened Strings
  import opened PathConvention
  import opened Loading
  import Resolution

  /** One file found by `lookupHelp`. */
  datatype Entry = Entry(root: string, path: string, fullpath: string, mod: Option<GenModule>, namespace: string)

  /** Namespaces never shown in the listing. */
  const HiddenNamespaces: seq<string> := ["yeoman:app", "yeoman:js", "sass:app", "jasmine:app", "mocha:app"]

  // ---------------------------------------------------------------------------
  // Keeping the first of each key

  function KeysOf<T, K>(s: seq<T>, key: T -> K): (ks: seq<K>)
    ensures |ks| == |s|
    ensures forall i :: 0 <= i < |s| ==> ks[i] == key(s[i])
  {
    seq(|s|, i requires 0 <= i < |s| => key(s[i]))
  }

  /** The elements of `s` whose key no earlier element has, in order. */
  function KeepFirstBy<T, K(==)>(s: seq<T>, key: T -> K): (r: seq<T>)
  {
    if s == [] then []
    else
      var init := s[..|s| - 1];
      KeepFirstBy(init, key) + (if key(s[|s| - 1]) in KeysOf(init, key) then [] else [s[|s| - 1]])
  }

  lemma KeysOfAppend<T, K>(a: seq<T>, b: seq<T>, key: T -> K)
    ensures KeysOf(a + b, key) == KeysOf(a, key) + KeysOf(b, key)
  {
  }

  /** The kept elements have distinct keys, and between them they have every key of `s`. */
  lemma {:induction false} KeepFirstByKeys<T, K>(s: seq<T>, key: T -> K)
    ensures forall i, j :: 0 <= i < j < |KeepFirstBy(s, key)| ==> key(KeepFirstBy(s, key)[i]) != key(KeepFirstBy(s, key)[j])
    ensures forall x :: x in KeysOf(KeepFirstBy(s, key), key) ==> x in KeysOf(s, key)
    ensures forall x :: x in KeysOf(s, key) ==> x in KeysOf(KeepFirstBy(s, key), key)
    decreases |s|
  {
    if s != [] {
      var init := s[..|s| - 1];
      var last := s[|s| - 1];
      KeepFirstByKeys(init, key);
      var r0 := KeepFirstBy(init, key);
      var tail := if key(last) in KeysOf(init, key) then [] else [last];
      KeysOfAppend(r0, tail, key);
      KeysOfAppend(init, [last], key);
      assert s == init + [last];
      var r := KeepFirstBy(s, key);
      assert r == r0 + tail;
      forall i, j | 0 <= i < j < |r| ensures key(r[i]) != key(r[j]) {
        if j >= |r0| {
          assert tail == [last] && r[j] == last && r[i] == r0[i];
          var y := key(r0[i]);
          assert KeysOf(r0, key)[i] == y;
          assert y in KeysOf(r0, key);
        }
      }
    }
  }

  /**
   * The kept elements are a subsequence of `s` (at the increasing
   * positions `idx`), and each is the first element of `s` with its key.
   */
  lemma {:induction false} KeepFirstByFirst<T, K>(s: seq<T>, key: T -> K) returns (idx: seq<nat>)
    ensures |idx| == |KeepFirstBy(s, key)|
    ensures forall k :: 0 <= k < |idx| ==> idx[k] < |s| && s[idx[k]] == KeepFirstBy(s, key)[k]
    ensures forall k, j :: 0 <= k < |idx| && 0 <= j < idx[k] ==> key(s[j]) != key(s[idx[k]])
    ensures forall k1, k2 :: 0 <= k1 < k2 < |idx| ==> idx[k1] < idx[k2]
    decreases |s|
  {
    if s == [] {
      idx := [];
    } else {
      var init := s[..|s| - 1];
      var last := s[|s| - 1];
      var idx0 := KeepFirstByFirst(init, key);
      var r0 := KeepFirstBy(init, key);
      var r := KeepFirstBy(s, key);
      if key(last) in KeysOf(init, key) {
        assert r == r0;
        idx := idx0;
        forall k | 0 <= k < |idx| ensures idx[k] < |s| && s[idx[k]] == r[k] {
          assert s[idx0[k]] == init[idx0[k]];
        }
        forall k, j | 0 <= k < |idx| && 0 <= j < idx[k] ensures key(s[j]) != key(s[idx[k]]) {
          assert s[j] == init[j] && s[idx[k]] == init[idx[k]];
        }
      } else {
        assert r == r0 + [last];
        idx := idx0 + [|s| - 1];
        forall k | 0 <= k < |idx| ensures idx[k] < |s| && s[idx[k]] == r[k] {
          if k < |r0| {
            assert s[idx0[k]] == init[idx0[k]];
          }
        }
        forall k, j | 0 <= k < |idx| && 0 <= j < idx[k] ensures key(s[j]) != key(s[idx[k]]) {
          if k < |r0| {
            assert s[j] == init[j] && s[idx[k]] == init[idx[k]];
          } else {
            assert KeysOf(init, key)[j] == key(s[j]);
          }
        }
      }
    }
  }

  // ---------------------------------------------------------------------------
  // lookupHelp

  /** `path.join(basedir, 'lib', p)` */
  function HelpPrefix(basedir: string, sub: string): (r: string)
  {
    basedir + "/lib/" + sub
  }

  /** Whether the host's expansion of `<prefix>/**/index.js` lists `file`. */
  predicate MatchesPattern(prefix: string, file: string)
  {
    IsPrefix(prefix + "/", file) && IsSuffix("/index.js", file)
  }

  /** `path.basename(path.dirname(file))` */
  function ParentDirName(file: string): (r: string)
  {
    var segs := Split(file, '/');
    if |segs| >= 2 then segs[|segs| - 2] else "."
  }

  /** The files found under one prefix, template directories left out, in the host's order. */
  function GeneratorFiles(disk: seq<string>, prefix: string): (files: seq<string>)
    ensures forall f :: f in files <==> f in disk && MatchesPattern(prefix, f) && ParentDirName(f) != "templates"
  {
    if disk == [] then []
    else
      var rest := GeneratorFiles(disk[1..], prefix);
      if MatchesPattern(prefix, disk[0]) && ParentDirName(disk[0]) != "templates" then [disk[0]] + rest else rest
  }

  /** `s.slice(n)` */
  function Slice(s: string, n: nat): (r: string)
  {
    if n <= |s| then s[n..] else ""
  }

  /** `shorten.split('/').slice(0, -1).join(':')`: the directories of a file, read as a namespace. */
  function NamespaceOf(shorten: string): (r: string)
  {
    var segs := Split(shorten, '/');
    Join(segs[..|segs| - 1], ':')
  }

  /** The entry for one file; a failure other than a missing `yeoman` module escapes. */
  function LoadEntry(loader: Loader, prefix: string, file: string): (r: Result<Entry, string>)
  {
    var shorten := Slice(file, |prefix| + 1);
    var ns := NamespaceOf(shorten);
    match Load(loader, file)
    case Loaded(m) => Success(Entry(prefix, shorten, file, Some(m), ns))
    case Threw(msg) =>
      if MissingYeoman(msg) then Success(Entry(prefix, shorten, file, None, ns)) else Failure(msg)
  }

  /** The entries of `files`, in order, or the first failure that escaped. */
  function LoadEntries(loader: Loader, prefix: string, files: seq<string>): (r: Result<seq<Entry>, string>)
  {
    if files == [] then Success([])
    else
      match LoadEntry(loader, prefix, files[0])
      case Failure(e) => Failure(e)
      case Success(entry) =>
        match LoadEntries(loader, prefix, files[1..])
        case Failure(e) => Failure(e)
        case Success(rest) => Success([entry] + rest)
  }

  /** The entries found under each of `subs`, in order, or the first failure that escaped. */
  function ScanSubBases(loader: Loader, basedir: string, disk: seq<string>, subs: seq<string>): (r: Result<seq<Entry>, string>)
  {
    if subs == [] then Success([])
    else
      var prefix := HelpPrefix(basedir, subs[0]);
      match LoadEntries(loader, prefix, GeneratorFiles(disk, prefix))
      case Failure(e) => Failure(e)
      case Success(a) =>
        match ScanSubBases(loader, basedir, disk, subs[1..])
        case Failure(e) => Failure(e)
        case Success(b) => Success(a + b)
  }

  /** Every entry found under both sub-bases of `basedir`, `yeoman/generators` first. */
  function Scan(loader: Loader, basedir: string, disk: seq<string>): (r: Result<seq<Entry>, string>)
  {
    ScanSubBases(loader, basedir, disk, Resolution.SubBases)
  }

  /** The modules that pass the generator test, in order. */
  function GeneratorEntries(found: seq<Entry>): (r: seq<Entry>)
    ensures forall e :: e in r <==> e in found && e.mod.Some? && e.mod.value.isGenerator
  {
    if found == [] then []
    else
      var rest := GeneratorEntries(found[1..]);
      var e := found[0];
      if e.mod.Some? && e.mod.value.isGenerator then [e] + rest else rest
  }

  function FullpathOf(e: Entry): (r: string)
  {
    e.fullpath
  }

  /** `lookupHelp(basedir)`: the generators found, each file once, first occurrence kept. */
  function Catalog(loader: Loader, basedir: string, disk: seq<string>): (r: Result<seq<Entry>, string>)
  {
    match Scan(loader, basedir, disk)
    case Failure(e) => Failure(e)
    case Success(found) => Success(KeepFirstBy(GeneratorEntries(found), FullpathOf))
  }

  /** The `paths` filter at the end of `lookupHelp`: drop every entry whose file was already seen. */
  method DedupByFullpath(found: seq<Entry>) returns (kept: seq<Entry>)
    ensures kept == KeepFirstBy(found, FullpathOf)
  {
    var paths: seq<string> := [];
    kept := [];
    var i := 0;
    while i < |found|
      invariant 0 <= i <= |found|
      invariant paths == KeysOf(found[..i], FullpathOf)
      invariant kept == KeepFirstBy(found[..i], FullpathOf)
    {
      var unseen := found[i].fullpath !in paths;
      paths := paths + [found[i].fullpath];
      if unseen {
        kept := kept + [found[i]];
      }
      assert found[..i + 1][..i] == found[..i];
      i := i + 1;
    }
    assert found[..|found|] == found;
  }

  /** A catalog lists only generators, and each file at most once. */
  lemma CatalogDistinctFiles(loader: Loader, basedir: string, disk: seq<string>)
    requires Catalog(loader, basedir, disk).Success?
    ensures var c := Catalog(loader, basedir, disk).value;
            && (forall i, j :: 0 <= i < j < |c| ==> c[i].fullpath != c[j].fullpath)
            && (forall i :: 0 <= i < |c| ==> c[i].mod.Some? && c[i].mod.value.isGenerator)
  {
    var found := Scan(loader, basedir, disk).value;
    var gens := GeneratorEntries(found);
    var c := KeepFirstBy(gens, FullpathOf);
    assert Catalog(loader, basedir, disk).value == c;
    KeepFirstByKeys(gens, FullpathOf);
    var idx := KeepFirstByFirst(gens, FullpathOf);
    forall i | 0 <= i < |c| ensures c[i].mod.Some? && c[i].mod.value.isGenerator {
      assert gens[idx[i]] in gens;
    }
  }

  /**
   * A failing list of files failed on one of them: `require` threw at that
   * file with the escaped message, and the message was not the tolerated
   * missing-`yeoman` one.
   */
  lemma {:induction false} LoadEntriesFailure(loader: Loader, prefix: string, files: seq<string>)
    requires LoadEntries(loader, prefix, files).Failure?
    ensures var e := LoadEntries(loader, prefix, files).error;
            exists f :: f in files && Load(loader, f) == Threw(e) && !MissingYeoman(e)
    decreases |files|
  {
    var e := LoadEntries(loader, prefix, files).error;
    if LoadEntry(loader, prefix, files[0]).Failure? {
      assert Load(loader, files[0]) == Threw(e) && !MissingYeoman(e);
    } else {
      LoadEntriesFailure(loader, prefix, files[1..]);
      var f :| f in files[1..] && Load(loader, f) == Threw(e) && !MissingYeoman(e);
      assert f in files;
    }
  }

  /** A failing scan of sub-bases failed on a listed file, as `LoadEntriesFailure` says. */
  lemma {:induction false} ScanSubBasesFailure(loader: Loader, basedir: string, disk: seq<string>, subs: seq<string>)
    requires ScanSubBases(loader, basedir, disk, subs).Failure?
    ensures var e := ScanSubBases(loader, basedir, disk, subs).error;
            exists f :: f in disk && Load(loader, f) == Threw(e) && !MissingYeoman(e)
    decreases |subs|
  {
    var e := ScanSubBases(loader, basedir, disk, subs).error;
    var prefix := HelpPrefix(basedir, subs[0]);
    var files := GeneratorFiles(disk, prefix);
    if LoadEntries(loader, prefix, files).Failure? {
      LoadEntriesFailure(loader, prefix, files);
      var f :| f in files && Load(loader, f) == Threw(e) && !MissingYeoman(e);
      assert f in disk;
    } else {
      ScanSubBasesFailure(loader, basedir, disk, subs[1..]);
    }
  }

  /**
   * `lookupHelp` fails only when `require` threw at one of the listed files
   * an error that is not a missing `yeoman` module; when the loader lists
   * every file on disk, as it does for files a glob has found, that error
   * is the one the listed module throws.
   */
  lemma ScanFailureCause(loader: Loader, basedir: string, disk: seq<string>)
    requires Catalog(loader, basedir, disk).Failure?
    ensures var e := Catalog(loader, basedir, disk).error;
            && (exists f :: f in disk && Load(loader, f) == Threw(e) && !MissingYeoman(e))
            && ((forall f :: f in disk ==> f in loader) ==>
                  exists f :: f in disk && f in loader && loader[f] == Threw(e))
  {
    ScanSubBasesFailure(loader, basedir, disk, Resolution.SubBases);
  }

  /** A generator at `<prefix>/<path of ns>/index.js` is listed under `ns`: the catalog inverts the path convention. */
  lemma NamespaceOfInvertsConvention(prefix: string, ns: string)
    requires '/' !in ns
    ensures NamespaceOf(Slice(prefix + "/" + NamespaceToPath(ns) + "/index.js", |prefix| + 1)) == ns
  {
    var p := NamespaceToPath(ns);
    var file := prefix + "/" + p + "/index.js";
    assert Slice(file, |prefix| + 1) == p + ['/'] + "index.js";
    SplitBeforeLast(p, "index.js", '/');
    PathSegments(ns);
    var segs := Split(p + ['/'] + "index.js", '/');
    assert segs[..|segs| - 1] == Split(ns, ':');
    JoinSplit(ns, ':');
  }

  // ---------------------------------------------------------------------------
  // help

  function Self(s: string): (r: string)
  {
    s
  }

  /** `_.uniq`: the first of each namespace, in order. */
  function Uniq(ns: seq<string>): (r: seq<string>)
  {
    KeepFirstBy(ns, Self)
  }

  /** `namespaces.filter(ns => hiddenNamespaces.indexOf(ns) === -1)` */
  function Visible(ns: seq<string>): (r: seq<string>)
    ensures forall x :: x in r <==> x in ns && x !in HiddenNamespaces
  {
    if ns == [] then []
    else Visible(ns[..|ns| - 1]) + (if ns[|ns| - 1] in HiddenNamespaces then [] else [ns[|ns| - 1]])
  }

  function NamespacesOf(all: seq<Entry>): (r: seq<string>)
  {
    seq(|all|, i requires 0 <= i < |all| => all[i].namespace)
  }

  /**
   * The namespaces of catalogs put together are each catalog's namespaces,
   * catalog after catalog: `users.concat(plugins).concat(internal)` lists
   * the user's generators first and the built-in ones last.
   */
  lemma NamespacesOfConcat(a: seq<Entry>, b: seq<Entry>)
    ensures NamespacesOf(a + b) == NamespacesOf(a) + NamespacesOf(b)
  {
  }

  /** The namespaces the listing shows, in first-seen order. */
  function Shown(all: seq<Entry>): (r: seq<string>)
  {
    Visible(Uniq(NamespacesOf(all)))
  }

  /**
   * `namespace.split(':')[0]`: the text before the first `:`, the whole
   * namespace when it has none.
   */
  function FirstSegment(ns: string): (key: string)
    ensures ':' !in key
    ensures IsPrefix(key, ns)
    ensures key == ns <==> ':' !in ns
  {
    SplitFirstIsPrefix(ns, ':');
    Split(ns, ':')[0]
  }

  /** The group key of each namespace: a `:`-free leading part of it. */
  function Firsts(ns: seq<string>): (r: seq<string>)
    ensures |r| == |ns|
    ensures forall i :: 0 <= i < |ns| ==> r[i] == FirstSegment(ns[i])
    ensures forall i :: 0 <= i < |ns| ==> ':' !in r[i] && IsPrefix(r[i], ns[i])
  {
    seq(|ns|, i requires 0 <= i < |ns| => FirstSegment(ns[i]))
  }

  /** The group keys, in the order their first namespace appears. */
  function GroupKeys(ns: seq<string>): (r: seq<string>)
  {
    Uniq(Firsts(ns))
  }

  /** The members of group `k`, in order. */
  function Members(ns: seq<string>, k: string): (r: seq<string>)
    ensures forall x :: x in r <==> x in ns && FirstSegment(x) == k
  {
    if ns == [] then []
    else Members(ns[..|ns| - 1], k) + (if FirstSegment(ns[|ns| - 1]) == k then [ns[|ns| - 1]] else [])
  }

  /** The loop that builds `groups`; `keys` is the insertion order `Object.keys(groups)` reports. */
  method GroupByBase(ns: seq<string>) returns (keys: seq<string>, groups: map<string, seq<string>>)
    ensures keys == GroupKeys(ns)
    ensures forall k :: k in groups <==> k in Firsts(ns)
    ensures forall k :: k in groups ==> groups[k] == Members(ns, k)
  {
    keys := [];
    groups := map[];
    var i := 0;
    while i < |ns|
      invariant 0 <= i <= |ns|
      invariant keys == GroupKeys(ns[..i])
      invariant forall k :: k in groups <==> k in Firsts(ns[..i])
      invariant forall k :: k in groups ==> groups[k] == Members(ns[..i], k)
    {
      var base := FirstSegment(ns[i]);
      GroupStep(ns, i);
      if base !in groups {
        MembersOfAbsentKey(ns[..i], base);
        groups := groups[base := []];
        keys := keys + [base];
      }
      groups := groups[base := groups[base] + [ns[i]]];
      i := i + 1;
    }
    assert ns[..|ns|] == ns;
  }

  /** How the first segments, the keys and the members grow by one namespace. */
  lemma GroupStep(ns: seq<string>, i: nat)
    requires i < |ns|
    ensures Firsts(ns[..i + 1]) == Firsts(ns[..i]) + [FirstSegment(ns[i])]
    ensures GroupKeys(ns[..i + 1]) ==
      GroupKeys(ns[..i]) + (if FirstSegment(ns[i]) in Firsts(ns[..i]) then [] else [FirstSegment(ns[i])])
    ensures forall k :: Members(ns[..i + 1], k) == Members(ns[..i], k) + (if FirstSegment(ns[i]) == k then [ns[i]] else [])
  {
    var base := FirstSegment(ns[i]);
    assert ns[..i + 1][..i] == ns[..i];
    assert Firsts(ns[..i + 1]) == Firsts(ns[..i]) + [base];
    assert Firsts(ns[..i + 1])[..i] == Firsts(ns[..i]);
    assert KeysOf(Firsts(ns[..i]), Self) == Firsts(ns[..i]);
  }

  /** A key no namespace starts with has no members. */
  lemma {:induction false} MembersOfAbsentKey(ns: seq<string>, k: string)
    requires k !in Firsts(ns)
    ensures Members(ns, k) == []
    decreases |ns|
  {
    if ns != [] {
      var init := ns[..|ns| - 1];
      assert Firsts(ns)[|ns| - 1] == FirstSegment(ns[|ns| - 1]);
      assert Firsts(init) == Firsts(ns)[..|ns| - 1];
      MembersOfAbsentKey(init, k);
    }
  }

  /** One group of the listing: a heading and the namespaces shown under it. */
  datatype Section = Section(heading: string, members: seq<string>)

  /** `ns.replace(/^yeoman:/, '')` */
  function StripYeoman(ns: string): (r: string)
  {
    StripPrefix(ns, "yeoman:")
  }

  /**
   * The `yeoman` group's names: each loses its `yeoman:` prefix if it has
   * one, and is otherwise left as it was.
   */
  function StripAll(ns: seq<string>): (r: seq<string>)
    ensures |r| == |ns|
    ensures forall i :: 0 <= i < |ns| ==> r[i] == StripYeoman(ns[i])
    ensures forall i :: 0 <= i < |ns| ==>
      if IsPrefix("yeoman:", ns[i]) then "yeoman:" + r[i] == ns[i] else r[i] == ns[i]
  {
    seq(|ns|, i requires 0 <= i < |ns| => StripYeoman(ns[i]))
  }

  /** The `yeoman` group, printed first even when empty, prefixes stripped. */
  function YeomanSection(shown: seq<string>): (r: Section)
  {
    Section("yeoman", StripAll(Members(shown, "yeoman")))
  }

  /** The other groups, in key order. */
  function OtherSections(keys: seq<string>, shown: seq<string>): (r: seq<Section>)
  {
    if keys == [] then []
    else
      var k := keys[|keys| - 1];
      OtherSections(keys[..|keys| - 1], shown) + (if k == "yeoman" then [] else [Section(k, Members(shown, k))])
  }

  function Sections(shown: seq<string>): (r: seq<Section>)
  {
    [YeomanSection(shown)] + OtherSections(GroupKeys(shown), shown)
  }

  /** `base.charAt(0).toUpperCase() + base.slice(1)` */
  function Capitalize(s: string): (r: string)
  {
    if s == "" then "" else [UpperAscii(s[0])] + s[1..]
  }

  /** `printList(base, namespaces)`: heading, one indented line per namespace, and an empty line. */
  function PrintList(base: string, nss: seq<string>): (lines: seq<string>)
  {
    [Capitalize(base) + ":"] + Indented(nss) + [""]
  }

  /** One line per namespace, in order, indented by two spaces that are all it adds. */
  function Indented(nss: seq<string>): (r: seq<string>)
    ensures |r| == |nss|
    ensures forall i :: 0 <= i < |nss| ==> r[i] == "  " + nss[i]
    ensures forall i :: 0 <= i < |nss| ==> IsPrefix("  ", r[i]) && StripPrefix(r[i], "  ") == nss[i]
  {
    seq(|nss|, i requires 0 <= i < |nss| => "  " + nss[i])
  }

  /** A list is its capitalised heading, one indented line per namespace, and an empty line. */
  lemma PrintListShape(base: string, nss: seq<string>)
    ensures var lines := PrintList(base, nss);
            && |lines| == |nss| + 2
            && lines[0] == Capitalize(base) + ":" && lines[|lines| - 1] == ""
            && forall i :: 0 <= i < |nss| ==> lines[i + 1] == "  " + nss[i]
  {
  }

  function Render(sections: seq<Section>): (r: seq<string>)
  {
    if sections == [] then []
    else
      var last := sections[|sections| - 1];
      Render(sections[..|sections| - 1]) + PrintList(last.heading, last.members)
  }

  const UsageLines: seq<string> := [
    "Usage: yeoman generate GENERATOR [args] [options]",
    "",
    "General options:",
    "  -h, --help     # Print generator's options and usage",
    "",
    "Please choose a generator below.",
    ""]

  /** The usage text, printed as one `console.log`. */
  function Usage(): (r: string)
  {
    Join(UsageLines, '\n')
  }

  /** Everything `help` prints for the merged catalog `all`. */
  function HelpText(all: seq<Entry>): (r: seq<string>)
  {
    [Usage()] + Render(Sections(Shown(all)))
  }

  /** The plugin catalogs, concatenated in plugin order, or the first failure. */
  function PluginCatalogs(loader: Loader, plugins: seq<string>, disk: seq<string>): (r: Result<seq<Entry>, string>)
  {
    if plugins == [] then Success([])
    else
      match Catalog(loader, plugins[0], disk)
      case Failure(e) => Failure(e)
      case Success(a) =>
        match PluginCatalogs(loader, plugins[1..], disk)
        case Failure(e) => Failure(e)
        case Success(b) => Success(a + b)
  }

  /**
   * `help()`: the catalogs are read built-in first, then the application's,
   * then each plugin's, the first failure escaping; they are listed
   * application first, then plugins, then built-in.
   */
  function HelpOutput(loader: Loader, base: string, plugins: seq<string>, builtin: string, disk: seq<string>)
    : (r: Result<seq<string>, string>)
  {
    match Catalog(loader, builtin, disk)
    case Failure(e) => Failure(e)
    case Success(internal) =>
      match Catalog(loader, base, disk)
      case Failure(e) => Failure(e)
      case Success(users) =>
        match PluginCatalogs(loader, plugins, disk)
        case Failure(e) => Failure(e)
        case Success(plugs) => Success(HelpText(users + plugs + internal))
  }

  /**
   * The printing half of `help()`: the usage text, the `yeoman` group with
   * its prefix stripped, then every other group in the order its key was
   * first seen.
   */
  method PrintHelp(all: seq<Entry>) returns (out: seq<string>)
    ensures out == HelpText(all)
  {
    var shown := Shown(all);
    var keys, groups := GroupByBase(shown);
    var yeoman: seq<string> := [];
    if "yeoman" in groups {
      yeoman := groups["yeoman"];
    } else {
      MembersOfAbsentKey(shown, "yeoman");
    }
    yeoman := StripAll(yeoman);
    GroupKeysFromFirsts(shown);
    var lists := PrintGroups(keys, groups);
    ListsOfListed(shown, keys, groups, |keys|);
    assert keys[..|keys|] == keys;
    var head := PrintList("yeoman", yeoman);
    assert head + lists == Render(Sections(shown));
    out := [Usage()] + head + lists;
    AppendAssoc([Usage()], head, lists);
  }

  /** The `Object.keys(groups).forEach` loop: one list per key other than `yeoman`. */
  method PrintGroups(keys: seq<string>, groups: map<string, seq<string>>) returns (lists: seq<string>)
    requires forall k :: k in keys ==> k in groups
    ensures lists == ListsOf(keys, groups, |keys|)
  {
    lists := [];
    var i := 0;
    while i < |keys|
      invariant 0 <= i <= |keys|
      invariant lists == ListsOf(keys, groups, i)
    {
      var key := keys[i];
      assert key in keys;
      if key != "yeoman" {
        var printed := PrintList(key, groups[key]);
        assert ListsOf(keys, groups, i + 1) == lists + printed;
        lists := lists + printed;
      }
      i := i + 1;
    }
  }

  /** What the `printList` calls for the first `i` keys print. */
  function ListsOf(keys: seq<string>, groups: map<string, seq<string>>, i: nat): (r: seq<string>)
    requires i <= |keys|
    requires forall k :: k in keys ==> k in groups
  {
    if i == 0 then []
    else if keys[i - 1] == "yeoman" then ListsOf(keys, groups, i - 1)
    else ListsOf(keys, groups, i - 1) + PrintList(keys[i - 1], groups[keys[i - 1]])
  }

  /** With every group holding its members, the lists printed are the rendering of the sections. */
  lemma {:induction false} ListsOfListed(shown: seq<string>, keys: seq<string>, groups: map<string, seq<string>>, i: nat)
    requires i <= |keys|
    requires forall k :: k in keys ==> k in groups && groups[k] == Members(shown, k)
    ensures PrintList("yeoman", StripAll(Members(shown, "yeoman"))) + ListsOf(keys, groups, i) == Listed(shown, keys[..i])
  {
    if i == 0 {
      ListedStart(shown);
      var head := PrintList("yeoman", StripAll(Members(shown, "yeoman")));
      assert head + [] == head;
    } else {
      ListsOfListed(shown, keys, groups, i - 1);
      ListsOfStep(shown, keys, groups, i - 1);
    }
  }

  lemma ListsOfStep(shown: seq<string>, keys: seq<string>, groups: map<string, seq<string>>, i: nat)
    requires i < |keys|
    requires forall k :: k in keys ==> k in groups && groups[k] == Members(shown, k)
    requires PrintList("yeoman", StripAll(Members(shown, "yeoman"))) + ListsOf(keys, groups, i) == Listed(shown, keys[..i])
    ensures PrintList("yeoman", StripAll(Members(shown, "yeoman"))) + ListsOf(keys, groups, i + 1) == Listed(shown, keys[..i + 1])
  {
    var head := PrintList("yeoman", StripAll(Members(shown, "yeoman")));
    var k := keys[i];
    ListedStep(shown, keys, i);
    assert k in keys;
    if k == "yeoman" {
      var listed := Listed(shown, keys[..i]);
      assert listed + [] == listed;
    } else {
      AppendAssoc(head, ListsOf(keys, groups, i), PrintList(k, groups[k]));
    }
  }

  /** The lists printed once the groups of `keys` have been visited. */
  function Listed(shown: seq<string>, keys: seq<string>): (r: seq<string>)
  {
    Render([YeomanSection(shown)] + OtherSections(keys, shown))
  }

  /** Before any key is visited, only the `yeoman` list is printed. */
  lemma ListedStart(shown: seq<string>)
    ensures Listed(shown, []) == PrintList("yeoman", StripAll(Members(shown, "yeoman")))
  {
    RenderSnoc([], YeomanSection(shown));
    assert [YeomanSection(shown)] + OtherSections([], shown) == [] + [YeomanSection(shown)];
  }

  /** Visiting one more key prints its group, unless it is `yeoman`. */
  lemma ListedStep(shown: seq<string>, keys: seq<string>, i: nat)
    requires i < |keys|
    ensures Listed(shown, keys[..i + 1]) ==
      Listed(shown, keys[..i]) + (if keys[i] == "yeoman" then [] else PrintList(keys[i], Members(shown, keys[i])))
  {
    assert keys[..i + 1][..i] == keys[..i];
    assert OtherSections(keys[..i + 1], shown) ==
      OtherSections(keys[..i], shown) + (if keys[i] == "yeoman" then [] else [Section(keys[i], Members(shown, keys[i]))]);
    var before := [YeomanSection(shown)] + OtherSections(keys[..i], shown);
    if keys[i] != "yeoman" {
      var s := Section(keys[i], Members(shown, keys[i]));
      RenderSnoc(before, s);
      assert before + [s] == [YeomanSection(shown)] + (OtherSections(keys[..i], shown) + [s]);
    } else {
      var others := OtherSections(keys[..i], shown);
      assert others + [] == others;
      assert Listed(shown, keys[..i]) + [] == Listed(shown, keys[..i]);
    }
  }

  /** Rendering one more section prints its list after the others. */
  lemma RenderSnoc(sections: seq<Section>, s: Section)
    ensures Render(sections + [s]) == Render(sections) + PrintList(s.heading, s.members)
  {
    assert (sections + [s])[..|sections|] == sections;
  }

  /** Every group key is the first segment of some namespace. */
  lemma GroupKeysFromFirsts(ns: seq<string>)
    ensures forall k :: k in GroupKeys(ns) ==> k in Firsts(ns)
  {
    KeepFirstByKeys(Firsts(ns), Self);
    assert KeysOf(GroupKeys(ns), Self) == GroupKeys(ns);
    assert KeysOf(Firsts(ns), Self) == Firsts(ns);
  }

  // ---------------------------------------------------------------------------
  // Lemmas about the listing

  /** The listing shows no hidden namespace and no namespace twice, and every other namespace found. */
  lemma ShownClean(all: seq<Entry>)
    ensures var shown := Shown(all);
            && (forall i, j :: 0 <= i < j < |shown| ==> shown[i] != shown[j])
            && (forall x :: x in shown <==> (exists e :: e in all && e.namespace == x) && x !in HiddenNamespaces)
  {
    var nss := NamespacesOf(all);
    UniqDistinct(nss);
    VisibleKeepsDistinct(Uniq(nss));
    assert Shown(all) == Visible(Uniq(nss));
    forall x ensures x in nss <==> exists e :: e in all && e.namespace == x {
      if x in nss {
        var i :| 0 <= i < |nss| && nss[i] == x;
        assert all[i] in all;
      }
      if exists e :: e in all && e.namespace == x {
        var e :| e in all && e.namespace == x;
        var i :| 0 <= i < |all| && all[i] == e;
        assert nss[i] == x;
      }
    }
  }

  /** `_.uniq` leaves each namespace once and drops none. */
  lemma UniqDistinct(ns: seq<string>)
    ensures var u := Uniq(ns);
            && (forall i, j :: 0 <= i < j < |u| ==> u[i] != u[j])
            && (forall x :: x in u <==> x in ns)
  {
    var u := Uniq(ns);
    KeepFirstByKeys(ns, Self);
    assert KeysOf(u, Self) == u;
    assert KeysOf(ns, Self) == ns;
    forall i, j | 0 <= i < j < |u| ensures u[i] != u[j] {
      assert KeysOf(u, Self)[i] != KeysOf(u, Self)[j];
    }
  }

  lemma {:induction false} VisibleKeepsDistinct(ns: seq<string>)
    requires forall i, j :: 0 <= i < j < |ns| ==> ns[i] != ns[j]
    ensures forall i, j :: 0 <= i < j < |Visible(ns)| ==> Visible(ns)[i] != Visible(ns)[j]
    decreases |ns|
  {
    if ns != [] {
      var init := ns[..|ns| - 1];
      VisibleKeepsDistinct(init);
      var r0 := Visible(init);
      var r := Visible(ns);
      assert r == r0 + (if ns[|ns| - 1] in HiddenNamespaces then [] else [ns[|ns| - 1]]);
      forall i, j | 0 <= i < j < |r| ensures r[i] != r[j] {
        if j >= |r0| {
          assert r[i] == r0[i];
          assert r0[i] in r0;
          assert r0[i] in init;
          var m :| 0 <= m < |init| && init[m] == r0[i];
          assert ns[m] == r[i];
          assert r[j] == ns[|ns| - 1];
          assert m < |ns| - 1;
          assert ns[m] != ns[|ns| - 1];
        } else {
          assert r[i] == r0[i] && r[j] == r0[j];
          assert r0[i] != r0[j];
        }
      }
    }
  }

  /** Other sections come one per non-`yeoman` key, in key order. */
  lemma {:induction false} OtherSectionsFor(keys: seq<string>, shown: seq<string>, k: string)
    requires k in keys && k != "yeoman"
    ensures Section(k, Members(shown, k)) in OtherSections(keys, shown)
    decreases |keys|
  {
    var init := keys[..|keys| - 1];
    if keys[|keys| - 1] != k {
      assert keys == init + [keys[|keys| - 1]];
      assert k in init;
      OtherSectionsFor(init, shown, k);
    }
  }

  lemma {:induction false} OtherSectionsHeadings(keys: seq<string>, shown: seq<string>)
    ensures forall j :: 0 <= j < |OtherSections(keys, shown)| ==>
              && OtherSections(keys, shown)[j].heading in keys
              && OtherSections(keys, shown)[j].heading != "yeoman"
              && OtherSections(keys, shown)[j].members == Members(shown, OtherSections(keys, shown)[j].heading)
    decreases |keys|
  {
    if keys != [] {
      var init := keys[..|keys| - 1];
      var k := keys[|keys| - 1];
      OtherSectionsHeadings(init, shown);
      assert keys == init + [k];
      var before := OtherSections(init, shown);
      var os := OtherSections(keys, shown);
      assert os == before + (if k == "yeoman" then [] else [Section(k, Members(shown, k))]);
      forall j | 0 <= j < |os|
        ensures os[j].heading in keys && os[j].heading != "yeoman" && os[j].members == Members(shown, os[j].heading)
      {
        if j < |before| {
          assert os[j] == before[j];
          assert before[j].heading in init;
        } else {
          assert os[j] == Section(k, Members(shown, k));
        }
      }
    }
  }

  /**
   * Every shown namespace is listed in the section of its first segment
   * (the `yeoman` section with its prefix stripped), and in no other
   * section.
   */
  lemma ListedUnderFirstSegment(shown: seq<string>, ns: string)
    requires ns in shown
    ensures var ss := Sections(shown);
            && ss[0].heading == "yeoman"
            && (FirstSegment(ns) == "yeoman" ==> StripYeoman(ns) in ss[0].members)
            && (FirstSegment(ns) != "yeoman" ==> Section(FirstSegment(ns), Members(shown, FirstSegment(ns))) in ss[1..])
            && (forall j :: 1 <= j < |ss| && ns in ss[j].members ==> ss[j].heading == FirstSegment(ns))
  {
    var ss := Sections(shown);
    var keys := GroupKeys(shown);
    OtherSectionsHeadings(keys, shown);
    assert ss[1..] == OtherSections(keys, shown);
    if FirstSegment(ns) == "yeoman" {
      var m := Members(shown, "yeoman");
      var i :| 0 <= i < |m| && m[i] == ns;
      assert StripAll(m)[i] == StripYeoman(ns);
    } else {
      KeepFirstByKeys(Firsts(shown), Self);
      var i :| 0 <= i < |shown| && shown[i] == ns;
      assert Firsts(shown)[i] == FirstSegment(ns);
      assert FirstSegment(ns) in KeysOf(Firsts(shown), Self);
      assert KeysOf(keys, Self) == keys;
      OtherSectionsFor(keys, shown, FirstSegment(ns));
    }
    forall j | 1 <= j < |ss| && ns in ss[j].members ensures ss[j].heading == FirstSegment(ns) {
      assert ss[j] == OtherSections(keys, shown)[j - 1];
    }
  }
}
