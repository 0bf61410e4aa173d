/**
 * Module loading, abstracted. `require(path)` either returns a module or
 * throws; the loader below says which, path by path. What a generator
 * module declares (its positional arguments, its hooks, its template root,
 * whether it is a generator at all) is recorded on the module value.
 */
module Loading {
  import opened Wrappers
  import opened Strings
  import opened JsValues

  /** A declared positional argument; `required` is `arg.config && arg.config.required`. */
  datatype ArgSpec = ArgSpec(name: string, required: bool)

  /**
   * A declared hook. `alias` is `hook.as`, with `""` standing for an absent
   * one (both are falsy); the other three are the hook's own values, if any.
   */
  datatype HookDecl = HookDecl(
    name: string,
    alias: string,
    args: Option<seq<string>>,
    options: Option<Fields>,
    config: Option<Fields>)

  /**
   * A loaded generator module. `isGenerator` stands for the test
   * `typeof module === 'function' && new module(...) instanceof Base`;
   * `sourceRoot` is the template root its constructor sets (`""` if none).
   * `constructError` is the error `create` meets when it instantiates the
   * module: `new Klass(...)` throwing (the export is not a constructor, or
   * its constructor throws), or the instance having no `_hooks` list to map
   * over; `None` when instantiation goes through.
   */
  datatype GenModule = GenModule(
    id: string,
    isGenerator: bool,
    arguments: seq<ArgSpec>,
    hooks: seq<HookDecl>,
    sourceRoot: string,
    constructError: Option<string>)

  datatype LoadResult = Loaded(mod: GenModule) | Threw(message: string)

  /** What `require` does at each path; a path it does not list holds no module. */
  type Loader = map<string, LoadResult>

  /** The message Node gives for a path with no module behind it. */
  function NotFoundMessage(path: string): (m: string)
  {
    "Cannot find module '" + path + "'"
  }

  /** `require(path)` */
  function Load(loader: Loader, path: string): (r: LoadResult)
  {
    if path in loader then loader[path] else Threw(NotFoundMessage(path))
  }

  /** How the resolver reads one `require` attempt. */
  datatype Status = Present(mod: GenModule) | Absent | Broken(message: string)

  /**
   * A failure whose message mentions the attempted path is "nothing here"
   * and is swallowed; any other failure is a genuine error.
   */
  function Classify(loader: Loader, path: string): (st: Status)
    ensures st.Present? <==> Load(loader, path).Loaded?
    ensures st.Present? ==> st.mod == Load(loader, path).mod
    ensures st.Absent? <==> Load(loader, path).Threw? && Contains(Load(loader, path).message, path)
    ensures st.Broken? ==> st.message == Load(loader, path).message && !Contains(st.message, path)
  {
    match Load(loader, path)
    case Loaded(m) => Present(m)
    case Threw(msg) => if Contains(msg, path) then Absent else Broken(msg)
  }

  /** A path the loader does not list is read as "nothing here". */
  lemma UnlistedIsAbsent(loader: Loader, path: string)
    requires path !in loader
    ensures Classify(loader, path) == Absent
  {
    ContainsInfix("Cannot find module '", path, "'");
  }

  /** `/Cannot find module ['"]yeoman['"]/.test(message)` */
  predicate MissingYeoman(message: string)
  {
    Contains(message, "Cannot find module 'yeoman'") ||
    Contains(message, "Cannot find module 'yeoman\"") ||
    Contains(message, "Cannot find module \"yeoman'") ||
    Contains(message, "Cannot find module \"yeoman\"")
  }
}
