/**
 * What `invoke` decides once `create` has returned: report the search
 * trail when nothing was found, show the generator's help when a required
 * argument is missing or help was asked for, and otherwise run it.
 */
module Invocation {
  import opened Strings
  import opened JsValues
  import opened Loading
  import opened Factory

  datatype Invocation =
    | Unresolved(report: seq<string>)
    | ShowHelp(generator: Generator)
    | Run(generator: Generator, args: seq<string>, announce: string)
    | InvokeFailed(message: string)
    | InvokeExhausted

  /** `'Tried in:\n' + loadedPath.map(p => ' - ' + p).join('\n')` */
  function TrailText(log: seq<string>): (t: string)
  {
    "Tried in:\n" + Join(Bullets(log), '\n')
  }

  /** One bullet per logged path, in order; a bullet adds no line break of its own. */
  function Bullets(log: seq<string>): (b: seq<string>)
    ensures |b| == |log|
    ensures forall i :: 0 <= i < |log| ==> b[i] == " - " + log[i]
    ensures forall i :: 0 <= i < |log| ==> ('\n' in b[i] <==> '\n' in log[i])
    ensures forall i :: 0 <= i < |log| ==> StripPrefix(b[i], " - ") == log[i]
  {
    seq(|log|, i requires 0 <= i < |log| => " - " + log[i])
  }

  /** The two lines printed when no generator was found. */
  function NotFoundReport(ns: string, log: seq<string>): (lines: seq<string>)
  {
    ["Could not find generator " + ns, TrailText(log)]
  }

  /** `generator._arguments.some(arg => arg.config && arg.config.required)` */
  predicate RequiresArgs(g: Generator)
  {
    exists i :: 0 <= i < |g.mod.arguments| && g.mod.arguments[i].required
  }

  /** `sourceRoot` defaults to `<generatorPath>/templates` when the generator left it unset. */
  function WithSourceRoot(g: Generator): (r: Generator)
    ensures r.sourceRoot != ""
    ensures g.sourceRoot != "" ==> r == g
    ensures g.sourceRoot == "" ==> r == g.(sourceRoot := g.generatorPath + "/templates")
  {
    if g.sourceRoot == "" then g.(sourceRoot := g.generatorPath + "/templates") else g
  }

  /** The decision `invoke` takes on what `create` returned, given the log of the search. */
  function Decide(ns: string, created: Created, args: seq<string>, options: Fields, log: seq<string>): (r: Invocation)
    ensures r.Unresolved? <==> created.NotFound?
    ensures r.Unresolved? ==> r.report == NotFoundReport(ns, log)
    ensures r.ShowHelp? <==>
      created.Made? && ((|args| == 0 && RequiresArgs(created.generator)) || Truthy(Get(options, "help")))
    ensures r.Run? <==>
      created.Made? && !(|args| == 0 && RequiresArgs(created.generator)) && !Truthy(Get(options, "help"))
    ensures r.ShowHelp? || r.Run? ==> r.generator == WithSourceRoot(created.generator)
    ensures r.Run? ==> r.args == args && r.announce == ".. Invoke " + StripPrefix(ns, "yeoman:") + " .."
    ensures r.InvokeFailed? <==> created.Failed?
    ensures created.Failed? ==> r == InvokeFailed(created.message)
    ensures r.InvokeExhausted? <==> created.Exhausted?
  {
    match created
    case NotFound => Unresolved(NotFoundReport(ns, log))
    case Failed(msg) => InvokeFailed(msg)
    case Exhausted => InvokeExhausted
    case Made(g) =>
      var g' := WithSourceRoot(g);
      if |args| == 0 && RequiresArgs(g) then ShowHelp(g')
      else if Truthy(Get(options, "help")) then ShowHelp(g')
      else Run(g', args, ".. Invoke " + StripPrefix(ns, "yeoman:") + " ..")
  }

  /**
   * The trail lists every logged path on a line of its own, after the
   * heading, when no path has a line break in it.
   */
  lemma TrailLines(log: seq<string>)
    requires |log| > 0
    requires forall i :: 0 <= i < |log| ==> '\n' !in log[i]
    ensures Split(TrailText(log), '\n') == ["Tried in:"] + Bullets(log)
  {
    var b := Bullets(log);
    forall i | 0 <= i < |b| ensures '\n' !in b[i] {
      assert b[i] == " - " + log[i];
    }
    SplitJoin(b, '\n');
    assert TrailText(log) == "Tried in:" + ['\n'] + Join(b, '\n');
    SplitAround("Tried in:", Join(b, '\n'), '\n');
  }
}
