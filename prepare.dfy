/**
 * `prepare`: read the generator name and its arguments off the grunt
 * command line, and rewrite every task word so that grunt routes it to the
 * `init` task instead of looking for a Gruntfile task of that name.
 */
module Prepare {
  import opened Wrappers
  import opened Strings

  /** `tasks.slice(1)` after the `shift()`: the words after the generator name. */
  function PositionalArgs(tasks: seq<string>): (args: seq<string>)
  {
    if |tasks| >= 2 then tasks[2..] else []
  }

  /** `tasks.slice(1).shift()`: the second word, if there is one. */
  function RequestedName(tasks: seq<string>): (name: Option<string>)
  {
    if |tasks| >= 2 then Some(tasks[1]) else None
  }

  /** `arg === 'init' ? 'init:yeoman' : 'init:' + arg` */
  function RewriteTask(arg: string): (t: string)
    ensures IsPrefix("init:", t)
  {
    if arg == "init" then "init:yeoman" else "init:" + arg
  }

  /**
   * `cli.tasks.map(...)`: every word rewritten, in place; each rewritten
   * word is an `init:` task from which the word can be read back.
   */
  function RewriteTasks(tasks: seq<string>): (r: seq<string>)
    ensures |r| == |tasks|
    ensures forall i :: 0 <= i < |tasks| ==> r[i] == RewriteTask(tasks[i])
    ensures forall i :: 0 <= i < |tasks| ==> IsPrefix("init:", r[i])
    ensures forall i :: 0 <= i < |tasks| ==>
      StripPrefix(r[i], "init:") == (if tasks[i] == "init" then "yeoman" else tasks[i])
  {
    RewriteEach(tasks);
    seq(|tasks|, i requires 0 <= i < |tasks| => RewriteTask(tasks[i]))
  }

  /**
   * The name and the arguments are the command line minus its first word:
   * nothing is dropped or reordered.
   */
  lemma SplitCommandLine(tasks: seq<string>)
    ensures RequestedName(tasks).None? <==> |tasks| < 2
    ensures RequestedName(tasks).None? ==> PositionalArgs(tasks) == []
    ensures RequestedName(tasks).Some? ==> tasks == [tasks[0], RequestedName(tasks).value] + PositionalArgs(tasks)
  {
    if |tasks| >= 2 {
      assert tasks == [tasks[0], tasks[1]] + tasks[2..];
    }
  }

  /**
   * Stripping the `init:` prefix again gives back the word, except that a
   * bare `init` comes back as `yeoman`.
   */
  lemma RewriteRoundTrip(arg: string)
    ensures StripPrefix(RewriteTask(arg), "init:") == (if arg == "init" then "yeoman" else arg)
  {
    var t := RewriteTask(arg);
    var r := StripPrefix(t, "init:");
    assert "init:" + r == t;
    if arg == "init" {
      assert t == "init:" + "yeoman";
    }
  }

  /** The round trip for every word of a command line. */
  lemma RewriteEach(tasks: seq<string>)
    ensures forall i :: 0 <= i < |tasks| ==>
      StripPrefix(RewriteTask(tasks[i]), "init:") == (if tasks[i] == "init" then "yeoman" else tasks[i])
  {
    forall i | 0 <= i < |tasks|
      ensures StripPrefix(RewriteTask(tasks[i]), "init:") == (if tasks[i] == "init" then "yeoman" else tasks[i])
    {
      RewriteRoundTrip(tasks[i]);
    }
  }

  /**
   * The rewrite tells every two words apart except `init` and `yeoman`,
   * which both become `init:yeoman`.
   */
  lemma RewriteCollisions(a: string, b: string)
    ensures RewriteTask(a) == RewriteTask(b) <==>
      a == b || (a == "init" && b == "yeoman") || (a == "yeoman" && b == "init")
  {
    RewriteRoundTrip(a);
    RewriteRoundTrip(b);
    if a == "init" && b == "yeoman" {
      assert RewriteTask(b) == "init:" + "yeoman";
    }
    if a == "yeoman" && b == "init" {
      assert RewriteTask(a) == "init:" + "yeoman";
    }
  }
}
