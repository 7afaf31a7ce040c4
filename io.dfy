/** The outside world as the command-line tool sees it: results of steps
    that read or write files or run child processes, and the log of the
    effects a step performed.  Nothing here performs I/O; a step of the
    build is a function from what the environment answers to what it did. */
module Io {

  datatype Option<+T> = None | Some(value: T)

  /** An `anyhow::Error`: either an operating-system error whose text the
      model does not know, or a message the tool itself attaches (a
      `.context(...)` or a `bail!`). */
  datatype Error = IoError | Message(text: string)

  /** `anyhow::Result<()>` */
  datatype Outcome = Ok | Err(error: Error)

  /** What `Command::status()` reports: the child could not be started, or
      it ran and exited with or without success. */
  datatype Process = SpawnFailed | Exited(success: bool)

  /** An absolute path as its list of components; the root is `[]`. */
  type Path = seq<string>

  /** `Path::parent` of an absolute path. */
  function Parent(p: Path): (r: Option<Path>)
    ensures r.None? <==> p == []
    ensures r.Some? ==> r.value + [p[|p| - 1]] == p
  {
    if p == [] then None else Some(p[..|p| - 1])
  }

  /** How `Path::display` spells an absolute path. */
  function Display(p: Path): string
  {
    if p == [] then "/" else DisplayFrom(p)
  }

  function DisplayFrom(p: Path): string
  {
    if p == [] then "" else DisplayFrom(p[..|p| - 1]) + "/" + p[|p| - 1]
  }

  /** An effect that took place: a file written with the given content, the
      static-site builder program for an output directory written to a
      file, a command run to completion, a file or a directory tree
      copied. */
  datatype Effect =
    | WriteFile(path: string, content: string)
    | WriteBuilder(path: string, outDir: string)
    | Run(command: seq<string>)
    | CopyFile(source: string, target: string)
    | CopyTree(source: string, target: string)

  /** What one step did: its result, the effects that took place in order,
      and the warnings it logged. */
  datatype Step = Step(outcome: Outcome, effects: seq<Effect>, warnings: seq<string>)

  /** `a?; b`: run `b` only when `a` succeeded, keeping `a`'s effects. */
  function Then(a: Step, b: Step): (r: Step)
    ensures a.outcome.Err? ==> r == a
    ensures a.outcome.Ok? ==> r.outcome == b.outcome
    ensures a.outcome.Ok? ==> r.effects == a.effects + b.effects && r.warnings == a.warnings + b.warnings
  {
    if a.outcome.Err? then a else Step(b.outcome, a.effects + b.effects, a.warnings + b.warnings)
  }

  /** A step that only reports an outcome. */
  function Just(o: Outcome): Step
  {
    Step(o, [], [])
  }

  /** `(a?; b)?; c` and `a?; (b?; c)` are the same step. */
  lemma ThenAssoc(a: Step, b: Step, c: Step)
    ensures Then(Then(a, b), c) == Then(a, Then(b, c))
  {
    if a.outcome.Ok? && b.outcome.Ok? {
      assert (a.effects + b.effects) + c.effects == a.effects + (b.effects + c.effects);
      assert (a.warnings + b.warnings) + c.warnings == a.warnings + (b.warnings + c.warnings);
    }
  }

  /** `items` handled one after another by `step`, each with `?`: the
      first failure ends the run. */
  function Chain<T>(items: seq<T>, step: T -> Step): Step
  {
    if items == [] then Just(Ok)
    else Then(step(items[0]), Chain(items[1..], step))
  }

  /** A run succeeds exactly when every item's step does. */
  lemma {:induction false} ChainOk<T>(items: seq<T>, step: T -> Step)
    ensures Chain(items, step).outcome.Ok? <==> forall i :: 0 <= i < |items| ==> step(items[i]).outcome.Ok?
  {
    if items != [] {
      ChainOk(items[1..], step);
      assert forall i :: 0 < i < |items| ==> items[i] == items[1..][i - 1];
    }
  }

  /** Once a run has failed, the items after it change nothing. */
  lemma {:induction false} ChainStops<T>(done: seq<T>, rest: seq<T>, step: T -> Step)
    requires Chain(done, step).outcome.Err?
    ensures Chain(done + rest, step) == Chain(done, step)
  {
    assert done != [];
    assert (done + rest)[0] == done[0];
    assert (done + rest)[1..] == done[1..] + rest;
    if step(done[0]).outcome.Ok? {
      ChainStops(done[1..], rest, step);
    }
  }

  /** A successful run followed by one more item. */
  lemma {:induction false} ChainSnoc<T>(done: seq<T>, item: T, step: T -> Step)
    requires Chain(done, step).outcome.Ok?
    ensures Chain(done + [item], step) == Then(Chain(done, step), step(item))
  {
    var last := step(item);
    if done == [] {
      assert done + [item] == [item];
      assert last.effects + [] == last.effects && last.warnings + [] == last.warnings;
      assert [] + last.effects == last.effects && [] + last.warnings == last.warnings;
    } else {
      assert (done + [item])[1..] == done[1..] + [item];
      ChainSnoc(done[1..], item, step);
      ThenAssoc(step(done[0]), Chain(done[1..], step), last);
    }
  }
}
