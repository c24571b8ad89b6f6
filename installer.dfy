/** The installer base of PackBacker (packbacker/installer.py): the installer
    object with its name, label and destination, line matching, and the
    building blocks of the install stages that the concrete installers share.

    The user, the file system and the programs run are given as an `Env`:
    the lines typed at the prompts, which programs `check_program` finds, and
    which installer steps end in an exception (`os.chdir` on a missing
    directory, say). */
module Installer {
  import Text
  import PyText

  /** The installer classes: the abstract base and the two plugins. */
  datatype Kind = Generic | MneCppKind | Eigen3Kind

  /** `Parameter.DEST_DIR`. */
  const DEST_DIR: string := "dest_dir"

  /** MneCpp's default `arg_qmake5`, kept for every kind and read only by the
      MNE-CPP installer. */
  const DEFAULT_QMAKE5: string := "qmake5"

  /** The installer's settings as a value. */
  datatype Setup = Setup(kind: Kind, name: string, longName: string, dest: string, qmake5: string)

  /** The steps the concrete installers offer. */
  datatype Step = Download | Initialize | Configure | Compile

  /** The world outside the program: `answer(q, prompt)` is the line typed at
      the q-th prompt, `found(p)` whether `check_program(p, "--version")`
      succeeds, `raises(q, step)` whether the step offered at the q-th prompt
      ends in an exception once run, and `raisesLate(q, step)` whether it does
      so only after reading its own input lines (compiling: the `call` of make
      after the make-jobs question, rather than the `os.chdir` before it).
      Every step run has a prompt of its own, so each run of a step, of any
      installer, has an outcome of its own: the file system that earlier
      steps and other installers left behind is part of that outcome. */
  datatype Env = Env(answer: (nat, string) -> string, found: string -> bool,
                     raises: (nat, Step) -> bool, raisesLate: (nat, Step) -> bool)

  /** The step offered at the q-th prompt raises once run. */
  predicate RaisesAt(env: Env, q: nat, step: Step) {
    env.raises(q, step)
  }

  /** The step raises at one of the prompts numbered `lo` to `hi - 1`. */
  predicate RaisesWithin(env: Env, lo: nat, hi: nat, step: Step) {
    exists k: nat :: lo <= k < hi && RaisesAt(env, k, step)
  }

  /** `UtilsUI.ask_for_execute(prompt)` as the q-th prompt: the answer starts
      with 'y'. */
  predicate Agrees(env: Env, q: nat, prompt: string) {
    Text.StartsWith(env.answer(q, prompt), "y")
  }

  function Verb(step: Step): string {
    match step
    case Download => "Download"
    case Initialize => "Initialize"
    case Configure => "Configure"
    case Compile => "Compile"
  }

  /** `"Download " + self.name` and its kind. */
  function Prompt(step: Step, name: string): string {
    Verb(step) + " " + name
  }

  /** Lines a step reads itself once it runs: compiling asks for the number of
      make jobs. */
  function StepInputs(step: Step): nat {
    if step == Compile then 1 else 0
  }

  /** Lines a step that raises has read before its exception: all of its own
      input lines when it raises late, none when it raises early. */
  function InputsBeforeRaise(env: Env, q: nat, step: Step): nat {
    if env.raisesLate(q, step) then StepInputs(step) else 0
  }

  /** What a stage (`_pre_install`, `_install`, `_post_install`) did: it
      returned a truth value or raised, and `next` is the number of the next
      prompt. */
  datatype StageResult = Returned(ok: bool, next: nat) | Raised(next: nat)

  /** The outcome of the result of `instance(params)`. */
  datatype Instance = Built(setup: Setup) | ParameterError(msg: string) | OtherError(msg: string)

  //----------------------------------------------------------------------------
  // The installer object

  class Installer {
    const kind: Kind
    const name: string
    const longName: string
    var argDest: string
    var argQmake5: string

    /** `Installer.__init__(self, name, label)`, the label being the long
        name: the destination is the expansion of "~". */
    constructor (kind: Kind, name: string, longName: string, expand: string -> string)
      ensures this.kind == kind && this.name == name && this.longName == longName
      ensures argDest == expand("~") && argQmake5 == DEFAULT_QMAKE5
    {
      this.kind := kind;
      this.name := name;
      this.longName := longName;
      argDest := expand("~");
      argQmake5 := DEFAULT_QMAKE5;
    }

    /** The `arg_dest` setter stores the user-expanded path. */
    method SetArgDest(dest: string, expand: string -> string)
      modifies this
      ensures argDest == expand(dest) && argQmake5 == old(argQmake5)
    {
      argDest := expand(dest);
    }

    /** The `arg_qmake5` setter of MneCpp. */
    method SetArgQmake5(qmake5: string)
      modifies this
      ensures argQmake5 == qmake5 && argDest == old(argDest)
    {
      argQmake5 := qmake5;
    }

    function Config(): Setup
      reads this
    {
      Setup(kind, name, longName, argDest, argQmake5)
    }

    /** `matches`: the lower-cased job line starts with the name. */
    predicate Matches(line: string) {
      Text.StartsWith(PyText.Lower(line), name)
    }
  }

  /** A line matches exactly when its first |name| characters, lower-cased,
      spell the name, whatever their case in the line. */
  lemma {:induction false} MatchesAnyCase(inst: Installer, line: string)
    ensures inst.Matches(line) <==> |inst.name| <= |line| && PyText.Lower(line[..|inst.name|]) == inst.name
  {
    if |inst.name| <= |line| {
      PyText.LowerPrefix(line, |inst.name|);
    }
  }

  /** A name with an upper-case letter matches no line. */
  lemma {:induction false} UpperCaseNameMatchesNothing(inst: Installer, line: string, k: nat)
    requires k < |inst.name| && 'A' <= inst.name[k] <= 'Z'
    ensures !inst.Matches(line)
  {
    PyText.LowerPrefix(line, 0);
    if |inst.name| <= |line| {
      assert PyText.Lower(line)[..|inst.name|][k] == PyText.Lower(line)[k];
    }
  }

  //----------------------------------------------------------------------------
  // Gated steps: `if success and UtilsUI.ask_for_execute(...)`

  /** What a sequence of gated steps did: whether a step raised, the steps run
      (in order), the numbers of the prompts at which they were offered, and
      the number of the next prompt. */
  datatype GatedRun = GatedRun(raised: bool, ran: seq<Step>, at: seq<nat>, next: nat)

  /** `a` is `b` with some elements left out, the rest kept in order. */
  predicate Subseq<T(==)>(a: seq<T>, b: seq<T>)
    decreases |b|
  {
    a == [] || (b != [] && ((a[0] == b[0] && Subseq(a[1..], b[1..])) || Subseq(a, b[1..])))
  }

  /** The `_install` body of a concrete installer: each step is offered in
      turn and run when the answer is yes. Every step returns True, so
      `success` stays true and every later step is still offered; an exception
      ends the stage. */
  function Gated(name: string, steps: seq<Step>, env: Env, q: nat): (r: GatedRun)
    decreases |steps|
  {
    if steps == [] then GatedRun(false, [], [], q)
    else
      var step := steps[0];
      if !Agrees(env, q, Prompt(step, name)) then Gated(name, steps[1..], env, q + 1)
      else if env.raises(q, step) then GatedRun(true, [step], [q], q + 1 + InputsBeforeRaise(env, q, step))
      else
        var rest := Gated(name, steps[1..], env, q + 1 + StepInputs(step));
        GatedRun(rest.raised, [step] + rest.ran, [q] + rest.at, rest.next)
  }

  /** The lines read by the steps that ran. */
  function InputsOf(ran: seq<Step>): nat {
    if ran == [] then 0 else StepInputs(ran[0]) + InputsOf(ran[1..])
  }

  /** The steps run are offered steps, taken in their order; only a step that
      was run can have raised, the last one, at one of the prompts this run
      numbered; and the run uses at most one prompt per step plus the lines
      the steps run read. */
  lemma {:induction false} GatedRanAreOffered(name: string, steps: seq<Step>, env: Env, q: nat)
    ensures var r := Gated(name, steps, env, q);
            && |r.ran| <= |steps|
            && Subseq(r.ran, steps)
            && (forall s :: s in r.ran ==> s in steps)
            && q <= r.next <= q + |steps| + InputsOf(r.ran)
            && (r.raised ==> r.ran != [] && RaisesWithin(env, q, r.next, r.ran[|r.ran| - 1]))
    decreases |steps|
  {
    if steps != [] {
      var step := steps[0];
      var nq := if Agrees(env, q, Prompt(step, name)) then q + 1 + StepInputs(step) else q + 1;
      GatedRanAreOffered(name, steps[1..], env, nq);
      var rest := Gated(name, steps[1..], env, nq);
      if Agrees(env, q, Prompt(step, name)) {
        if env.raises(q, step) {
          assert [step][1..] == [];
          assert InputsOf([step]) == StepInputs(step);
          assert RaisesAt(env, q, step);
          assert Subseq([step][1..], steps[1..]);
        } else {
          var ran := [step] + rest.ran;
          assert Gated(name, steps, env, q).ran == ran;
          assert ran[1..] == rest.ran;
          assert ran[0] == steps[0];
          if rest.raised {
            assert ran[|ran| - 1] == rest.ran[|rest.ran| - 1];
          }
        }
      }
    }
  }

  /** Prompt numbers strictly increasing, all from `lo` to `hi - 1`. */
  predicate PromptsIn(at: seq<nat>, lo: nat, hi: nat) {
    && (forall i :: 0 <= i < |at| ==> lo <= at[i] < hi)
    && (forall i, j :: 0 <= i < j < |at| ==> at[i] < at[j])
  }

  /** One prompt per step run, each answered yes for that step. */
  predicate AnsweredYes(env: Env, name: string, ran: seq<Step>, at: seq<nat>) {
    && |at| == |ran|
    && (forall i :: 0 <= i < |ran| ==> Agrees(env, at[i], Prompt(ran[i], name)))
  }

  /** One prompt per step run; every step run but the last returned at its
      prompt, and `raised` says whether the last one raised at its own. */
  predicate OnlyLastRaises(env: Env, raised: bool, ran: seq<Step>, at: seq<nat>) {
    && |at| == |ran|
    && (forall i :: 0 <= i < |ran| - 1 ==> !RaisesAt(env, at[i], ran[i]))
    && (raised <==> ran != [] && RaisesAt(env, at[|at| - 1], ran[|ran| - 1]))
  }

  /** An agreed step that returns is recorded with its prompt, and the
      stage goes on after the lines it read. */
  lemma GatedContinues(name: string, steps: seq<Step>, env: Env, q: nat)
    requires steps != [] && Agrees(env, q, Prompt(steps[0], name)) && !env.raises(q, steps[0])
    ensures var rest := Gated(name, steps[1..], env, q + 1 + StepInputs(steps[0]));
            Gated(name, steps, env, q) == GatedRun(rest.raised, [steps[0]] + rest.ran, [q] + rest.at, rest.next)
  {
  }

  /** A stage never moves the prompt count backwards. */
  lemma GatedNextAfter(name: string, steps: seq<Step>, env: Env, q: nat)
    ensures q <= Gated(name, steps, env, q).next
  {
    GatedRanAreOffered(name, steps, env, q);
  }

  /** Prompts within `lo'..hi` are within any wider range. */
  lemma WidenPrompts(at: seq<nat>, lo: nat, lo': nat, hi: nat)
    requires lo <= lo' && PromptsIn(at, lo', hi)
    ensures PromptsIn(at, lo, hi)
  {
  }

  /** An earlier prompt in front keeps the prompts increasing. */
  lemma ConsPrompts(q: nat, at: seq<nat>, lo: nat, hi: nat)
    requires q < lo && q < hi && PromptsIn(at, lo, hi)
    ensures PromptsIn([q] + at, q, hi)
  {
    var a := [q] + at;
    forall i | 0 <= i < |a| ensures q <= a[i] < hi {
      if i > 0 { assert a[i] == at[i - 1]; }
    }
    forall i, j | 0 <= i < j < |a| ensures a[i] < a[j] {
      assert a[j] == at[j - 1];
      if i > 0 { assert a[i] == at[i - 1]; }
    }
  }

  /** A step agreed to at its prompt, in front of the steps run. */
  lemma ConsAnswered(env: Env, name: string, step: Step, q: nat, ran: seq<Step>, at: seq<nat>)
    requires Agrees(env, q, Prompt(step, name)) && AnsweredYes(env, name, ran, at)
    ensures AnsweredYes(env, name, [step] + ran, [q] + at)
  {
    var r, a := [step] + ran, [q] + at;
    forall i | 0 <= i < |r| ensures Agrees(env, a[i], Prompt(r[i], name)) {
      if i > 0 { assert a[i] == at[i - 1] && r[i] == ran[i - 1]; }
    }
  }

  /** A step that returned, in front of the steps run. */
  lemma ConsOnlyLast(env: Env, raised: bool, step: Step, q: nat, ran: seq<Step>, at: seq<nat>)
    requires !RaisesAt(env, q, step) && OnlyLastRaises(env, raised, ran, at)
    ensures OnlyLastRaises(env, raised, [step] + ran, [q] + at)
  {
    var r, a := [step] + ran, [q] + at;
    forall i | 0 <= i < |r| - 1 ensures !RaisesAt(env, a[i], r[i]) {
      if i > 0 { assert a[i] == at[i - 1] && r[i] == ran[i - 1]; }
    }
    if ran != [] {
      assert a[|a| - 1] == at[|at| - 1] && r[|r| - 1] == ran[|ran| - 1];
    }
  }

  /** The prompts of the steps run are in increasing order, all within the
      stage's prompts. */
  lemma {:induction false} GatedPromptsOrdered(name: string, steps: seq<Step>, env: Env, q: nat)
    ensures var r := Gated(name, steps, env, q);
            PromptsIn(r.at, q, r.next)
    decreases |steps|
  {
    if steps != [] {
      var step := steps[0];
      if !Agrees(env, q, Prompt(step, name)) {
        GatedPromptsOrdered(name, steps[1..], env, q + 1);
        WidenPrompts(Gated(name, steps[1..], env, q + 1).at, q, q + 1, Gated(name, steps, env, q).next);
      } else if !env.raises(q, step) {
        var nq := q + 1 + StepInputs(step);
        GatedPromptsOrdered(name, steps[1..], env, nq);
        GatedNextAfter(name, steps[1..], env, nq);
        GatedContinues(name, steps, env, q);
        var rest := Gated(name, steps[1..], env, nq);
        ConsPrompts(q, rest.at, nq, rest.next);
      } else {
        ConsPrompts(q, [], q + 1, Gated(name, steps, env, q).next);
      }
    }
  }

  /** One prompt per step run, each answered yes for its step. */
  lemma {:induction false} GatedPromptsAnswered(name: string, steps: seq<Step>, env: Env, q: nat)
    ensures var r := Gated(name, steps, env, q);
            AnsweredYes(env, name, r.ran, r.at)
    decreases |steps|
  {
    if steps != [] {
      var step := steps[0];
      if !Agrees(env, q, Prompt(step, name)) {
        GatedPromptsAnswered(name, steps[1..], env, q + 1);
      } else if !env.raises(q, step) {
        var nq := q + 1 + StepInputs(step);
        GatedPromptsAnswered(name, steps[1..], env, nq);
        GatedContinues(name, steps, env, q);
        var rest := Gated(name, steps[1..], env, nq);
        ConsAnswered(env, name, step, q, rest.ran, rest.at);
      }
    }
  }

  /** Every step run but the last returned without an exception at its
      prompt, and the stage raised exactly when the last step run raised at
      its own prompt. */
  lemma {:induction false} GatedRaisesOnlyLast(name: string, steps: seq<Step>, env: Env, q: nat)
    ensures var r := Gated(name, steps, env, q);
            OnlyLastRaises(env, r.raised, r.ran, r.at)
    decreases |steps|
  {
    if steps != [] {
      var step := steps[0];
      if !Agrees(env, q, Prompt(step, name)) {
        GatedRaisesOnlyLast(name, steps[1..], env, q + 1);
      } else if !env.raises(q, step) {
        var nq := q + 1 + StepInputs(step);
        GatedRaisesOnlyLast(name, steps[1..], env, nq);
        GatedContinues(name, steps, env, q);
        var rest := Gated(name, steps[1..], env, nq);
        ConsOnlyLast(env, rest.raised, step, q, rest.ran, rest.at);
      } else {
        assert RaisesAt(env, q, step);
      }
    }
  }

  /** Without an exception every step is offered, whatever the answers: one
      prompt per step plus the lines the steps run read themselves. A decline
      does not block later steps. */
  lemma {:induction false} GatedOffersEveryStep(name: string, steps: seq<Step>, env: Env, q: nat)
    ensures var r := Gated(name, steps, env, q);
            !r.raised ==> r.next == q + |steps| + InputsOf(r.ran)
    decreases |steps|
  {
    if steps != [] {
      var step := steps[0];
      var nq := if Agrees(env, q, Prompt(step, name)) then q + 1 + StepInputs(step) else q + 1;
      GatedOffersEveryStep(name, steps[1..], env, nq);
      var rest := Gated(name, steps[1..], env, nq);
      if Agrees(env, q, Prompt(step, name)) && !env.raises(q, step) {
        assert ([step] + rest.ran)[1..] == rest.ran;
      }
    }
  }

  /** An agreed step that raises ends the run: the prompts that follow are
      not offered, and the next prompt comes after the step's prompt and the
      lines the step read before raising. */
  lemma {:induction false} GatedRaisingStep(name: string, step: Step, rest: seq<Step>, env: Env, q: nat)
    requires Agrees(env, q, Prompt(step, name)) && env.raises(q, step)
    ensures Gated(name, [step] + rest, env, q)
            == GatedRun(true, [step], [q], q + 1 + (if env.raisesLate(q, step) then StepInputs(step) else 0))
  {
    assert ([step] + rest)[0] == step;
  }

  /** When none of the steps can raise at a prompt from `q` on, none does. */
  lemma {:induction false} GatedWithoutFailures(name: string, steps: seq<Step>, env: Env, q: nat)
    requires forall k: nat, i :: q <= k && 0 <= i < |steps| ==> !RaisesAt(env, k, steps[i])
    ensures !Gated(name, steps, env, q).raised
    decreases |steps|
  {
    if steps != [] {
      var step := steps[0];
      var nq := if Agrees(env, q, Prompt(step, name)) then q + 1 + StepInputs(step) else q + 1;
      assert !RaisesAt(env, q, steps[0]);
      forall k: nat, i | nq <= k && 0 <= i < |steps| - 1 ensures !RaisesAt(env, k, steps[1..][i]) {
        assert steps[1..][i] == steps[i + 1];
      }
      GatedWithoutFailures(name, steps[1..], env, nq);
    }
  }

  /** A user who agrees to everything runs every step when none raises. */
  lemma {:induction false} GatedAllRun(name: string, steps: seq<Step>, env: Env, q: nat)
    requires forall k: nat, p: string :: Agrees(env, k, p)
    requires !Gated(name, steps, env, q).raised
    ensures Gated(name, steps, env, q).ran == steps
    decreases |steps|
  {
    if steps != [] {
      assert Agrees(env, q, Prompt(steps[0], name));
      GatedAllRun(name, steps[1..], env, q + 1 + StepInputs(steps[0]));
    }
  }

  /** A user who declines everything runs nothing: each step is offered once
      and skipped. */
  lemma {:induction false} GatedAllDeclined(name: string, steps: seq<Step>, env: Env, q: nat)
    requires forall k: nat, p: string :: !Agrees(env, k, p)
    ensures Gated(name, steps, env, q) == GatedRun(false, [], [], q + |steps|)
    decreases |steps|
  {
    if steps != [] {
      assert !Agrees(env, q, Prompt(steps[0], name));
      GatedAllDeclined(name, steps[1..], env, q + 1);
    }
  }

  /** A gated `_install` returns True unless a step raised. */
  function GatedStage(name: string, steps: seq<Step>, env: Env, q: nat): (r: StageResult)
    ensures r.Returned? ==> r.ok
    ensures r.Raised? <==> Gated(name, steps, env, q).raised
  {
    var g := Gated(name, steps, env, q);
    if g.raised then Raised(g.next) else Returned(true, g.next)
  }

  //----------------------------------------------------------------------------
  // Program checks: `success = success and Utils.check_program(p, "--version")`

  /** The programs probed by a chain of short-circuit checks: each one after
      the first runs only while all before it were found. */
  function ChainProbes(chain: seq<string>, found: string -> bool): seq<string>
    decreases |chain|
  {
    if chain == [] then []
    else [chain[0]] + (if found(chain[0]) then ChainProbes(chain[1..], found) else [])
  }

  /** The value the chain leaves in `success`. */
  function ChainOk(chain: seq<string>, found: string -> bool): bool
    decreases |chain|
  {
    chain == [] || (found(chain[0]) && ChainOk(chain[1..], found))
  }

  /** The chain succeeds exactly when every program is found, and the programs
      probed are the chain up to and including the first one not found: every
      probe but the last found its program, and the last one failed unless the
      whole chain was probed. */
  lemma {:induction false} ChainProbesPrefix(chain: seq<string>, found: string -> bool)
    ensures var probes := ChainProbes(chain, found);
            && |probes| <= |chain| && probes == chain[..|probes|]
            && (chain != [] ==> probes != [])
            && (forall k :: 0 <= k < |probes| - 1 ==> found(probes[k]))
            && (|probes| < |chain| ==> !found(probes[|probes| - 1]))
            && (ChainOk(chain, found) <==> forall j :: 0 <= j < |chain| ==> found(chain[j]))
    decreases |chain|
  {
    if chain != [] {
      var tail := chain[1..];
      ChainProbesPrefix(tail, found);
      var probes := ChainProbes(chain, found);
      if found(chain[0]) {
        var rest := ChainProbes(tail, found);
        assert probes == [chain[0]] + rest;
        assert probes == chain[..|probes|] by {
          assert chain[..|probes|] == [chain[0]] + tail[..|rest|];
        }
        forall k | 0 <= k < |probes| - 1 ensures found(probes[k]) {
          if k > 0 { assert probes[k] == rest[k - 1]; }
        }
        if |probes| < |chain| && rest != [] {
          assert probes[|probes| - 1] == rest[|rest| - 1];
        }
        assert (forall j :: 0 <= j < |chain| ==> found(chain[j]))
            <==> (forall j :: 0 <= j < |tail| ==> found(tail[j])) by {
          if forall j :: 0 <= j < |tail| ==> found(tail[j]) {
            forall j | 0 <= j < |chain| ensures found(chain[j]) {
              if j > 0 { assert chain[j] == tail[j - 1]; }
            }
          }
        }
      } else {
        assert probes == chain[..1];
      }
    }
  }
}
