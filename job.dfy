/** A PackBacker job (packbacker/job.py): the job file is read line by line
    into installers, each line's parameters come from its `key=value;...`
    tail, and executing the job runs the installers the user accepts and
    counts the failures. */
module Job {
  import opened Installer
  import InstallProcess
  import PyText
  import Text
  import opened Options

  //----------------------------------------------------------------------------
  // read_parameter

  /** The text after the first ": ". When there is none, `find` gives -1 and
      the text starts at index 1. */
  function ParamText(line: string): (t: string)
    ensures PyText.Find(line, ": ") == -1 ==> t == PyText.SliceFrom(line, 1)
    ensures PyText.Find(line, ": ") != -1 ==> t == line[PyText.Find(line, ": ") + 2..]
  {
    PyText.SliceFrom(line, (PyText.Find(line, ": ") + 2) as nat)
  }

  /** One `;`-piece, stripped as a whole and split on '=': a pair exactly when
      there are two parts, key and value keeping their inner spaces. */
  function PairOf(piece: string): Option<(string, string)> {
    var par := Text.Split(PyText.Strip(piece), '=');
    if |par| == 2 then Some((par[0], par[1])) else None
  }

  /** The pieces of a parameter text, each read as a pair or not. */
  function PairsOf(pieces: seq<string>): (r: seq<Option<(string, string)>>)
  {
    seq(|pieces|, i requires 0 <= i < |pieces| => PairOf(pieces[i]))
  }

  /** `params[par[0]] = par[1]` when the piece was a pair. */
  function StorePair(m: map<string, string>, pair: Option<(string, string)>): map<string, string> {
    match pair
    case None => m
    case Some(kv) => m[kv.0 := kv.1]
  }

  /** The dictionary after storing the pairs in order into `m`. */
  function StorePairs(m: map<string, string>, pairs: seq<Option<(string, string)>>): map<string, string>
    decreases |pairs|
  {
    if pairs == [] then m
    else StorePair(StorePairs(m, pairs[..|pairs| - 1]), pairs[|pairs| - 1])
  }

  /** `Job.read_parameter(line)`. */
  function ParamsOf(line: string): map<string, string> {
    StorePairs(map[], PairsOf(Text.Split(ParamText(line), ';')))
  }

  /** `read_parameter`: the pieces of the text after ": ", split on ';'. */
  method ReadParameter(line: string) returns (params: map<string, string>)
    ensures params == ParamsOf(line)
  {
    var i := PyText.Find(line, ": ") + 2;
    var rest := PyText.SliceFrom(line, i as nat);
    params := StorePieces(Text.Split(rest, ';'));
  }

  /** The `for pair in pairs` loop of `read_parameter`. */
  method StorePieces(pieces: seq<string>) returns (params: map<string, string>)
    ensures params == StorePairs(map[], PairsOf(pieces))
  {
    params := map[];
    ghost var read := PairsOf(pieces);
    var k := 0;
    while k < |pieces|
      invariant 0 <= k <= |pieces|
      invariant params == StorePairs(map[], read[..k])
    {
      StorePairsStep(map[], read, k);
      params := StorePair(params, PairOf(pieces[k]));
      k := k + 1;
    }
    assert read[..k] == read;
  }

  lemma {:induction false} StorePairsStep(m: map<string, string>, pairs: seq<Option<(string, string)>>, k: nat)
    requires k < |pairs|
    ensures StorePairs(m, pairs[..k + 1]) == StorePair(StorePairs(m, pairs[..k]), pairs[k])
  {
    assert pairs[..k + 1][..k] == pairs[..k];
  }

  /** A key is stored exactly when some piece is a pair with that key. */
  lemma {:induction false} StoredKeys(m: map<string, string>, pairs: seq<Option<(string, string)>>, key: string)
    ensures key in StorePairs(m, pairs)
        <==> key in m || exists i :: 0 <= i < |pairs| && pairs[i].Some? && pairs[i].value.0 == key
    decreases |pairs|
  {
    if pairs != [] {
      var init := pairs[..|pairs| - 1];
      StoredKeys(m, init, key);
      if exists i :: 0 <= i < |pairs| && pairs[i].Some? && pairs[i].value.0 == key {
        var i :| 0 <= i < |pairs| && pairs[i].Some? && pairs[i].value.0 == key;
        if i < |init| {
          assert init[i] == pairs[i];
        }
      }
      if exists i :: 0 <= i < |init| && init[i].Some? && init[i].value.0 == key {
        var i :| 0 <= i < |init| && init[i].Some? && init[i].value.0 == key;
        assert pairs[i] == init[i];
      }
    }
  }

  /** A later pair overwrites an earlier one with the same key: the value
      stored is the one of the last piece with that key. */
  lemma {:induction false} LastPairWins(m: map<string, string>, pairs: seq<Option<(string, string)>>, j: nat, key: string, value: string)
    requires j < |pairs| && pairs[j] == Some((key, value))
    requires forall i :: j < i < |pairs| ==> pairs[i].None? || pairs[i].value.0 != key
    ensures key in StorePairs(m, pairs) && StorePairs(m, pairs)[key] == value
    decreases |pairs|
  {
    var init := pairs[..|pairs| - 1];
    if j < |pairs| - 1 {
      forall i | j < i < |init| ensures init[i].None? || init[i].value.0 != key {
        assert init[i] == pairs[i];
      }
      LastPairWins(m, init, j, key, value);
    }
  }

  /** A piece written as `key=value`, with neither part holding '=' and no
      whitespace at its ends, is read back as that pair; spaces around the '='
      stay in the key and the value. */
  lemma {:induction false} FormattedPairReadBack(key: string, value: string)
    requires '=' !in key && '=' !in value
    requires key != [] && !PyText.IsSpace(key[0])
    requires value != [] && !PyText.IsSpace(value[|value| - 1])
    ensures PairOf(key + "=" + value) == Some((key, value))
  {
    var piece := key + "=" + value;
    assert piece[0] == key[0] && piece[|piece| - 1] == value[|value| - 1];
    PyText.StripKeepsTrimmed(piece);
    assert Text.Join([key, value], '=') == piece by {
      assert [key, value][1..] == [value];
    }
    Text.SplitJoin([key, value], '=');
  }

  //----------------------------------------------------------------------------
  // read_job

  /** `line[0] == '#'`. */
  predicate IsComment(line: string)
    requires line != ""
  {
    line[0] == '#'
  }

  /** The installers one job line adds: one for every prototype whose name
      the line starts with, in prototype order, skipping those whose
      `instance` raises. */
  function LineSetups(line: string, protos: seq<Installer>, expand: string -> string): seq<Setup>
    decreases |protos|
  {
    if protos == [] then []
    else
      var p := protos[|protos| - 1];
      var r := InstallProcess.InstanceOf(p.kind, ParamsOf(line), expand);
      LineSetups(line, protos[..|protos| - 1], expand)
      + (if p.Matches(line) && r.Built? then [r.setup] else [])
  }

  /** The installers of a whole job file, in line order. */
  function JobSetups(lines: seq<string>, protos: seq<Installer>, expand: string -> string): seq<Setup>
    requires forall i :: 0 <= i < |lines| ==> lines[i] != ""
    decreases |lines|
  {
    if lines == [] then []
    else
      var line := lines[|lines| - 1];
      JobSetups(lines[..|lines| - 1], protos, expand)
      + (if IsComment(line) then [] else LineSetups(line, protos, expand))
  }

  /** The prototypes of a plugin class whose name the line starts with. */
  function MatchCount(line: string, protos: seq<Installer>): nat
    decreases |protos|
  {
    if protos == [] then 0
    else
      var p := protos[|protos| - 1];
      MatchCount(line, protos[..|protos| - 1]) + (if p.Matches(line) && p.kind != Generic then 1 else 0)
  }

  /** Every matching plugin prototype adds an installer, not only the first,
      when the line gives `dest_dir`; without it the line adds none. Each
      installer added gets the line's destination. */
  lemma {:induction false} LineAddsEveryMatch(line: string, protos: seq<Installer>, expand: string -> string)
    ensures DEST_DIR in ParamsOf(line) ==> |LineSetups(line, protos, expand)| == MatchCount(line, protos)
    ensures DEST_DIR !in ParamsOf(line) ==> LineSetups(line, protos, expand) == []
    ensures forall s :: s in LineSetups(line, protos, expand) ==>
              s.kind != Generic && s.dest == expand(ParamsOf(line)[DEST_DIR])
    decreases |protos|
  {
    if protos != [] {
      var p := protos[|protos| - 1];
      LineAddsEveryMatch(line, protos[..|protos| - 1], expand);
      InstallProcess.InstanceNeedsDestination(p.kind, ParamsOf(line), expand);
    }
  }

  /** The installers of consecutive parts of a file follow each other: lines
      are handled in order and independently. */
  lemma {:induction false} JobSetupsAppend(a: seq<string>, b: seq<string>, protos: seq<Installer>, expand: string -> string)
    requires forall i :: 0 <= i < |a| ==> a[i] != ""
    requires forall i :: 0 <= i < |b| ==> b[i] != ""
    ensures forall i :: 0 <= i < |a + b| ==> (a + b)[i] != ""
    ensures JobSetups(a + b, protos, expand) == JobSetups(a, protos, expand) + JobSetups(b, protos, expand)
    decreases |b|
  {
    NoBlankAppend(a, b);
    if b == [] {
      assert a + b == a;
    } else {
      var b0 := b[..|b| - 1];
      var last := b[|b| - 1];
      assert (a + b)[..|a + b| - 1] == a + b0;
      assert (a + b)[|a + b| - 1] == last;
      assert forall i :: 0 <= i < |b0| ==> b0[i] == b[i];
      JobSetupsAppend(a, b0, protos, expand);
      var tail := if IsComment(last) then [] else LineSetups(last, protos, expand);
      var left := JobSetups(a, protos, expand);
      var mid := JobSetups(b0, protos, expand);
      assert JobSetups(a + b, protos, expand) == (left + mid) + tail;
      assert JobSetups(b, protos, expand) == mid + tail;
      assert (left + mid) + tail == left + (mid + tail);
    }
  }

  lemma {:induction false} NoBlankAppend(a: seq<string>, b: seq<string>)
    requires forall i :: 0 <= i < |a| ==> a[i] != ""
    requires forall i :: 0 <= i < |b| ==> b[i] != ""
    ensures forall i :: 0 <= i < |a + b| ==> (a + b)[i] != ""
  {
    forall i | 0 <= i < |a + b| ensures (a + b)[i] != "" {
      if i >= |a| { assert (a + b)[i] == b[i - |a|]; }
    }
  }

  /** A comment line adds nothing, whatever it says. */
  lemma {:induction false} CommentAddsNothing(lines: seq<string>, comment: string, protos: seq<Installer>, expand: string -> string)
    requires forall i :: 0 <= i < |lines| ==> lines[i] != ""
    requires comment != "" && comment[0] == '#'
    ensures JobSetups(lines + [comment], protos, expand) == JobSetups(lines, protos, expand)
  {
    JobSetupsAppend(lines, [comment], protos, expand);
    assert [comment][..0] == [];
  }

  //----------------------------------------------------------------------------
  // The job

  /** What `execute` computed: the error count and the number of the next
      prompt. */
  datatype ExecRun = ExecRun(errors: nat, next: nat)

  /** `execute` on the installers' settings from prompt `q` on: each installer
      is offered ("Install " + label) and installed when accepted, and a
      failed installation counts one error. */
  function ExecuteRun(setups: seq<Setup>, env: Env, q: nat): ExecRun
    decreases |setups|
  {
    if setups == [] then ExecRun(0, q)
    else if !Agrees(env, q, "Install " + setups[0].longName) then ExecuteRun(setups[1..], env, q + 1)
    else
      var run := InstallProcess.Install(setups[0], env, q + 1);
      var rest := ExecuteRun(setups[1..], env, run.next);
      ExecRun(rest.errors + (if run.success then 0 else 1), rest.next)
  }

  /** At most one error per installer. */
  lemma {:induction false} ErrorsAtMostInstallers(setups: seq<Setup>, env: Env, q: nat)
    ensures ExecuteRun(setups, env, q).errors <= |setups|
    decreases |setups|
  {
    if setups != [] {
      var nq := if !Agrees(env, q, "Install " + setups[0].longName) then q + 1
                else InstallProcess.Install(setups[0], env, q + 1).next;
      ErrorsAtMostInstallers(setups[1..], env, nq);
    }
  }

  /** Declined installers are not run and not counted: a user who declines
      everything gets no error, one prompt per installer. */
  lemma {:induction false} AllDeclinedNoErrors(setups: seq<Setup>, env: Env, q: nat)
    requires forall k: nat, p: string :: !Agrees(env, k, p)
    ensures ExecuteRun(setups, env, q) == ExecRun(0, q + |setups|)
    decreases |setups|
  {
    if setups != [] {
      assert !Agrees(env, q, "Install " + setups[0].longName);
      AllDeclinedNoErrors(setups[1..], env, q + 1);
    }
  }

  /** A user who accepts everything gets one error per abstract installer. */
  lemma {:induction false} AcceptedGenericAllFail(setups: seq<Setup>, env: Env, q: nat)
    requires forall k: nat, p: string :: Agrees(env, k, p)
    requires forall i :: 0 <= i < |setups| ==> setups[i].kind == Generic
    ensures ExecuteRun(setups, env, q).errors == |setups|
    decreases |setups|
  {
    if setups != [] {
      assert Agrees(env, q, "Install " + setups[0].longName);
      InstallProcess.GenericInstallFails(setups[0], env, q + 1);
      AcceptedGenericAllFail(setups[1..], env, q + 1);
    }
  }

  /** Two installers of the same class have outcomes of their own: with
      every prompt accepted and every tool found, a first MNE-CPP installer
      whose initialize step raises (its checkout is missing) counts one
      error, while a second one, whose steps all succeed, counts none. */
  lemma {:induction false} SameClassOwnOutcomes(s1: Setup, s2: Setup, env: Env, q: nat)
    requires s1.kind == MneCppKind && s2.kind == MneCppKind
    requires forall k: nat, p: string :: Agrees(env, k, p)
    requires forall p: string :: env.found(p)
    requires forall k: nat, st: Step :: RaisesAt(env, k, st) <==> k == q + 2 && st == Initialize
    ensures ExecuteRun([s1, s2], env, q) == ExecRun(1, q + 9)
  {
    assert Agrees(env, q, "Install " + s1.longName);
    assert env.found("git") && env.found("make") && env.found(s1.qmake5) && env.found(s2.qmake5) && env.found("g++");
    assert Agrees(env, q + 1, Prompt(Download, "mne-cpp")) && Agrees(env, q + 2, Prompt(Initialize, "mne-cpp"));
    InstallProcess.MneCppInitializeRaises(s1, env, q + 1);
    var first := InstallProcess.Install(s1, env, q + 1);
    assert Agrees(env, q + 3, "Install " + s2.longName);
    InstallProcess.MneCppAllStepsRun(s2, env, q + 4);
    var second := InstallProcess.Install(s2, env, q + 4);
    assert [s1, s2][1..] == [s2] && [s2][1..] == [];
    assert ExecuteRun([s2], env, q + 3) == ExecRun(0, q + 9);
  }

  class Job {
    /** `_installers`, each installer by its settings. */
    var installers: seq<Setup>

    constructor ()
      ensures installers == []
    {
      installers := [];
    }

    /** `add_installer`. */
    method AddInstaller(inst: Installer)
      modifies this
      ensures installers == old(installers) + [inst.Config()]
    {
      installers := installers + [inst.Config()];
    }

    /** `execute`: the loop over the installers, `errors` counting failures. */
    method Execute(env: Env, q: nat) returns (errors: nat, next: nat)
      ensures ExecRun(errors, next) == ExecuteRun(installers, env, q)
    {
      errors := 0;
      next := q;
      var k := 0;
      while k < |installers|
        invariant 0 <= k <= |installers|
        invariant ExecuteRun(installers, env, q)
                  == ExecRun(errors + ExecuteRun(installers[k..], env, next).errors, ExecuteRun(installers[k..], env, next).next)
      {
        var i := installers[k];
        assert installers[k..][0] == i && installers[k..][1..] == installers[k + 1..];
        if Agrees(env, next, "Install " + i.longName) {
          var run := InstallProcess.Install(i, env, next + 1);
          if !run.success {
            errors := errors + 1;
          }
          next := run.next;
        } else {
          next := next + 1;
        }
        k := k + 1;
      }
    }
  }

  /** One more prototype adds the installer it builds, if it matches. */
  lemma {:induction false} LineSetupsStep(line: string, protos: seq<Installer>, j: nat, expand: string -> string)
    requires j < |protos|
    ensures var r := InstallProcess.InstanceOf(protos[j].kind, ParamsOf(line), expand);
            LineSetups(line, protos[..j + 1], expand)
            == LineSetups(line, protos[..j], expand) + (if protos[j].Matches(line) && r.Built? then [r.setup] else [])
  {
    assert protos[..j + 1][..j] == protos[..j];
  }

  /** One pass of the inner loop of `read_job`: the installer `p` adds for
      `line`, if any. */
  method InstallerFor(p: Installer, line: string, expand: string -> string) returns (added: seq<Setup>)
    ensures var r := InstallProcess.InstanceOf(p.kind, ParamsOf(line), expand);
            added == if p.Matches(line) && r.Built? then [r.setup] else []
  {
    added := [];
    if p.Matches(line) {
      var params := ReadParameter(line);
      var inst, result := InstallProcess.Instance(p.kind, params, expand);
      if inst != null {
        added := [inst.Config()];
      }
    }
  }

  /** The inner loop of `read_job` over the prototypes, for one line that is
      not a comment, appending to the job's list of installers. */
  method AddLineInstallers(installers: seq<Setup>, line: string, protos: seq<Installer>, expand: string -> string)
    returns (out: seq<Setup>)
    ensures out == installers + LineSetups(line, protos, expand)
  {
    var lineSetups := [];
    var j := 0;
    while j < |protos|
      invariant 0 <= j <= |protos|
      invariant lineSetups == LineSetups(line, protos[..j], expand)
    {
      var added := InstallerFor(protos[j], line, expand);
      LineSetupsStep(line, protos, j, expand);
      lineSetups := lineSetups + added;
      j := j + 1;
    }
    assert protos[..j] == protos;
    out := installers + lineSetups;
  }

  /** The outer loop of `read_job` over the lines of the file. */
  method ReadLines(lines: seq<string>, protos: seq<Installer>, expand: string -> string) returns (installers: seq<Setup>)
    requires forall i :: 0 <= i < |lines| ==> lines[i] != ""
    ensures installers == JobSetups(lines, protos, expand)
  {
    installers := [];
    var k := 0;
    while k < |lines|
      invariant 0 <= k <= |lines|
      invariant installers == JobSetups(lines[..k], protos, expand)
    {
      var line := lines[k];
      assert lines[..k + 1][..k] == lines[..k] && lines[..k + 1][k] == line;
      if line[0] != '#' {
        installers := AddLineInstallers(installers, line, protos, expand);
      }
      k := k + 1;
    }
    assert lines[..k] == lines;
  }

  /** `Job.read_job`: None when the file cannot be opened (`file` is None);
      otherwise a job holding, in line order and then prototype order, an
      installer for every prototype that matches a non-comment line and
      accepts its parameters. Iterating a file never yields an empty line. */
  method ReadJob(file: Option<seq<string>>, protos: seq<Installer>, expand: string -> string) returns (job: Job?)
    requires file.Some? ==> forall i :: 0 <= i < |file.value| ==> file.value[i] != ""
    ensures job == null <==> file.None?
    ensures job != null ==> fresh(job) && job.installers == JobSetups(file.value, protos, expand)
  {
    if file.None? {
      return null;
    }
    job := new Job();
    var installers := ReadLines(file.value, protos, expand);
    job.installers := installers;
  }
}
