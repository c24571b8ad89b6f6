/** `Installer.install` (packbacker/installer.py) with the stages of each
    installer class, and the class methods `instance` and `prototype`. The
    three classes are told apart by `Kind`: the abstract base keeps its
    default stages, the plugins override them. */
module InstallProcess {
  import opened Installer
  import MneCpp
  import Eigen3

  /** `_pre_install`: the base passes, the plugins check their tools. */
  function PreStage(s: Setup, env: Env, q: nat): StageResult {
    match s.kind
    case Generic => Returned(true, q)
    case MneCppKind => Returned(MneCpp.PreInstall(s.qmake5, env.found).ok, q)
    case Eigen3Kind => Returned(Eigen3.PreInstall(env.found), q)
  }

  /** `_install`: the base "is not yet implemented" and returns False. */
  function MainStage(s: Setup, env: Env, q: nat): StageResult {
    match s.kind
    case Generic => Returned(false, q)
    case MneCppKind => MneCpp.InstallStage(env, q)
    case Eigen3Kind => Eigen3.InstallStage(env, q)
  }

  /** `_post_install`: every class returns True (the plugins after reporting
      their directories). */
  function PostStage(s: Setup, env: Env, q: nat): StageResult {
    Returned(true, q)
  }

  datatype Stage = Pre | Main | Post

  /** What `install` did: its result, the stages entered in order, and the
      number of the next prompt. */
  datatype InstallRun = InstallRun(success: bool, ran: seq<Stage>, next: nat)

  function Succeeded(r: StageResult): bool {
    r.Returned? && r.ok
  }

  /** `install`: each stage runs only when the one before returned True, and
      an exception in any stage makes the result False. */
  function Install(s: Setup, env: Env, q: nat): InstallRun {
    var pre := PreStage(s, env, q);
    if !Succeeded(pre) then InstallRun(false, [Pre], pre.next)
    else
      var main := MainStage(s, env, pre.next);
      if !Succeeded(main) then InstallRun(false, [Pre, Main], main.next)
      else
        var post := PostStage(s, env, main.next);
        InstallRun(Succeeded(post), [Pre, Main, Post], post.next)
  }

  /** The stages run in order, each only after the previous returned True,
      and the result is True exactly when all three did. */
  lemma {:induction false} InstallStagesInOrder(s: Setup, env: Env, q: nat)
    ensures var r := Install(s, env, q);
            var pre := PreStage(s, env, q);
            && (r.ran == [Pre] || r.ran == [Pre, Main] || r.ran == [Pre, Main, Post])
            && (Main in r.ran <==> Succeeded(pre))
            && (Post in r.ran <==> Succeeded(pre) && Succeeded(MainStage(s, env, pre.next)))
            && (r.success <==> Post in r.ran && Succeeded(PostStage(s, env, MainStage(s, env, pre.next).next)))
  {
  }

  /** The abstract installer never succeeds: its `_install` returns False and
      `_post_install` is not reached. */
  lemma {:induction false} GenericInstallFails(s: Setup, env: Env, q: nat)
    requires s.kind == Generic
    ensures Install(s, env, q) == InstallRun(false, [Pre, Main], q)
  {
  }

  /** MNE-CPP installs exactly when its tool checks pass and no step the user
      agreed to raised. */
  lemma {:induction false} MneCppInstallIff(s: Setup, env: Env, q: nat)
    requires s.kind == MneCppKind
    ensures Install(s, env, q).success
        <==> env.found("git") && env.found("make") && env.found(s.qmake5)
             && (env.found("g++") || env.found("c++"))
             && !Gated(MneCpp.NAME, MneCpp.STEPS, env, q).raised
  {
    MneCpp.PreInstallIff(s.qmake5, env.found);
  }

  /** Eigen3 installs exactly when hg is found and no step the user agreed to
      raised. */
  lemma {:induction false} Eigen3InstallIff(s: Setup, env: Env, q: nat)
    requires s.kind == Eigen3Kind
    ensures Install(s, env, q).success
        <==> env.found("hg") && !Gated(Eigen3.NAME, Eigen3.STEPS, env, q).raised
  {
    Eigen3.PreInstallIsHgCheck(env.found);
  }

  /** MNE-CPP with its tools found and every prompt accepted: when the
      initialize step raises, after the download step ran, `install` returns
      False with the post stage not reached. */
  lemma {:induction false} MneCppInitializeRaises(s: Setup, env: Env, q: nat)
    requires s.kind == MneCppKind
    requires env.found("git") && env.found("make") && env.found(s.qmake5) && env.found("g++")
    requires Agrees(env, q, Prompt(Download, MneCpp.NAME)) && Agrees(env, q + 1, Prompt(Initialize, MneCpp.NAME))
    requires !RaisesAt(env, q, Download) && RaisesAt(env, q + 1, Initialize)
    ensures Install(s, env, q) == InstallRun(false, [Pre, Main], q + 2)
  {
    var steps := MneCpp.STEPS;
    assert steps[0] == Download && steps[1..] == [Initialize] + steps[2..];
    GatedRaisingStep(MneCpp.NAME, Initialize, steps[2..], env, q + 1);
    assert Gated(MneCpp.NAME, steps, env, q) == GatedRun(true, [Download, Initialize], [q, q + 1], q + 2);
    assert MainStage(s, env, q) == Raised(q + 2);
    MneCpp.PreInstallIff(s.qmake5, env.found);
    assert Succeeded(PreStage(s, env, q));
  }

  /** MNE-CPP with its tools found, every prompt accepted and no step raising:
      the four steps run, the compile step reads the make-jobs line, and
      `install` returns True after five prompts (g++ standing for the
      compiler found). */
  lemma {:induction false} MneCppAllStepsRun(s: Setup, env: Env, q: nat)
    requires s.kind == MneCppKind
    requires env.found("git") && env.found("make") && env.found(s.qmake5) && env.found("g++")
    requires forall k: nat, p: string :: Agrees(env, k, p)
    requires forall k: nat, st: Step :: q <= k ==> !RaisesAt(env, k, st)
    ensures Install(s, env, q) == InstallRun(true, [Pre, Main, Post], q + 5)
  {
    var steps := MneCpp.STEPS;
    GatedWithoutFailures(MneCpp.NAME, steps, env, q);
    GatedOffersEveryStep(MneCpp.NAME, steps, env, q);
    GatedAllRun(MneCpp.NAME, steps, env, q);
    assert InputsOf(steps) == 1 by {
      assert steps[1..][1..][1..][1..] == [];
    }
    assert MainStage(s, env, q) == Returned(true, q + 5);
    MneCpp.PreInstallIff(s.qmake5, env.found);
    assert Succeeded(PreStage(s, env, q));
  }

  /** A user who declines every step still gets a successful installation of
      a plugin whose tools are present: declining is not an error. */
  lemma {:induction false} DecliningIsNotFailure(s: Setup, env: Env, q: nat)
    requires s.kind != Generic
    requires Succeeded(PreStage(s, env, q))
    requires forall k: nat, p: string :: !Agrees(env, k, p)
    ensures Install(s, env, q).success
  {
    if s.kind == MneCppKind {
      GatedAllDeclined(MneCpp.NAME, MneCpp.STEPS, env, q);
    } else {
      GatedAllDeclined(Eigen3.NAME, Eigen3.STEPS, env, q);
    }
  }

  //----------------------------------------------------------------------------
  // instance and prototype

  /** `cls.instance(params)`: the base raises a plain exception, the plugins
      check their parameters. */
  function InstanceOf(kind: Kind, params: map<string, string>, expand: string -> string): Instance {
    match kind
    case Generic => OtherError("Instance method not implemented")
    case MneCppKind => MneCpp.InstanceOf(params, expand)
    case Eigen3Kind => Eigen3.InstanceOf(params, expand)
  }

  /** An installer is built exactly for a plugin class given `dest_dir`, and
      then with the class's name; otherwise the error is a `ParameterError`
      for a plugin and a plain exception for the base. */
  lemma {:induction false} InstanceNeedsDestination(kind: Kind, params: map<string, string>, expand: string -> string)
    ensures var r := InstanceOf(kind, params, expand);
            && (r.Built? <==> kind != Generic && DEST_DIR in params)
            && (r.Built? ==> r.setup.kind == kind && r.setup.dest == expand(params[DEST_DIR]))
            && (r.ParameterError? <==> kind != Generic && DEST_DIR !in params)
  {
  }

  function NameOf(kind: Kind): string {
    match kind
    case Generic => ""
    case MneCppKind => MneCpp.NAME
    case Eigen3Kind => Eigen3.NAME
  }

  function LongNameOf(kind: Kind): string {
    match kind
    case Generic => ""
    case MneCppKind => MneCpp.LONG_NAME
    case Eigen3Kind => Eigen3.LONG_NAME
  }

  /** `prototype()` of a plugin class: a default-constructed installer. */
  method Prototype(kind: Kind, expand: string -> string) returns (p: Installer)
    requires kind != Generic
    ensures fresh(p) && p.kind == kind && p.name == NameOf(kind) && p.longName == LongNameOf(kind)
  {
    p := new Installer(kind, NameOf(kind), LongNameOf(kind), expand);
  }

  /** `instance(params)`: a fresh installer set up through its setters, or the
      error raised. */
  method Instance(kind: Kind, params: map<string, string>, expand: string -> string)
    returns (inst: Installer?, result: Instance)
    ensures result == InstanceOf(kind, params, expand)
    ensures inst != null <==> result.Built?
    ensures inst != null ==> fresh(inst) && inst.Config() == result.setup
  {
    if kind == Generic {
      return null, OtherError("Instance method not implemented");
    }
    inst := new Installer(kind, NameOf(kind), LongNameOf(kind), expand);
    if DEST_DIR !in params {
      return null, ParameterError(DEST_DIR + " parameter is missing!");
    }
    inst.SetArgDest(params[DEST_DIR], expand);
    if kind == MneCppKind && MneCpp.PARAM_QMAKE5 in params {
      inst.SetArgQmake5(params[MneCpp.PARAM_QMAKE5]);
    }
    result := Built(inst.Config());
  }
}
