/** The MNE-CPP installer (packbacker/installers/mnecpp.py): its parameters,
    the tool checks before installing, the four gated steps and the
    environment variables it reports. */
module MneCpp {
  import opened Installer
  import PyText

  const NAME: string := "mne-cpp"
  const LONG_NAME: string := "MNE-CPP"
  const REPO_FOLDER: string := "mne-cpp"
  const PARAM_QMAKE5: string := "qmake5"

  /** `MneCpp.instance(params)`: `dest_dir` is required and `qmake5` is
      optional, its default kept when it is absent. */
  function InstanceOf(params: map<string, string>, expand: string -> string): (r: Instance)
    ensures r.Built? <==> DEST_DIR in params
    ensures r.Built? ==> r.setup == Setup(MneCppKind, NAME, LONG_NAME, expand(params[DEST_DIR]),
                                          if PARAM_QMAKE5 in params then params[PARAM_QMAKE5] else DEFAULT_QMAKE5)
    ensures !r.Built? ==> r == ParameterError(DEST_DIR + " parameter is missing!")
  {
    if DEST_DIR in params then
      Built(Setup(MneCppKind, NAME, LONG_NAME, expand(params[DEST_DIR]),
                  if PARAM_QMAKE5 in params then params[PARAM_QMAKE5] else DEFAULT_QMAKE5))
    else ParameterError(DEST_DIR + " parameter is missing!")
  }

  /** What `_pre_install` did: its result and the programs it ran, in order. */
  datatype PreRun = PreRun(ok: bool, probes: seq<string>)

  /** `_pre_install`: git, make and qmake are checked in a short-circuit chain,
      then g++, and c++ only when g++ is missing. */
  function PreInstall(qmake5: string, found: string -> bool): PreRun {
    var chain := ["git", "make", qmake5];
    var compilers := CompilerProbes(found);
    PreRun(ChainOk(chain, found) && (found("g++") || found("c++")),
           ChainProbes(chain, found) + compilers)
  }

  /** The checks pass exactly when git, make and qmake are all found and one
      of the two compilers is. */
  lemma {:induction false} PreInstallIff(qmake5: string, found: string -> bool)
    ensures PreInstall(qmake5, found).ok
        <==> found("git") && found("make") && found(qmake5) && (found("g++") || found("c++"))
  {
    var chain := ["git", "make", qmake5];
    ChainProbesPrefix(chain, found);
    assert chain[0] == "git" && chain[1] == "make" && chain[2] == qmake5;
    if found("git") && found("make") && found(qmake5) {
      assert forall j :: 0 <= j < |chain| ==> found(chain[j]);
    }
  }

  /** The compiler checks: g++, then c++ only when g++ is missing. */
  function CompilerProbes(found: string -> bool): seq<string> {
    ["g++"] + (if found("g++") then [] else ["c++"])
  }

  /** After the first missing tool of the git/make/qmake chain the rest of the
      chain is not run, the compiler check runs in every case, and c++ is
      probed only when g++ is missing: the whole list of programs run. */
  lemma {:induction false} PreInstallProbes(qmake5: string, found: string -> bool)
    ensures var probes := PreInstall(qmake5, found).probes;
            var compilers := CompilerProbes(found);
            && (!found("git") ==> probes == ["git"] + compilers)
            && (found("git") && !found("make") ==> probes == ["git", "make"] + compilers)
            && (found("git") && found("make") ==> probes == ["git", "make", qmake5] + compilers)
            && ("c++" in compilers <==> !found("g++"))
  {
    var p2 := ChainProbes([qmake5], found);
    assert [qmake5][1..] == [];
    assert ChainProbes([], found) == [];
    assert p2 == [qmake5];
    var p1 := ChainProbes(["make", qmake5], found);
    assert ["make", qmake5][1..] == [qmake5];
    assert p1 == ["make"] + (if found("make") then p2 else []);
    var chain := ["git", "make", qmake5];
    assert chain[1..] == ["make", qmake5];
    assert ChainProbes(chain, found) == ["git"] + (if found("git") then p1 else []);
    assert "g++" != "c++" by { assert "g++"[0] != "c++"[0]; }
  }

  /** The four steps `_install` offers, in order. */
  const STEPS: seq<Step> := [Download, Initialize, Configure, Compile]

  /** `_install`. */
  function InstallStage(env: Env, q: nat): StageResult {
    GatedStage(NAME, STEPS, env, q)
  }

  /** `_install` returns True unless an agreed step raised, and then it has
      offered all four steps; an exception comes from one of the four steps,
      run at one of the prompts this stage numbered. */
  lemma {:induction false} InstallStageOffersAll(env: Env, q: nat)
    ensures var r := InstallStage(env, q);
            && (r.Returned? ==> r.ok && r.next == q + 4 + InputsOf(Gated(NAME, STEPS, env, q).ran))
            && (r.Raised? ==> exists s :: s in STEPS && RaisesWithin(env, q, r.next, s))
  {
    GatedOffersEveryStep(NAME, STEPS, env, q);
    GatedRanAreOffered(NAME, STEPS, env, q);
    var g := Gated(NAME, STEPS, env, q);
    if g.raised {
      var s := g.ran[|g.ran| - 1];
      assert s in g.ran;
    }
  }

  /** An agreed compile step that raises has read the make-jobs line when the
      exception comes from running make, and has not when it comes from
      changing into the MNE directory first. */
  lemma {:induction false} CompileRaiseReadsJobsLine(env: Env, q: nat)
    requires Agrees(env, q, Prompt(Compile, NAME)) && env.raises(q, Compile)
    ensures var r := Gated(NAME, [Compile], env, q);
            r.raised && r.next == if env.raisesLate(q, Compile) then q + 2 else q + 1
  {
    GatedRaisingStep(NAME, Compile, [], env, q);
    assert [Compile] + [] == [Compile];
  }

  /** `_post_install`'s report: the include and library directories under the
      checkout. */
  function Reports(dest: string): seq<(string, string)> {
    [("MNE_INCLUDE_DIR", PyText.PathJoin(PyText.PathJoin(dest, REPO_FOLDER), "MNE")),
     ("MNE_LIBRARY_DIR", PyText.PathJoin(PyText.PathJoin(dest, REPO_FOLDER), "lib"))]
  }

  /** For a destination without a trailing slash the reported directories are
      dest/mne-cpp/MNE and dest/mne-cpp/lib. */
  lemma {:induction false} ReportsUnderDestination(dest: string)
    requires dest != [] && dest[|dest| - 1] != '/'
    ensures Reports(dest) == [("MNE_INCLUDE_DIR", dest + "/mne-cpp/MNE"), ("MNE_LIBRARY_DIR", dest + "/mne-cpp/lib")]
  {
    assert REPO_FOLDER[0] == 'm' && REPO_FOLDER[|REPO_FOLDER| - 1] == 'p';
    assert "MNE"[0] == 'M' && "lib"[0] == 'l';
    PyText.PathJoinRelative(dest, REPO_FOLDER, "MNE");
    PyText.PathJoinRelative(dest, REPO_FOLDER, "lib");
    assert dest + "/" + REPO_FOLDER + "/" + "MNE" == dest + "/mne-cpp/MNE";
    assert dest + "/" + REPO_FOLDER + "/" + "lib" == dest + "/mne-cpp/lib";
  }
}
