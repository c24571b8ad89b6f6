/** The Eigen3 installer (packbacker/installers/eigen3.py): its parameter, the
    Mercurial check, the two gated steps and the include directory it
    reports. */
module Eigen3 {
  import opened Installer
  import PyText
  import Text

  const NAME: string := "eigen3"
  const LONG_NAME: string := "Eigen version 3"
  const REPO_FOLDER: string := "eigen322"

  /** `Eigen3.instance(params)`: `dest_dir` is required. */
  function InstanceOf(params: map<string, string>, expand: string -> string): (r: Instance)
    ensures r.Built? <==> DEST_DIR in params
    ensures r.Built? ==> r.setup == Setup(Eigen3Kind, NAME, LONG_NAME, expand(params[DEST_DIR]), DEFAULT_QMAKE5)
    ensures !r.Built? ==> r == ParameterError(DEST_DIR + " parameter is missing!")
  {
    if DEST_DIR in params then Built(Setup(Eigen3Kind, NAME, LONG_NAME, expand(params[DEST_DIR]), DEFAULT_QMAKE5))
    else ParameterError(DEST_DIR + " parameter is missing!")
  }

  /** `_pre_install`: the result of the one `hg` check. */
  function PreInstall(found: string -> bool): (ok: bool) {
    ChainOk(["hg"], found)
  }

  lemma {:induction false} PreInstallIsHgCheck(found: string -> bool)
    ensures PreInstall(found) == found("hg")
    ensures ChainProbes(["hg"], found) == ["hg"]
  {
    assert ["hg"][1..] == [];
  }

  /** The two steps `_install` offers: download, then initialize. */
  const STEPS: seq<Step> := [Download, Initialize]

  /** `_install`. */
  function InstallStage(env: Env, q: nat): StageResult {
    GatedStage(NAME, STEPS, env, q)
  }

  /** `_install` returns True unless an agreed step raised; without an
      exception both steps were offered, and neither step reads input. An
      exception comes from one of the two steps, at one of the stage's two
      prompts. */
  lemma {:induction false} InstallStageOffersBoth(env: Env, q: nat)
    ensures var r := InstallStage(env, q);
            && (r.Returned? ==> r.ok && r.next == q + 2)
            && (r.Raised? ==> RaisesWithin(env, q, q + 2, Download) || RaisesWithin(env, q, q + 2, Initialize))
  {
    var g := Gated(NAME, STEPS, env, q);
    GatedOffersEveryStep(NAME, STEPS, env, q);
    GatedRanAreOffered(NAME, STEPS, env, q);
    NoCompileNoInputs(g.ran);
    if g.raised {
      assert g.ran[|g.ran| - 1] in g.ran;
    }
  }

  lemma {:induction false} NoCompileNoInputs(ran: seq<Step>)
    requires forall s :: s in ran ==> s != Compile
    ensures InputsOf(ran) == 0
  {
    if ran != [] {
      assert ran[0] in ran;
      assert forall s :: s in ran[1..] ==> s in ran;
      NoCompileNoInputs(ran[1..]);
    }
  }

  /** `_post_install`'s report: the checkout directory. */
  function Reports(dest: string): seq<(string, string)> {
    [("EIGEN3_INCLUDE_DIR", PyText.PathJoin(dest, REPO_FOLDER))]
  }

  lemma {:induction false} ReportsUnderDestination(dest: string)
    requires dest != [] && dest[|dest| - 1] != '/'
    ensures Reports(dest) == [("EIGEN3_INCLUDE_DIR", dest + "/eigen322")]
  {
    assert !Text.StartsWith(REPO_FOLDER, "/") by { assert REPO_FOLDER[..1] == "e"; }
    assert dest + "/" + REPO_FOLDER == dest + "/eigen322";
  }
}
