/** The computing parts of the EEG sensor transformator
    (src/eeg_sensor_transformator.cpp): the argument checks, the parser of
    the 4x4 transformation file, the affine map applied to every electrode,
    and the channels written back. Reading and writing FIFF files is not
    modelled: the picked EEG channels are an input and the written
    channels an output. */
module SensorTransformator {
  import opened Geometry
  import opened FiffChannel
  import Text
  import opened Options

  //----------------------------------------------------------------------------
  // The transformation file

  /** One matrix row from the four tokens of a line, in token order
      (`splits.at( i ).toDouble()`). */
  function RowOf(parts: seq<string>, toDouble: string -> real): Row4
    requires |parts| == 4
  {
    Row4(toDouble(parts[0]), toDouble(parts[1]), toDouble(parts[2]), toDouble(parts[3]))
  }

  /** The row loop from row `r` on, over the file's lines: at most four
      lines are read, each must split on " " into exactly four parts (or the
      whole read fails), and row r comes from line r. The rows not reached
      before the end of the file keep what `mat` held. */
  function ParseRows(lines: seq<string>, mat: Mat4, r: nat, toDouble: string -> real): (res: Option<Mat4>)
    decreases 4 - r
  {
    if r >= 4 || r >= |lines| then Some(mat)
    else
      var parts := Text.Split(lines[r], ' ');
      if |parts| != 4 then None
      else ParseRows(lines, mat[r := RowOf(parts, toDouble)], r + 1, toDouble)
  }

  /** The number of lines the row loop reads. */
  function RowsRead(lines: seq<string>): nat {
    if |lines| < 4 then |lines| else 4
  }

  /** A line is a valid row exactly when it holds three spaces, since
      `split(" ")` keeps empty parts: an empty line, a double space or a
      trailing space all give a wrong number of parts. */
  lemma {:induction false} RowNeedsThreeSpaces(line: string)
    ensures |Text.Split(line, ' ')| == 4 <==> Text.Count(line, ' ') == 3
  {
  }

  /** The read fails exactly when one of the lines read does not split into
      four parts. */
  lemma {:induction false} ParseRowsFails(lines: seq<string>, mat: Mat4, r: nat, toDouble: string -> real)
    ensures ParseRows(lines, mat, r, toDouble).None?
        <==> exists k :: r <= k < RowsRead(lines) && |Text.Split(lines[k], ' ')| != 4
    decreases 4 - r
  {
    if r < 4 && r < |lines| {
      var parts := Text.Split(lines[r], ' ');
      if |parts| == 4 {
        ParseRowsFails(lines, mat[r := RowOf(parts, toDouble)], r + 1, toDouble);
        if exists k :: r <= k < RowsRead(lines) && |Text.Split(lines[k], ' ')| != 4 {
          var k :| r <= k < RowsRead(lines) && |Text.Split(lines[k], ' ')| != 4;
          assert k != r;
        }
      }
    }
  }

  /** A successful read sets row k from line k for every line read and
      leaves the other rows as they were. */
  lemma {:induction false} ParseRowsContents(lines: seq<string>, mat: Mat4, r: nat, toDouble: string -> real)
    requires ParseRows(lines, mat, r, toDouble).Some?
    ensures var m := ParseRows(lines, mat, r, toDouble).value;
            forall k :: 0 <= k < 4 ==>
              if r <= k < RowsRead(lines) then |Text.Split(lines[k], ' ')| == 4 && m[k] == RowOf(Text.Split(lines[k], ' '), toDouble)
              else m[k] == mat[k]
    decreases 4 - r
  {
    if r < 4 && r < |lines| {
      var parts := Text.Split(lines[r], ' ');
      ParseRowsContents(lines, mat[r := RowOf(parts, toDouble)], r + 1, toDouble);
    }
  }

  /** Lines after the fourth are never read. */
  lemma {:induction false} ParseRowsIgnoresRest(lines: seq<string>, mat: Mat4, r: nat, toDouble: string -> real)
    requires |lines| >= 4
    ensures ParseRows(lines, mat, r, toDouble) == ParseRows(lines[..4], mat, r, toDouble)
    decreases 4 - r
  {
    if r < 4 {
      assert lines[..4][r] == lines[r];
      var parts := Text.Split(lines[r], ' ');
      if |parts| == 4 {
        ParseRowsIgnoresRest(lines, mat[r := RowOf(parts, toDouble)], r + 1, toDouble);
      }
    }
  }

  /** A row written as four space-free tokens joined by single spaces is read
      back token by token. */
  lemma {:induction false} FormattedRowReadBack(tokens: seq<string>, toDouble: string -> real)
    requires |tokens| == 4
    requires forall i :: 0 <= i < 4 ==> ' ' !in tokens[i]
    ensures Text.Split(Text.Join(tokens, ' '), ' ') == tokens
    ensures RowOf(Text.Split(Text.Join(tokens, ' '), ' '), toDouble)
            == Row4(toDouble(tokens[0]), toDouble(tokens[1]), toDouble(tokens[2]), toDouble(tokens[3]))
  {
    Text.SplitJoin(tokens, ' ');
  }

  /** The row loop `while( !ssTrans.atEnd() && rows < 4 )` on the file's
      lines, filling `mat` (whose unset rows hold whatever `init` holds). */
  method ReadTransform(lines: seq<string>, init: Mat4, toDouble: string -> real)
    returns (ok: bool, mat: Mat4, rows: nat)
    ensures ok ==> ParseRows(lines, init, 0, toDouble) == Some(mat) && rows == RowsRead(lines)
    ensures !ok <==> ParseRows(lines, init, 0, toDouble).None?
  {
    mat := init;
    rows := 0;
    while rows < |lines| && rows < 4
      invariant rows <= RowsRead(lines)
      invariant ParseRows(lines, init, 0, toDouble) == ParseRows(lines, mat, rows, toDouble)
      decreases 4 - rows
    {
      var line := lines[rows];
      var splits := Text.Split(line, ' ');
      if |splits| != 4 {
        return false, mat, rows;
      }
      mat := mat[rows := Row4(toDouble(splits[0]), toDouble(splits[1]), toDouble(splits[2]), toDouble(splits[3]))];
      rows := rows + 1;
    }
    ok := true;
  }

  //----------------------------------------------------------------------------
  // The affine map

  /** `TransformationT( mat ) * p`: the top-left 3x3 block times p plus the
      first three entries of column 3. */
  function Apply(m: Mat4, p: Point3): (q: Point3)
  {
    Point3(m[0].c0 * p.x + m[0].c1 * p.y + m[0].c2 * p.z + m[0].c3,
           m[1].c0 * p.x + m[1].c1 * p.y + m[1].c2 * p.z + m[1].c3,
           m[2].c0 * p.x + m[2].c1 * p.y + m[2].c2 * p.z + m[2].c3)
  }

  /** The identity matrix moves no point. */
  lemma {:induction false} ApplyIdentity(p: Point3)
    ensures Apply(Identity, p) == p
  {
  }

  /** The bottom row of the matrix has no effect on any point. */
  lemma {:induction false} ApplyIgnoresRow3(m: Mat4, row: Row4, p: Point3)
    ensures Apply(m[3 := row], p) == Apply(m, p)
  {
  }

  /** A matrix that is a pure translation adds its column 3 to every point. */
  lemma {:induction false} ApplyTranslation(dx: real, dy: real, dz: real, row3: Row4, p: Point3)
    ensures Apply([Row4(1.0, 0.0, 0.0, dx), Row4(0.0, 1.0, 0.0, dy), Row4(0.0, 0.0, 1.0, dz), row3], p)
            == Point3(p.x + dx, p.y + dy, p.z + dz)
  {
  }

  /** `points = t * points`: every column mapped, count and order kept. */
  function TransformAll(m: Mat4, ps: seq<Point3>): (qs: seq<Point3>)
  {
    seq(|ps|, k requires 0 <= k < |ps| => Apply(m, ps[k]))
  }

  /** The transformed points are the input points, one for one, each moved by
      the matrix. */
  lemma {:induction false} TransformAllPointwise(m: Mat4, ps: seq<Point3>)
    ensures |TransformAll(m, ps)| == |ps|
    ensures forall k :: 0 <= k < |ps| ==> TransformAll(m, ps)[k] == Apply(m, ps[k])
  {
  }

  /** Transforming with the identity gives the points back. */
  lemma {:induction false} TransformAllIdentity(ps: seq<Point3>)
    ensures TransformAll(Identity, ps) == ps
  {
    forall k | 0 <= k < |ps| ensures TransformAll(Identity, ps)[k] == ps[k] {
      ApplyIdentity(ps[k]);
    }
  }

  //----------------------------------------------------------------------------
  // The channel loops

  /** `points.col( col++ ) = it->eeg_loc.col( 0 )`: the first `eeg_loc`
      column of every picked channel, in channel order. */
  method ExtractPoints(chs: seq<ChInfo>) returns (points: seq<Point3>)
    ensures |points| == |chs|
    ensures forall k :: 0 <= k < |chs| ==> points[k] == chs[k].eegLoc0
  {
    points := [];
    var col := 0;
    while col < |chs|
      invariant col == |points| <= |chs|
      invariant forall k :: 0 <= k < col ==> points[k] == chs[k].eegLoc0
    {
      points := points + [chs[col].eegLoc0];
      col := col + 1;
    }
  }

  /** The output channel loop: one EEG channel per transformed point, in
      order, and `nchan` their number. */
  method EmitChannels(points: seq<Point3>) returns (chs: seq<ChInfo>, count: nat)
    ensures count == |chs| == |points|
    ensures forall k :: 0 <= k < |points| ==> chs[k] == EegChannel(points[k])
  {
    chs := [];
    count := 0;
    while count < |points|
      invariant count == |chs| <= |points|
      invariant forall k :: 0 <= k < count ==> chs[k] == EegChannel(points[k])
    {
      chs := chs + [EegChannel(points[count])];
      count := count + 1;
    }
  }

  //----------------------------------------------------------------------------
  // parseArguments

  /** What `getopt( argc, argv, "i:o:t:h" )` hands to the switch, one per
      option. */
  datatype TransOpt =
    | TOptInput(arg: string)
    | TOptOutput(arg: string)
    | TOptTransform(arg: string)
    | TOptHelp
    | TOptUnknown(c: char)

  /** The three file names, each with whether it was given. */
  datatype TransArgs = TransArgs(inFile: string, outFile: string, transFile: string,
                                 hasIn: bool, hasOut: bool, hasTrans: bool)

  const NoTransArgs: TransArgs := TransArgs("", "", "", false, false, false)

  /** The arguments after storing the options in order; the last one of
      each kind wins. */
  function StoreAll(opts: seq<TransOpt>): TransArgs
    decreases |opts|
  {
    if opts == [] then NoTransArgs
    else
      var g := StoreAll(opts[..|opts| - 1]);
      match opts[|opts| - 1]
      case TOptInput(a) => g.(inFile := a, hasIn := true)
      case TOptOutput(a) => g.(outFile := a, hasOut := true)
      case TOptTransform(a) => g.(transFile := a, hasTrans := true)
      case _ => g
  }

  /** Whether an option of each kind was given. */
  lemma {:induction false} StoreAllFlags(opts: seq<TransOpt>)
    ensures StoreAll(opts).hasIn <==> exists i :: 0 <= i < |opts| && opts[i].TOptInput?
    ensures StoreAll(opts).hasOut <==> exists i :: 0 <= i < |opts| && opts[i].TOptOutput?
    ensures StoreAll(opts).hasTrans <==> exists i :: 0 <= i < |opts| && opts[i].TOptTransform?
    decreases |opts|
  {
    if opts != [] {
      var init := opts[..|opts| - 1];
      StoreAllFlags(init);
      assert forall i :: 0 <= i < |init| ==> init[i] == opts[i];
      assert opts == init + [opts[|opts| - 1]];
    }
  }

  /** `parseArguments`: fails at the first help or unknown option and when
      any of -i, -o and -t is missing. */
  method ParseArguments(opts: seq<TransOpt>) returns (ok: bool, args: TransArgs)
    ensures ok <==> (forall i :: 0 <= i < |opts| ==> !opts[i].TOptHelp? && !opts[i].TOptUnknown?)
                    && StoreAll(opts).hasIn && StoreAll(opts).hasOut && StoreAll(opts).hasTrans
    ensures ok ==> args == StoreAll(opts)
  {
    args := NoTransArgs;
    var k := 0;
    while k < |opts|
      invariant 0 <= k <= |opts|
      invariant forall i :: 0 <= i < k ==> !opts[i].TOptHelp? && !opts[i].TOptUnknown?
      invariant args == StoreAll(opts[..k])
    {
      assert opts[..k + 1][..k] == opts[..k];
      match opts[k] {
        case TOptInput(a) =>
          args := args.(inFile := a, hasIn := true);
        case TOptOutput(a) =>
          args := args.(outFile := a, hasOut := true);
        case TOptTransform(a) =>
          args := args.(transFile := a, hasTrans := true);
        case TOptHelp =>
          return false, args;
        case TOptUnknown(_) =>
          return false, args;
      }
      k := k + 1;
    }
    assert opts[..k] == opts;
    ok := args.hasIn && args.hasOut && args.hasTrans;
  }

  //----------------------------------------------------------------------------
  // main

  /** Why `main` gives up with EXIT_FAILURE. */
  datatype Failure = BadArguments | NoFiffFile | NoEeg | NoTransformFile | BadTransform

  datatype Outcome = Failed(why: Failure) | Written(chs: seq<ChInfo>, nchan: nat)

  /** `main`, with the file system as inputs: `picked` is None when the FIFF
      file is missing or empty and otherwise the EEG channels it holds,
      `transLines` is None when the transformation file is missing or cannot
      be opened, and `init` is what the uninitialised matrix holds. The
      checks come in the order of the source, and on success the k-th
      channel written is the k-th EEG electrode moved by the matrix. */
  method TransformatorMain(opts: seq<TransOpt>, picked: Option<seq<ChInfo>>, transLines: Option<seq<string>>,
                           init: Mat4, toDouble: string -> real)
    returns (outcome: Outcome)
    ensures outcome.Failed? && outcome.why == BadArguments <==>
            !((forall i :: 0 <= i < |opts| ==> !opts[i].TOptHelp? && !opts[i].TOptUnknown?)
              && StoreAll(opts).hasIn && StoreAll(opts).hasOut && StoreAll(opts).hasTrans)
    ensures outcome.Written? <==>
            outcome != Failed(BadArguments) && picked.Some? && picked.value != [] && transLines.Some?
            && ParseRows(transLines.value, init, 0, toDouble).Some?
    ensures outcome.Written? ==>
              var mat := ParseRows(transLines.value, init, 0, toDouble).value;
              && outcome.nchan == |outcome.chs| == |picked.value|
              && forall k :: 0 <= k < |outcome.chs| ==>
                   outcome.chs[k] == EegChannel(Apply(mat, picked.value[k].eegLoc0))
  {
    var ok, args := ParseArguments(opts);
    if !ok {
      return Failed(BadArguments);
    }
    if picked.None? {
      return Failed(NoFiffFile);
    }
    var chInfos := picked.value;
    if |chInfos| == 0 {
      return Failed(NoEeg);
    }
    var points := ExtractPoints(chInfos);
    if transLines.None? {
      return Failed(NoTransformFile);
    }
    var read, mat, rows := ReadTransform(transLines.value, init, toDouble);
    if !read {
      return Failed(BadTransform);
    }
    points := TransformAll(mat, points);
    var chs, count := EmitChannels(points);
    outcome := Written(chs, count);
  }
}
