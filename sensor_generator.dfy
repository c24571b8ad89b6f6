/** The computing parts of the EEG sensor generator
    (src/eeg_sensor_generator.cpp): the argument checks, the removal of the
    bottom points of the outer skin surface, and the channel stride loop.
    Reading the BEM surface and writing the FIFF file are not modelled: the
    surface is the sequence of its points and the output the sequence of
    channels. */
module SensorGenerator {
  import opened Geometry
  import opened FiffChannel
  import opened CppString

  //----------------------------------------------------------------------------
  // removeBottomPoints

  /** `numeric_limits<float>::max()`: the surface coordinates are `float`. */
  const FLT_MAX: real := 340282346638528859811704183484516925440.0

  /** `numeric_limits<float>::min()`, the smallest POSITIVE normal float
      2^-126 (not the most negative one). */
  const FLT_MIN: real := 1.0 / 85070591730234615865843651857942052864.0

  /** The running minimum of the z values, started at FLT_MAX and lowered by
      every `z < min`. */
  function MinZ(ps: seq<Point3>): real
    decreases |ps|
  {
    if ps == [] then FLT_MAX
    else
      var m := MinZ(ps[..|ps| - 1]);
      if ps[|ps| - 1].z < m then ps[|ps| - 1].z else m
  }

  /** The running maximum of the z values, started at FLT_MIN and raised by
      every `z > max`. */
  function MaxZ(ps: seq<Point3>): real
    decreases |ps|
  {
    if ps == [] then FLT_MIN
    else
      var m := MaxZ(ps[..|ps| - 1]);
      if ps[|ps| - 1].z > m then ps[|ps| - 1].z else m
  }

  /** The minimum is at most every z and at most FLT_MAX, and it is one of
      them. */
  lemma {:induction false} MinZIsMinimum(ps: seq<Point3>)
    ensures MinZ(ps) <= FLT_MAX
    ensures forall i :: 0 <= i < |ps| ==> MinZ(ps) <= ps[i].z
    ensures MinZ(ps) == FLT_MAX || exists i :: 0 <= i < |ps| && MinZ(ps) == ps[i].z
    decreases |ps|
  {
    if ps != [] {
      var init := ps[..|ps| - 1];
      MinZIsMinimum(init);
      assert forall i :: 0 <= i < |init| ==> init[i] == ps[i];
      if MinZ(ps) != FLT_MAX && MinZ(ps) != ps[|ps| - 1].z {
        var i :| 0 <= i < |init| && MinZ(init) == init[i].z;
        assert MinZ(ps) == ps[i].z;
      }
    }
  }

  /** The maximum is at least every z and at least FLT_MIN, and it is one of
      them: a surface lying wholly below z = FLT_MIN reports FLT_MIN as its
      maximum. */
  lemma {:induction false} MaxZIsMaximum(ps: seq<Point3>)
    ensures MaxZ(ps) >= FLT_MIN
    ensures forall i :: 0 <= i < |ps| ==> MaxZ(ps) >= ps[i].z
    ensures MaxZ(ps) == FLT_MIN || exists i :: 0 <= i < |ps| && MaxZ(ps) == ps[i].z
    decreases |ps|
  {
    if ps != [] {
      var init := ps[..|ps| - 1];
      MaxZIsMaximum(init);
      assert forall i :: 0 <= i < |init| ==> init[i] == ps[i];
      if MaxZ(ps) != FLT_MIN && MaxZ(ps) != ps[|ps| - 1].z {
        var i :| 0 <= i < |init| && MaxZ(init) == init[i].z;
        assert MaxZ(ps) == ps[i].z;
      }
    }
  }

  /** `z_threashold = min + ( max - min ) * cutFactor`. */
  function Threshold(min: real, max: real, cut: real): real {
    min + (max - min) * cut
  }

  /** The points strictly above `t`, in their original order. */
  function Kept(ps: seq<Point3>, t: real): (ks: seq<Point3>)
    ensures |ks| <= |ps|
    decreases |ps|
  {
    if ps == [] then []
    else Kept(ps[..|ps| - 1], t) + (if ps[|ps| - 1].z > t then [ps[|ps| - 1]] else [])
  }

  /** How many points lie at or below `t`. */
  function Removed(ps: seq<Point3>, t: real): nat
    decreases |ps|
  {
    if ps == [] then 0
    else Removed(ps[..|ps| - 1], t) + (if ps[|ps| - 1].z > t then 0 else 1)
  }

  /** Every point is either kept or counted as removed. */
  lemma {:induction false} KeptPlusRemoved(ps: seq<Point3>, t: real)
    ensures |Kept(ps, t)| + Removed(ps, t) == |ps|
    decreases |ps|
  {
    if ps != [] {
      KeptPlusRemoved(ps[..|ps| - 1], t);
    }
  }

  /** A point is kept exactly when it is a surface point strictly above the
      threshold; a point at the threshold is removed. */
  lemma {:induction false} KeptMembers(ps: seq<Point3>, t: real, p: Point3)
    ensures p in Kept(ps, t) <==> p in ps && p.z > t
    decreases |ps|
  {
    if ps != [] {
      var init := ps[..|ps| - 1];
      KeptMembers(init, t, p);
      assert ps == init + [ps[|ps| - 1]];
    }
  }

  /** When every point is at or below `t`, nothing is kept. */
  lemma {:induction false} NothingAbove(ps: seq<Point3>, t: real)
    requires forall i :: 0 <= i < |ps| ==> ps[i].z <= t
    ensures Kept(ps, t) == []
    decreases |ps|
  {
    if ps != [] {
      NothingAbove(ps[..|ps| - 1], t);
    }
  }

  /** With the cut factor 1 the threshold is the maximum, so no point is
      kept. */
  lemma {:induction false} CutOneKeepsNothing(ps: seq<Point3>)
    ensures Kept(ps, Threshold(MinZ(ps), MaxZ(ps), 1.0)) == []
  {
    MaxZIsMaximum(ps);
    NothingAbove(ps, Threshold(MinZ(ps), MaxZ(ps), 1.0));
  }

  /** With the cut factor 0 the threshold is the minimum, so the lowest
      points are removed: a non-empty surface of float coordinates always
      loses at least one point, although the help text says that 0 keeps
      all points. */
  lemma {:induction false} CutZeroRemovesMinimum(ps: seq<Point3>)
    requires ps != []
    requires forall i :: 0 <= i < |ps| ==> ps[i].z <= FLT_MAX
    ensures var t := Threshold(MinZ(ps), MaxZ(ps), 0.0);
            t == MinZ(ps) && Removed(ps, t) >= 1 && |Kept(ps, t)| < |ps|
  {
    var t := Threshold(MinZ(ps), MaxZ(ps), 0.0);
    MinZIsMinimum(ps);
    KeptPlusRemoved(ps, t);
    if MinZ(ps) == FLT_MAX {
      RemovedSome(ps, t, 0);
    } else {
      var i :| 0 <= i < |ps| && MinZ(ps) == ps[i].z;
      RemovedSome(ps, t, i);
    }
  }

  /** A point at or below `t` is counted as removed. */
  lemma {:induction false} RemovedSome(ps: seq<Point3>, t: real, i: nat)
    requires i < |ps| && ps[i].z <= t
    ensures Removed(ps, t) >= 1
    decreases |ps|
  {
    if i < |ps| - 1 {
      RemovedSome(ps[..|ps| - 1], t, i);
    }
  }

  /** `removeBottomPoints(points, surface, cutFactor)`: scans the z range,
      then appends every surface point strictly above the threshold to
      `points`, in order, and answers how many it left out. */
  method RemoveBottomPoints(points: seq<Point3>, surface: seq<Point3>, cutFactor: real)
    returns (removed: nat, out: seq<Point3>)
    ensures out == points + Kept(surface, Threshold(MinZ(surface), MaxZ(surface), cutFactor))
    ensures removed == Removed(surface, Threshold(MinZ(surface), MaxZ(surface), cutFactor))
    ensures removed + |out| == |points| + |surface|
  {
    removed := 0;
    var min, max := FLT_MAX, FLT_MIN;
    var c := 0;
    while c < |surface|
      invariant 0 <= c <= |surface|
      invariant min == MinZ(surface[..c]) && max == MaxZ(surface[..c])
    {
      var z := surface[c].z;
      assert surface[..c + 1][..c] == surface[..c];
      if z < min {
        min := z;
      }
      if z > max {
        max := z;
      }
      c := c + 1;
    }
    assert surface[..c] == surface;
    var threshold := min + (max - min) * cutFactor;
    assert threshold == Threshold(MinZ(surface), MaxZ(surface), cutFactor);
    out := points;
    c := 0;
    while c < |surface|
      invariant 0 <= c <= |surface|
      invariant out == points + Kept(surface[..c], threshold)
      invariant removed == Removed(surface[..c], threshold)
    {
      var p := surface[c];
      assert surface[..c + 1][..c] == surface[..c];
      if p.z > threshold {
        out := out + [p];
      } else {
        removed := removed + 1;
      }
      c := c + 1;
    }
    assert surface[..c] == surface;
    KeptPlusRemoved(surface, threshold);
  }

  //----------------------------------------------------------------------------
  // The channel loop of `main`

  /** The number of channels `for( ch = 0; ch < n; ch += skip )` emits: the
      ceiling of n / skip. */
  function StrideCount(n: nat, skip: nat): (k: nat)
    requires skip >= 1
  {
    (n + skip - 1) / skip
  }

  /** The channel count is the least k with k * skip >= n, so the indices
      0, skip, ..., (k-1) * skip are exactly those below n. */
  lemma {:induction false} StrideCountIsCeiling(n: nat, skip: nat)
    requires skip >= 1
    ensures StrideCount(n, skip) * skip >= n
    ensures StrideCount(n, skip) == 0 || (StrideCount(n, skip) - 1) * skip < n
  {
    var k := StrideCount(n, skip);
    var q, r := (n + skip - 1) / skip, (n + skip - 1) % skip;
    assert n + skip - 1 == q * skip + r;
    assert k == q;
    if k > 0 {
      assert (k - 1) * skip == k * skip - skip;
    }
  }

  /** The channels the stride loop emits from index `from` on. */
  function Strided(points: seq<Point3>, skip: nat, from: nat): seq<ChInfo>
    requires skip >= 1
    decreases |points| - from
  {
    if from >= |points| then [] else [EegChannel(points[from])] + Strided(points, skip, from + skip)
  }

  /** Channel k emitted from `from` on is the electrode at from + k * skip. */
  lemma {:induction false} StridedAt(points: seq<Point3>, skip: nat, from: nat)
    requires skip >= 1
    ensures forall k :: 0 <= k < |Strided(points, skip, from)| ==>
              from + k * skip < |points| && Strided(points, skip, from)[k] == EegChannel(points[from + k * skip])
    decreases |points| - from
  {
    if from < |points| {
      var rest := Strided(points, skip, from + skip);
      StridedAt(points, skip, from + skip);
      forall k | 0 <= k < |rest| + 1
        ensures from + k * skip < |points| && ([EegChannel(points[from])] + rest)[k] == EegChannel(points[from + k * skip])
      {
        if k > 0 {
          MulSucc(k - 1, skip);
          assert ([EegChannel(points[from])] + rest)[k] == rest[k - 1];
        }
      }
    }
  }

  /** From the start, channel k is the electrode at k * skip. */
  lemma {:induction false} StridedFromStart(points: seq<Point3>, skip: nat)
    requires skip >= 1
    ensures forall k :: 0 <= k < |Strided(points, skip, 0)| ==>
              k * skip < |points| && Strided(points, skip, 0)[k] == EegChannel(points[k * skip])
  {
    StridedAt(points, skip, 0);
    forall k | 0 <= k < |Strided(points, skip, 0)|
      ensures k * skip < |points| && Strided(points, skip, 0)[k] == EegChannel(points[k * skip])
    {
      assert 0 + k * skip == k * skip;
    }
  }

  /** The number of channels emitted from `from` on is the ceiling of the
      remaining length over `skip`. */
  lemma {:induction false} StridedLength(points: seq<Point3>, skip: nat, from: nat)
    requires skip >= 1
    ensures |Strided(points, skip, from)| == if from >= |points| then 0 else StrideCount(|points| - from, skip)
    decreases |points| - from
  {
    if from < |points| {
      var m := |points| - from;
      StridedLength(points, skip, from + skip);
      var c := if from + skip >= |points| then 0 else StrideCount(m - skip, skip);
      assert c * skip >= m - skip && (c == 0 || (c - 1) * skip < m - skip) by {
        if from + skip < |points| { StrideCountIsCeiling(m - skip, skip); }
      }
      MulSucc(c, skip);
      StrideCountExact(m, skip, c + 1);
    }
  }

  /** The stride loop: the channels `Strided` describes (channel k is the
      EEG electrode at `points[k * skip]`), and `nchan` is their number. */
  method StrideChannels(points: seq<Point3>, skip: nat) returns (chs: seq<ChInfo>, count: nat)
    requires skip >= 1
    ensures chs == Strided(points, skip, 0)
    ensures count == |chs| == StrideCount(|points|, skip)
  {
    chs := [];
    count := 0;
    var ch: nat := 0;
    while ch < |points|
      invariant count == |chs|
      invariant chs + Strided(points, skip, ch) == Strided(points, skip, 0)
      decreases |points| - ch
    {
      AppendAssoc(chs, [EegChannel(points[ch])], Strided(points, skip, ch + skip));
      chs := chs + [EegChannel(points[ch])];
      count := count + 1;
      ch := ch + skip;
    }
    assert chs == Strided(points, skip, 0);
    StridedLength(points, skip, 0);
  }

  lemma {:induction false} AppendAssoc<T>(a: seq<T>, b: seq<T>, c: seq<T>)
    ensures (a + b) + c == a + (b + c)
  {
  }

  /** A count k with (k-1) * skip < n <= k * skip is the ceiling. */
  lemma {:induction false} StrideCountExact(n: nat, skip: nat, k: nat)
    requires skip >= 1
    requires k * skip >= n && (k == 0 || (k - 1) * skip < n)
    ensures k == StrideCount(n, skip)
  {
    StrideCountIsCeiling(n, skip);
    var c := StrideCount(n, skip);
    if c < k {
      MulMonotone(c, k - 1, skip);
    } else if c > k {
      MulMonotone(k, c - 1, skip);
    }
  }

  lemma {:induction false} MulSucc(a: nat, m: nat)
    ensures (a + 1) * m == a * m + m
  {
  }

  lemma {:induction false} MulMonotone(a: nat, b: nat, m: nat)
    requires a <= b
    ensures a * m <= b * m
  {
    assert b * m == a * m + (b - a) * m;
  }

  //----------------------------------------------------------------------------
  // parseArguments

  /** What `getopt( argc, argv, "i:o:s:hc:" )` hands to the switch, one per
      option; an unknown option and an option missing its argument both
      come back as '?'. */
  datatype GenOpt =
    | OptInput(arg: string)
    | OptOutput(arg: string)
    | OptSkip(arg: string)
    | OptCut(arg: string)
    | OptHelp
    | OptUnknown(c: char)

  /** The parsed arguments: input file, output file, skip and cut factor. */
  datatype GenArgs = GenArgs(inFile: string, outFile: string, hasIn: bool, hasOut: bool, skip: SizeT, cut: real)

  /** The values `main` starts from: `skip = 1`, `cutBottom = 0.33`. */
  const GenDefaults: GenArgs := GenArgs("", "", false, false, 1, 0.33)

  /** An option the switch lets through: the skip read must be at least 1
      and the cut factor within [0, 1]; help and unknown options stop the
      parse. */
  predicate OptAccepted(o: GenOpt, toSize: string -> SizeT, toReal: string -> real) {
    match o
    case OptSkip(a) => toSize(a) >= 1
    case OptCut(a) => 0.0 <= toReal(a) <= 1.0
    case OptHelp => false
    case OptUnknown(_) => false
    case _ => true
  }

  /** What one accepted option stores; a repeated option overwrites. */
  function Store(g: GenArgs, o: GenOpt, toSize: string -> SizeT, toReal: string -> real): GenArgs {
    match o
    case OptInput(a) => g.(inFile := a, hasIn := true)
    case OptOutput(a) => g.(outFile := a, hasOut := true)
    case OptSkip(a) => g.(skip := toSize(a))
    case OptCut(a) => g.(cut := toReal(a))
    case _ => g
  }

  /** The arguments after storing the options in order. */
  function StoreAll(g: GenArgs, opts: seq<GenOpt>, toSize: string -> SizeT, toReal: string -> real): GenArgs
    decreases |opts|
  {
    if opts == [] then g
    else Store(StoreAll(g, opts[..|opts| - 1], toSize, toReal), opts[|opts| - 1], toSize, toReal)
  }

  /** Without a -s option the skip keeps its default; without -c the cut
      factor does. */
  lemma {:induction false} StoreAllDefaults(g: GenArgs, opts: seq<GenOpt>, toSize: string -> SizeT, toReal: string -> real)
    ensures (forall i :: 0 <= i < |opts| ==> !opts[i].OptSkip?) ==> StoreAll(g, opts, toSize, toReal).skip == g.skip
    ensures (forall i :: 0 <= i < |opts| ==> !opts[i].OptCut?) ==> StoreAll(g, opts, toSize, toReal).cut == g.cut
    decreases |opts|
  {
    if opts != [] {
      var init := opts[..|opts| - 1];
      StoreAllDefaults(g, init, toSize, toReal);
      assert forall i :: 0 <= i < |init| ==> init[i] == opts[i];
    }
  }

  /** The input flag records whether a -i option was seen. */
  lemma {:induction false} StoreAllHasIn(g: GenArgs, opts: seq<GenOpt>, toSize: string -> SizeT, toReal: string -> real)
    ensures StoreAll(g, opts, toSize, toReal).hasIn <==> g.hasIn || exists i :: 0 <= i < |opts| && opts[i].OptInput?
    decreases |opts|
  {
    if opts != [] {
      var init := opts[..|opts| - 1];
      StoreAllHasIn(g, init, toSize, toReal);
      if exists i :: 0 <= i < |opts| && opts[i].OptInput? {
        var i :| 0 <= i < |opts| && opts[i].OptInput?;
        if i < |init| {
          assert init[i] == opts[i];
        }
      }
      if exists i :: 0 <= i < |init| && init[i].OptInput? {
        var i :| 0 <= i < |init| && init[i].OptInput?;
        assert opts[i] == init[i];
      }
    }
  }

  /** The output flag records whether a -o option was seen. */
  lemma {:induction false} StoreAllHasOut(g: GenArgs, opts: seq<GenOpt>, toSize: string -> SizeT, toReal: string -> real)
    ensures StoreAll(g, opts, toSize, toReal).hasOut <==> g.hasOut || exists i :: 0 <= i < |opts| && opts[i].OptOutput?
    decreases |opts|
  {
    if opts != [] {
      var init := opts[..|opts| - 1];
      StoreAllHasOut(g, init, toSize, toReal);
      if exists i :: 0 <= i < |opts| && opts[i].OptOutput? {
        var i :| 0 <= i < |opts| && opts[i].OptOutput?;
        if i < |init| {
          assert init[i] == opts[i];
        }
      }
      if exists i :: 0 <= i < |init| && init[i].OptOutput? {
        var i :| 0 <= i < |init| && init[i].OptOutput?;
        assert opts[i] == init[i];
      }
    }
  }

  /** Every stored skip is at least 1 and every stored cut within [0, 1] once
      all options were accepted. */
  lemma {:induction false} StoreAllInRange(g: GenArgs, opts: seq<GenOpt>, toSize: string -> SizeT, toReal: string -> real)
    requires g.skip >= 1 && 0.0 <= g.cut <= 1.0
    requires forall i :: 0 <= i < |opts| ==> OptAccepted(opts[i], toSize, toReal)
    ensures StoreAll(g, opts, toSize, toReal).skip >= 1
    ensures 0.0 <= StoreAll(g, opts, toSize, toReal).cut <= 1.0
    decreases |opts|
  {
    if opts != [] {
      var init := opts[..|opts| - 1];
      assert forall i :: 0 <= i < |init| ==> init[i] == opts[i];
      StoreAllInRange(g, init, toSize, toReal);
    }
  }

  /** `parseArguments`: the `getopt` loop over `opts`. It fails at the first
      help, unknown or out-of-range option, and after the loop when -i or -o
      is missing; otherwise the arguments are the defaults overwritten by the
      options in order. */
  method ParseArguments(opts: seq<GenOpt>, toSize: string -> SizeT, toReal: string -> real)
    returns (ok: bool, args: GenArgs)
    ensures ok <==> (forall i :: 0 <= i < |opts| ==> OptAccepted(opts[i], toSize, toReal))
                    && StoreAll(GenDefaults, opts, toSize, toReal).hasIn
                    && StoreAll(GenDefaults, opts, toSize, toReal).hasOut
    ensures ok ==> args == StoreAll(GenDefaults, opts, toSize, toReal)
  {
    args := GenDefaults;
    var k := 0;
    while k < |opts|
      invariant 0 <= k <= |opts|
      invariant forall i :: 0 <= i < k ==> OptAccepted(opts[i], toSize, toReal)
      invariant args == StoreAll(GenDefaults, opts[..k], toSize, toReal)
    {
      assert opts[..k + 1][..k] == opts[..k];
      match opts[k] {
        case OptInput(a) =>
          args := args.(inFile := a, hasIn := true);
        case OptOutput(a) =>
          args := args.(outFile := a, hasOut := true);
        case OptSkip(a) =>
          args := args.(skip := toSize(a));
          if args.skip < 1 {
            return false, args;
          }
        case OptCut(a) =>
          args := args.(cut := toReal(a));
          if args.cut < 0.0 || args.cut > 1.0 {
            return false, args;
          }
        case OptHelp =>
          return false, args;
        case OptUnknown(_) =>
          return false, args;
      }
      k := k + 1;
    }
    assert opts[..k] == opts;
    ok := args.hasIn && args.hasOut;
  }

  /** Accepted arguments always carry a skip of at least 1 and a cut factor
      in [0, 1]. */
  lemma {:induction false} AcceptedArgumentsInRange(opts: seq<GenOpt>, toSize: string -> SizeT, toReal: string -> real)
    requires forall i :: 0 <= i < |opts| ==> OptAccepted(opts[i], toSize, toReal)
    ensures var a := StoreAll(GenDefaults, opts, toSize, toReal);
            a.skip >= 1 && 0.0 <= a.cut <= 1.0
  {
    StoreAllInRange(GenDefaults, opts, toSize, toReal);
  }

  //----------------------------------------------------------------------------
  // main

  /** The computing part of `main` once the outer skin has been found: the
      bottom points are removed and every `skip`-th remaining point becomes
      an EEG channel; `nchan` is their number. */
  method Generate(skin: seq<Point3>, args: GenArgs) returns (chs: seq<ChInfo>, nchan: nat)
    requires args.skip >= 1
    ensures var kept := Kept(skin, Threshold(MinZ(skin), MaxZ(skin), args.cut));
            && chs == Strided(kept, args.skip, 0)
            && nchan == |chs| == StrideCount(|kept|, args.skip)
  {
    var removed, points := RemoveBottomPoints([], skin, args.cut);
    assert points == Kept(skin, Threshold(MinZ(skin), MaxZ(skin), args.cut));
    chs, nchan := StrideChannels(points, args.skip);
  }
}
