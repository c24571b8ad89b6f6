/** The part of a FIFF channel description (`FiffChInfo`) that the sensor
    tools fill in for every EEG electrode they emit. */
module FiffChannel {
  import opened Geometry

  datatype CoilType = CoilEeg | OtherCoil(code: int)
  datatype ChannelKind = EegChannelKind | OtherKind(code: int)

  /** `coil_type`, `kind`, `coil_trans`, the two columns of `eeg_loc` and the
      twelve entries of `loc`. */
  datatype ChInfo = ChInfo(coilType: CoilType, kind: ChannelKind, coilTrans: Mat4,
                           eegLoc0: Point3, eegLoc1: Point3, loc: seq<real>)

  /** The channel both tools build for an electrode at `p`: an EEG coil with an
      identity coil transform, `p` in both `eeg_loc` columns, and `loc` zero
      except for `p` in its first three entries. */
  function EegChannel(p: Point3): (ch: ChInfo)
    ensures ch.coilType == CoilEeg && ch.kind == EegChannelKind && ch.coilTrans == Identity
    ensures ch.eegLoc0 == p && ch.eegLoc1 == p
    ensures |ch.loc| == 12 && ch.loc[0] == p.x && ch.loc[1] == p.y && ch.loc[2] == p.z
    ensures forall i :: 3 <= i < 12 ==> ch.loc[i] == 0.0
  {
    ChInfo(CoilEeg, EegChannelKind, Identity, p, p,
           [p.x, p.y, p.z, 0.0, 0.0, 0.0, 0.0, 0.0, 0.0, 0.0, 0.0, 0.0])
  }
}
