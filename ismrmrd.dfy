/**
 * The parts of the ISMRM Raw Data (ISMRMRD) format that the containers rely on:
 * acquisition flags, the encoding counters of an acquisition, encoding limits and
 * trajectory of the XML header, and the header fields of a reconstructed image.
 * Only the fields the modelled code reads or writes are kept.
 */
module Ismrmrd {
  import opened Complexes
  import opened Errors

  type U16 = x: int | 0 <= x < 0x1_0000
  type U32 = x: int | 0 <= x < 0x1_0000_0000
  type U64 = x: int | 0 <= x < 0x1_0000_0000_0000_0000

  // Bit numbers (counted from 1) of the acquisition flags the model uses.
  const ACQ_IS_NOISE_MEASUREMENT: nat := 19
  const ACQ_IS_PARALLEL_CALIBRATION: nat := 20
  const ACQ_IS_PARALLEL_CALIBRATION_AND_IMAGING: nat := 21
  const ACQ_IS_REVERSE: nat := 22
  const ACQ_LAST_IN_MEASUREMENT: nat := 25

  // Array lengths fixed by the format.
  const USER_INTS: nat := 8
  const USER_FLOATS: nat := 8
  const PHYS_STAMPS: nat := 3
  const CHANNEL_MASKS: nat := 16

  // Image data type code of single-precision complex images.
  const CXFLOAT: int := 7

  /** The acquisition flag numbers of the ISMRMRD format: bit positions 1 .. 64 of the flag word. */
  type FlagNumber = f: int | 1 <= f <= 64 witness 1

  /** 2 to the power n. */
  function Pow2(n: nat): (p: nat)
    ensures p >= 1
  {
    if n == 0 then 1 else 2 * Pow2(n - 1)
  }

  /** The value of the mask with only bit `flag` set, `1 << (flag - 1)` on a 64-bit word. */
  function FlagBit(flag: nat): nat
    requires 1 <= flag <= 64
  {
    Pow2(flag - 1)
  }

  /** Bit `flag` of the 64-bit flag word is set: `flags & (1 << (flag - 1))` is non-zero. */
  predicate IsFlagSet(flags: U64, flag: nat)
    requires 1 <= flag <= 64
  {
    (flags / FlagBit(flag)) % 2 == 1
  }

  /** The encoding counters of an acquisition (its `idx()` record). */
  datatype EncodingCounters = EncodingCounters(
    kspaceEncodeStep1: U16, kspaceEncodeStep2: U16, average: U16, slice: U16,
    contrast: U16, phase: U16, repetition: U16, setIndex: U16, segment: U16,
    user: seq<U16>)

  /** One readout: its flags, time stamp, trajectory dimensions, counters and samples. */
  datatype Acquisition = Acquisition(
    flags: U64,
    acquisitionTimeStamp: U32,
    trajectoryDimensions: U16,
    idx: EncodingCounters,
    data: seq<Complex>)

  /**
   * The acquisition filter: an acquisition is ignored when none of the four
   * keep-flags is set and its flag word is at least the noise-measurement bit.
   */
  predicate ToBeIgnored(acq: Acquisition) {
    && !IsFlagSet(acq.flags, ACQ_IS_PARALLEL_CALIBRATION)
    && !IsFlagSet(acq.flags, ACQ_IS_PARALLEL_CALIBRATION_AND_IMAGING)
    && !IsFlagSet(acq.flags, ACQ_LAST_IN_MEASUREMENT)
    && !IsFlagSet(acq.flags, ACQ_IS_REVERSE)
    && acq.flags >= FlagBit(ACQ_IS_NOISE_MEASUREMENT)
  }

  datatype Limit = Limit(minimum: U16, maximum: U16, center: U16)

  /** The optional limits of one encoding in the XML header. */
  datatype EncodingLimits = EncodingLimits(
    kspaceEncodingStep0: Option<Limit>, kspaceEncodingStep1: Option<Limit>,
    kspaceEncodingStep2: Option<Limit>, average: Option<Limit>, slice: Option<Limit>,
    contrast: Option<Limit>, phase: Option<Limit>, repetition: Option<Limit>,
    setLimit: Option<Limit>, segment: Option<Limit>)

  datatype TrajectoryType = Cartesian | Epi | Radial | GoldenAngle | Spiral | Other

  datatype Encoding = Encoding(encodingLimits: EncodingLimits, trajectory: TrajectoryType)

  /** The XML header as far as the modelled code uses it; the rest is left abstract. */
  datatype Header = Header(encoding: seq<Encoding>)

  /** The header fields of a reconstructed image that the modelled code reads. */
  datatype ImageHeader = ImageHeader(
    dataType: int,
    matrixSizeX: U16, matrixSizeY: U16, matrixSizeZ: U16, channels: U16,
    average: U16, slice: U16, contrast: U16, phase: U16, repetition: U16, setIndex: U16)

  /**
   * A reconstructed image; its samples are stored x fastest, then y, z and
   * channel, so that sample (x, y, z, c) sits at x + X*(y + Y*(z + Z*c)).
   */
  datatype Image = Image(head: ImageHeader, data: seq<Complex>)
}
