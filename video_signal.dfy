/** Codes of the video signal's field dominance, colour space and transfer function
  * (BMDFieldDominance.cs, ColorTransform.cs). Like the C# enums they stand for, they
  * are plain integers: the native side may report any value. */
module VideoSignals {

  type FieldDominance = int

  const UnknownField: FieldDominance := 0
  const LowerFieldFirst: FieldDominance := 0x6c6f_7772
  const UpperFieldFirst: FieldDominance := 0x7570_7072
  const ProgressiveFrame: FieldDominance := 0x7072_6f67
  const ProgressiveSegmentedFrame: FieldDominance := 0x7073_6620

  /** Interlaced video carries two fields a frame, one of them first. */
  predicate IsInterlaced(dominance: FieldDominance)
  {
    dominance == LowerFieldFirst || dominance == UpperFieldFirst
  }

  type ColorSpace = int

  const ColorSpaceUseDeviceSignal: ColorSpace := 0
  const BT601: ColorSpace := 2
  const BT709: ColorSpace := 4
  const BT2020: ColorSpace := 8

  type TransferFunction = int

  const TransferUseDeviceSignal: TransferFunction := 0
  const HDR: TransferFunction := 1
  const PQ: TransferFunction := 2
  const HLG: TransferFunction := 3
}
