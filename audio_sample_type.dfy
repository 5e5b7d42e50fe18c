/** Audio sample sizes (BMDAudioSampleType.cs). The enum's numeric value is the sample
  * width in bits. */
module AudioSampleTypes {
  import opened Wrappers

  type AudioSampleType = int

  const Int16: AudioSampleType := 16
  const Int32: AudioSampleType := 32

  /** GetBytesPerSample: 2 for Int16, 4 for Int32; any other value throws. For the two
    * supported types the byte count times eight is the type's bit width. */
  function BytesPerSample(sampleType: AudioSampleType): (r: Result<int>)
    ensures r.Success? <==> sampleType == Int16 || sampleType == Int32
    ensures r.Success? ==> r.value * 8 == sampleType
    ensures r.Failure? ==> r.error == ArgumentOutOfRange
  {
    if sampleType == Int16 then Success(2)
    else if sampleType == Int32 then Success(4)
    else Failure(ArgumentOutOfRange)
  }
}
