/** The two kinds of video device (VideoDeviceType.cs). */
module VideoDeviceTypes {

  /** VideoDeviceType: a capture device or a playout device. */
  datatype DeviceType = Input | Output
  {
    /** The other kind. */
    function Opposite(): (other: DeviceType)
      ensures other != this
    {
      if this == Input then Output else Input
    }
  }
}
