/** One slot of the capture queue (BufferedFrame.cs): a texture buffer and an audio
  * buffer, overwritten by each captured frame, and the frame's presentation status. */
module BufferedFrames {
  import opened Wrappers
  import opened Arithmetic
  import opened Timecodes
  import opened VideoSignals
  import opened ThreadedCopies

  datatype Status = Uninitialized | Queued | Presented

  /** A captured video frame as the native callback hands it over: the bytes behind the
    * data pointer (their number is the frame's size), the field dominance, the frame
    * duration and stream time in flicks, and the decoded timecode if there was one. */
  datatype InputVideoFrame = InputVideoFrame(
    data: seq<Byte>,
    fieldDominance: FieldDominance,
    frameDuration: int,
    streamTimestamp: int,
    timecode: Option<Timecode>)

  /** The audio captured with a frame: the sample bytes, their type and channel count. */
  datatype InputAudioFrame = InputAudioFrame(data: seq<Byte>, sampleType: int, channelCount: int)

  /** The audio buffer holds the samples of one frame of 2-channel 16-bit 48 kHz audio
    * at the slowest rate, 24 frames a second: 8000 bytes. */
  const AudioBufferBytes: int := 2 * 2 * 48000 / 24

  /** The timecode a struct holds before it is assigned: every field zero. */
  const DefaultTimecode: Timecode := Timecode(0, 0, 0, 0, 0, false, 0)

  class BufferedFrame {
    var status: Status
    var frameDuration: int
    var timecode: Timecode
    var fieldDominance: FieldDominance
    var texture: array<Byte>
    var audio: array<Byte>
    var audioLength: int
    var audioSampleType: int
    var audioChannelCount: int
    /** Whether each native buffer is still allocated (NativeArray.IsCreated). */
    var textureCreated: bool
    var audioCreated: bool
    /** How many times each buffer has been freed. */
    ghost var textureFrees: nat
    ghost var audioFrees: nat

    /** The two buffers are distinct, and each has been freed once exactly when it is
      * no longer allocated: no buffer is ever freed twice. */
    ghost predicate Valid()
      reads this
    {
      texture != audio
      && textureFrees == (if textureCreated then 0 else 1)
      && audioFrees == (if audioCreated then 0 else 1)
    }

    /** A new frame is Uninitialized, with a texture buffer of byteWidth * byteHeight
      * bytes and an audio buffer of AudioBufferBytes bytes. */
    constructor(byteWidth: int, byteHeight: int)
      requires byteWidth * byteHeight >= 0
      ensures Valid() && status == Uninitialized
      ensures texture.Length == byteWidth * byteHeight && audio.Length == AudioBufferBytes == 8000
      ensures textureCreated && audioCreated
      ensures fresh(texture) && fresh(audio)
      ensures audioLength == 0 && timecode == DefaultTimecode
    {
      status := Uninitialized;
      frameDuration := 0;
      timecode := DefaultTimecode;
      fieldDominance := UnknownField;
      texture := new Byte[byteWidth * byteHeight];
      audio := new Byte[AudioBufferBytes];
      audioLength := 0;
      audioSampleType := 0;
      audioChannelCount := 0;
      textureCreated := true;
      audioCreated := true;
      textureFrees := 0;
      audioFrees := 0;
    }

    /** Dispose frees each buffer that is still allocated and leaves an empty one in
      * its place; calling it again frees nothing. */
    method Dispose()
      requires Valid()
      modifies this
      ensures Valid() && !textureCreated && !audioCreated
      ensures textureFrees == old(textureFrees) + (if old(textureCreated) then 1 else 0)
      ensures audioFrees == old(audioFrees) + (if old(audioCreated) then 1 else 0)
      ensures old(textureCreated) ==> fresh(texture) && texture.Length == 0
      ensures !old(textureCreated) ==> texture == old(texture)
      ensures old(audioCreated) ==> fresh(audio) && audio.Length == 0
      ensures !old(audioCreated) ==> audio == old(audio)
      ensures status == old(status) && timecode == old(timecode) && audioLength == old(audioLength)
    {
      if textureCreated {
        textureFrees := textureFrees + 1;
        texture := new Byte[0];
        textureCreated := false;
      }
      if audioCreated {
        audioFrees := audioFrees + 1;
        audio := new Byte[0];
        audioCreated := false;
      }
    }

    /** CopyFrom: the frame's own timecode, or one built from the stream time (which
      * divides by the frame duration); the video bytes when they fit in the texture;
      * the audio bytes when there is audio and it fits, with audioLength its size or
      * 0 without audio; and the status Queued. A fault is the exception the source
      * would throw part-way: a zero frame duration without a timecode, or a disposed
      * copy engine asked to copy. */
    method CopyFrom(video: InputVideoFrame, audioFrame: Option<InputAudioFrame>, memcpy: ThreadedMemcpy)
      returns (fault: Option<Fault>)
      requires Valid() && memcpy.Valid() && video.frameDuration >= 0
      modifies this, texture, audio
      ensures Valid() && texture == old(texture) && audio == old(audio)
      ensures textureCreated == old(textureCreated) && audioCreated == old(audioCreated)
      ensures textureFrees == old(textureFrees) && audioFrees == old(audioFrees)
      ensures fault.None? <==>
        !(video.timecode.None? && video.frameDuration == 0)
        && !(memcpy.disposed && (texture.Length >= |video.data| || (audioFrame.Some? && audio.Length >= |audioFrame.value.data|)))
      ensures fault.None? ==> status == Queued
      ensures fault.Some? ==> status == old(status)
      ensures fault.None? ==> frameDuration == video.frameDuration && fieldDominance == video.fieldDominance
      ensures fault.None? ==>
        timecode == (if video.timecode.Some? then video.timecode.value
                     else FromFlicks(video.frameDuration, video.streamTimestamp, false).value)
      ensures fault.None? && texture.Length >= |video.data| ==> texture[..|video.data|] == video.data
      ensures texture.Length < |video.data| ==> texture[..] == old(texture[..])
      ensures fault.None? && audioFrame.None? ==> audioLength == 0 && audio[..] == old(audio[..])
      ensures fault.None? && audioFrame.Some? ==>
        audioLength == |audioFrame.value.data| && audioSampleType == audioFrame.value.sampleType
        && audioChannelCount == audioFrame.value.channelCount
      ensures fault.None? && audioFrame.Some? && audio.Length >= |audioFrame.value.data| ==>
        audio[..|audioFrame.value.data|] == audioFrame.value.data
      ensures audioFrame.Some? && audio.Length < |audioFrame.value.data| ==> audio[..] == old(audio[..])
    {
      fault := CopyTiming(video);
      if fault.Some? {
        return;
      }
      fieldDominance := video.fieldDominance;
      fault := CopyVideo(video, memcpy);
      if fault.Some? {
        return;
      }
      fault := CopyAudio(audioFrame, memcpy);
      if fault.Some? {
        return;
      }
      status := Queued;
      fault := None;
    }

    /** The timing part of CopyFrom: the frame duration, and the frame's own timecode or
      * one built from the stream time, which divides by the frame duration. */
    method CopyTiming(video: InputVideoFrame) returns (fault: Option<Fault>)
      requires video.frameDuration >= 0
      modifies this`frameDuration, this`timecode
      ensures fault.None? <==> !(video.timecode.None? && video.frameDuration == 0)
      ensures fault.None? ==> frameDuration == video.frameDuration
      ensures fault.None? ==>
        timecode == (if video.timecode.Some? then video.timecode.value
                     else FromFlicks(video.frameDuration, video.streamTimestamp, false).value)
    {
      frameDuration := video.frameDuration;
      fault := None;
      if video.timecode.Some? {
        timecode := video.timecode.value;
      } else {
        var built := FromFlicks(video.frameDuration, video.streamTimestamp, false);
        if built.Failure? {
          return Some(built.error);
        }
        timecode := built.value;
      }
    }

    /** The video half of CopyFrom: the bytes go into the texture when they fit. */
    method CopyVideo(video: InputVideoFrame, memcpy: ThreadedMemcpy) returns (fault: Option<Fault>)
      requires memcpy.Valid() && texture != audio
      modifies texture
      ensures fault.None? <==> !(memcpy.disposed && texture.Length >= |video.data|)
      ensures fault.None? && texture.Length >= |video.data| ==> texture[..|video.data|] == video.data
      ensures texture.Length < |video.data| ==> texture[..] == old(texture[..])
    {
      fault := None;
      if texture.Length >= |video.data| {
        fault := memcpy.MemCpy(texture, Some(video.data), |video.data|);
      }
    }

    /** The audio half of CopyFrom: the sample description and length are recorded,
      * and the bytes go into the audio buffer when they fit. */
    method CopyAudio(audioFrame: Option<InputAudioFrame>, memcpy: ThreadedMemcpy) returns (fault: Option<Fault>)
      requires memcpy.Valid() && texture != audio
      modifies this`audioLength, this`audioSampleType, this`audioChannelCount, audio
      ensures fault.None? <==> !(memcpy.disposed && audioFrame.Some? && audio.Length >= |audioFrame.value.data|)
      ensures audioFrame.None? ==> audioLength == 0 && audio[..] == old(audio[..])
      ensures audioFrame.Some? ==>
        audioLength == |audioFrame.value.data| && audioSampleType == audioFrame.value.sampleType
        && audioChannelCount == audioFrame.value.channelCount
      ensures fault.None? && audioFrame.Some? && audio.Length >= |audioFrame.value.data| ==>
        audio[..|audioFrame.value.data|] == audioFrame.value.data
      ensures audioFrame.Some? && audio.Length < |audioFrame.value.data| ==> audio[..] == old(audio[..])
    {
      fault := None;
      if audioFrame.Some? {
        audioSampleType := audioFrame.value.sampleType;
        audioChannelCount := audioFrame.value.channelCount;
        audioLength := |audioFrame.value.data|;
        if audio.Length >= audioLength {
          fault := memcpy.MemCpy(audio, Some(audioFrame.value.data), audioLength);
        }
      } else {
        audioLength := 0;
      }
    }
  }
}
