/** The search of a capture queue for the frame to show at a given time
  * (DeckLinkInputDeviceSynchronization.cs, TryGetSample). The queue is read oldest
  * first; each queued frame is known here by its timecode in flicks and its duration. */
module InputSynchronization {
  import opened Arithmetic
  import opened VideoSignals
  import opened BufferedFrames

  /** TimedSampleStatus. */
  datatype SampleStatus = Ok | DataMissing | Ahead | Behind

  /** A queued frame as the search sees it. */
  datatype Sample = Sample(flicks: int, frameDuration: int)

  /** The search's return value and out-parameters: the status, the position in the
    * queue of the frame handed back (-1 for none), and the time into that frame. */
  datatype SampleResult = SampleResult(status: SampleStatus, index: int, timeInFrame: int)

  /** The time is rounded to the nearest frame by adding half a frame; for interlaced
    * video the midpoint of the two fields is a quarter of a frame in. */
  function RoundingOffset(frameDuration: int, dominance: FieldDominance): (offset: int)
    ensures frameDuration >= 0 ==> 0 <= offset <= frameDuration / 2
    ensures IsInterlaced(dominance) ==> offset == TDiv(frameDuration, 4)
    ensures !IsInterlaced(dominance) ==> offset == TDiv(frameDuration, 2)
  {
    if IsInterlaced(dominance) then TDiv(frameDuration, 4) else TDiv(frameDuration, 2)
  }

  /** A frame the search passes over: the time lies at or after its end. */
  predicate Passed(s: Sample, time: int)
  {
    s.flicks <= time && s.frameDuration <= time - s.flicks
  }

  /** The loop of TryGetSample from position i on: Ahead at the first frame the time
    * lies before, Ok at the first frame that contains it, Behind with the newest frame
    * when the loop runs off the end. */
  function Scan(samples: seq<Sample>, i: int, time: int, frameDuration: int): (r: SampleResult)
    requires 0 < |samples| && 0 <= i <= |samples|
    ensures 0 <= r.index < |samples| && r.status != DataMissing
    decreases |samples| - i
  {
    if i == |samples| then SampleResult(Behind, |samples| - 1, frameDuration - 1)
    else
      var timeInFrame := time - samples[i].flicks;
      if timeInFrame < 0 then SampleResult(Ahead, i, 0)
      else if timeInFrame < samples[i].frameDuration then SampleResult(Ok, i, timeInFrame)
      else Scan(samples, i + 1, time, frameDuration)
  }

  /** What the scan from position i finds, when every frame before i was passed over:
    * every frame before the one handed back lies wholly before the time; Ahead means
    * the time is before that frame, Ok that the frame contains it, Behind that even
    * the newest frame lies before it. */
  lemma {:induction false} ScanFinds(samples: seq<Sample>, i: int, time: int, frameDuration: int)
    requires 0 < |samples| && 0 <= i <= |samples|
    requires forall j :: 0 <= j < i ==> Passed(samples[j], time)
    ensures var r := Scan(samples, i, time, frameDuration);
      (r.status != Behind ==> i <= r.index)
      && (forall j :: 0 <= j < r.index ==> Passed(samples[j], time))
      && (r.status == Ahead ==> r.timeInFrame == 0 && time < samples[r.index].flicks)
      && (r.status == Ok ==>
            r.timeInFrame == time - samples[r.index].flicks && 0 <= r.timeInFrame < samples[r.index].frameDuration)
      && (r.status == Behind ==>
            r.index == |samples| - 1 && Passed(samples[r.index], time) && r.timeInFrame == frameDuration - 1)
    decreases |samples| - i
  {
    if i < |samples| && !(time - samples[i].flicks < 0) && !(time - samples[i].flicks < samples[i].frameDuration) {
      ScanFinds(samples, i + 1, time, frameDuration);
    }
  }

  /** What TryGetSample finds: DataMissing, with no frame, exactly for an empty queue;
    * otherwise the scan from the oldest frame at the rounded time. */
  function SampleSearch(samples: seq<Sample>, time: int, frameDuration: int, dominance: FieldDominance): (r: SampleResult)
    ensures r.status == DataMissing <==> |samples| == 0
    ensures r.status == DataMissing ==> r.index == -1 && r.timeInFrame == 0
    ensures r.status != DataMissing ==> 0 <= r.index < |samples|
  {
    if |samples| <= 0 then SampleResult(DataMissing, -1, 0)
    else Scan(samples, 0, time + RoundingOffset(frameDuration, dominance), frameDuration)
  }

  /** Every frame before the one the search hands back lies wholly before the rounded
    * time; Ahead means the rounded time is before that frame and the time into it is 0,
    * Ok that the frame contains the rounded time, Behind that the newest frame lies
    * wholly before it, and the time into the frame is then its last flick. */
  lemma SampleSearchFinds(samples: seq<Sample>, time: int, frameDuration: int, dominance: FieldDominance)
    requires |samples| > 0
    ensures var r := SampleSearch(samples, time, frameDuration, dominance);
      var t := time + RoundingOffset(frameDuration, dominance);
      (forall j :: 0 <= j < r.index ==> Passed(samples[j], t))
      && (r.status == Ahead ==> r.timeInFrame == 0 && t < samples[r.index].flicks)
      && (r.status == Ok ==> r.timeInFrame == t - samples[r.index].flicks && 0 <= r.timeInFrame < samples[r.index].frameDuration)
      && (r.status == Behind ==> r.index == |samples| - 1 && Passed(samples[r.index], t) && r.timeInFrame == frameDuration - 1)
  {
    ScanFinds(samples, 0, time + RoundingOffset(frameDuration, dominance), frameDuration);
  }

  /** The queued frames as the search sees them. */
  function Samples(frames: seq<BufferedFrame>): (samples: seq<Sample>)
    reads set f | f in frames
    ensures |samples| == |frames|
    ensures forall i :: 0 <= i < |frames| ==> samples[i] == Sample(frames[i].timecode.flicks, frames[i].frameDuration)
  {
    if frames == [] then [] else [Sample(frames[0].timecode.flicks, frames[0].frameDuration)] + Samples(frames[1..])
  }

  /** TryGetSample: the loop over the queue, oldest frame first, hands back the frame
    * SampleSearch picks, or no frame for an empty queue. The queue is given by its
    * contents, as its indexer reads them. */
  method TryGetSample(queue: seq<BufferedFrame>, time: int, frameDuration: int, dominance: FieldDominance)
    returns (status: SampleStatus, sample: BufferedFrame?, timeInFrame: int)
    ensures var r := SampleSearch(Samples(queue), time, frameDuration, dominance);
      status == r.status && timeInFrame == r.timeInFrame
      && (r.status == DataMissing ==> sample == null)
      && (r.status != DataMissing ==> sample == queue[r.index])
  {
    sample, timeInFrame := null, 0;
    if |queue| <= 0 {
      return DataMissing, sample, timeInFrame;
    }
    var t := time + RoundingOffset(frameDuration, dominance);
    ghost var samples := Samples(queue);
    ghost var r := SampleSearch(samples, time, frameDuration, dominance);
    var i := 0;
    while i < |queue|
      invariant 0 <= i <= |queue|
      invariant Scan(samples, i, t, frameDuration) == r
      invariant i > 0 ==> sample == queue[i - 1]
    {
      sample := queue[i];
      timeInFrame := t - sample.timecode.flicks;
      if timeInFrame < 0 {
        return Ahead, sample, 0;
      }
      if timeInFrame < sample.frameDuration {
        return Ok, sample, timeInFrame;
      }
      i := i + 1;
    }
    return Behind, sample, frameDuration - 1;
  }

  /** Frames that follow one another without gaps, each starting where the previous one
    * ended, as a steady capture fills the queue. */
  predicate Contiguous(samples: seq<Sample>)
  {
    (forall j :: 0 <= j < |samples| ==> samples[j].frameDuration > 0)
    && (forall j :: 0 <= j < |samples| - 1 ==> samples[j + 1].flicks == samples[j].flicks + samples[j].frameDuration)
  }

  /** On a gapless queue the search finds the frame that covers the rounded time whenever
    * the queue covers it; a time before the oldest frame is Ahead of it, and one after
    * the newest frame is Behind. */
  lemma {:induction false} ContiguousSearch(samples: seq<Sample>, time: int, frameDuration: int, dominance: FieldDominance)
    requires |samples| > 0 && Contiguous(samples)
    ensures var t := time + RoundingOffset(frameDuration, dominance);
      var r := SampleSearch(samples, time, frameDuration, dominance);
      var last := samples[|samples| - 1];
      (t < samples[0].flicks <==> r.status == Ahead)
      && (samples[0].flicks <= t < last.flicks + last.frameDuration <==> r.status == Ok)
      && (last.flicks + last.frameDuration <= t <==> r.status == Behind)
  {
    var t := time + RoundingOffset(frameDuration, dominance);
    var r := SampleSearch(samples, time, frameDuration, dominance);
    var k, n := r.index, |samples| - 1;
    SampleSearchFinds(samples, time, frameDuration, dominance);
    StartsAscend(samples, 0, k);
    StartsAscend(samples, 0, n);
    if r.status == Ahead {
      if k > 0 {
        StartsAscend(samples, k - 1, k);
        assert false;
      }
    } else if r.status == Ok {
      if k < n {
        StartsAscend(samples, k, k + 1);
        StartsAscend(samples, k + 1, n);
      }
    }
  }

  /** On a gapless queue frames start in order, and frame k + 1 starts where frame k
    * ends. */
  lemma {:induction false} StartsAscend(samples: seq<Sample>, i: int, k: int)
    requires Contiguous(samples) && 0 <= i <= k < |samples|
    ensures samples[i].flicks <= samples[k].flicks
    ensures k == i + 1 ==> samples[k].flicks == samples[i].flicks + samples[i].frameDuration
  {
    if i < k {
      StartsAscend(samples, i, k - 1);
    }
  }
}
