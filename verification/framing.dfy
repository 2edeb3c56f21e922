/** The PCM framing of `AudioProcessor.process` in `renderer/audio-processor.js`:
    the samples of each render quantum are copied into a 2400-sample buffer
    (100 ms at 24 kHz), and every full buffer is posted as one 'audio' frame. */
module Framing {

  const BufferSize := 2400

  /** The float samples are opaque here; their PCM16 conversion is not modelled. */
  type Sample = real

  /** The processor's `buffer[0..bufferIndex)`: samples copied but not yet posted. */
  datatype Processor = Processor(pending: seq<Sample>)

  const Initial := Processor([])

  ghost predicate Valid(p: Processor) {
    |p.pending| < BufferSize
  }

  /** The messages posted on the worklet port, in order. */
  datatype Message = Level | Audio(frame: seq<Sample>)

  function Flatten(frames: seq<seq<Sample>>): seq<Sample> {
    if |frames| == 0 then [] else frames[0] + Flatten(frames[1..])
  }

  function AsMessages(frames: seq<seq<Sample>>): (ms: seq<Message>)
    ensures |ms| == |frames|
    ensures forall k :: 0 <= k < |ms| ==> ms[k] == Audio(frames[k])
  {
    if |frames| == 0 then [] else [Audio(frames[0])] + AsMessages(frames[1..])
  }

  /** `process(inputs)`: `input` is `inputs[0]`, a list of channels; only the
      first channel is framed. Returns the new state, the posted messages and
      the keep-alive flag. */
  method Process(p: Processor, input: seq<seq<Sample>>) returns (r: Processor, posted: seq<Message>, keepAlive: bool)
    requires Valid(p)
    ensures keepAlive
    ensures Valid(r)
    ensures |input| == 0 ==> r == p && posted == []
    ensures |input| > 0 ==>
      exists frames: seq<seq<Sample>> ::
        posted == [Level] + AsMessages(frames) &&
        (forall k :: 0 <= k < |frames| ==> |frames[k]| == BufferSize) &&
        Flatten(frames) + r.pending == p.pending + input[0]
  {
    keepAlive := true;
    if |input| == 0 {
      return p, [], true;
    }
    var channel := input[0];
    var buf := p.pending;
    var frames: seq<seq<Sample>> := [];
    var i := 0;
    while i < |channel|
      invariant 0 <= i <= |channel|
      invariant |buf| < BufferSize
      invariant forall k :: 0 <= k < |frames| ==> |frames[k]| == BufferSize
      invariant Flatten(frames) + buf == p.pending + channel[..i]
    {
      assert channel[..i + 1] == channel[..i] + [channel[i]];
      assert Flatten(frames) + (buf + [channel[i]]) == (Flatten(frames) + buf) + [channel[i]];
      buf := buf + [channel[i]];
      if |buf| >= BufferSize {
        FlattenSnoc(frames, buf);
        assert Flatten(frames + [buf]) + [] == Flatten(frames) + buf;
        frames := frames + [buf];
        buf := [];
      }
      i := i + 1;
    }
    assert channel[..|channel|] == channel;
    r := Processor(buf);
    posted := [Level] + AsMessages(frames);
  }

  lemma {:induction false} FlattenSnoc(frames: seq<seq<Sample>>, f: seq<Sample>)
    ensures Flatten(frames + [f]) == Flatten(frames) + f
    decreases |frames|
  {
    if |frames| == 0 {
      assert frames + [f] == [f];
      assert Flatten([f]) == f + Flatten([]);
    } else {
      assert (frames + [f])[1..] == frames[1..] + [f];
      FlattenSnoc(frames[1..], f);
    }
  }
}
