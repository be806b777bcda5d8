/**
 * The streaming recognizer wrapper: a per-session cache of the model's
 * continuation state, the slot-wise choice between a cached state and the
 * model's initial state, the pad/truncate of each chunk to the frame size,
 * the sliding pre-encode cache, and the write-back after each batched step.
 * The neural network itself is an opaque function over a batch of slots.
 */
module Asr {
  import opened Base

  type Sample = real
  /** One time step of filter-bank features, one value per channel. */
  type Frame = seq<real>
  /** Tensor contents the model owns; this model never looks inside. */
  type Tensor = seq<real>

  datatype Hypothesis = Hypothesis(text: string)

  /** One entry of the decoder's `transcribed_texts`: a Hypothesis, or any other value. */
  datatype Transcribed = Hyp(hypothesis: Hypothesis) | NotHypothesis

  /** The part of a slot's state that the model consumes and returns. */
  datatype EncoderState = EncoderState(
    cacheLastChannel: Tensor,
    cacheLastTime: Tensor,
    cacheLastChannelLen: int,
    previousHypothesis: Option<Hypothesis>,
    predOutStream: Option<Tensor>)

  /** The six-entry record kept per session in `cached_states`. */
  datatype SessionState = SessionState(encoder: EncoderState, cachePreEncode: seq<Frame>)

  /** What the preprocessor returns for one chunk: the feature frames and their length. */
  datatype Features = Features(signal: seq<Frame>, length: int)

  /** One slot of a batched step: the signal with the pre-encode frames in front, its length, the encoder state. */
  datatype StepInput = StepInput(signal: seq<Frame>, length: int, encoder: EncoderState)

  datatype StepOutput = StepOutput(text: Transcribed, encoder: EncoderState)

  /**
   * One batched streaming step of the network: one output per input slot.
   * The witness is a step that echoes each slot's state and recognizes nothing.
   */
  type StreamStep = f: seq<StepInput> -> seq<StepOutput> | forall xs :: |f(xs)| == |xs|
    witness (xs: seq<StepInput>) => seq(|xs|, i requires 0 <= i < |xs| => StepOutput(NotHypothesis, xs[i].encoder))

  /**
   * The chunk fed to the preprocessor: the first `frames` samples of the
   * audio, zero-filled at the end when the audio is shorter.
   */
  function PadOrTruncate(audio: seq<Sample>, frames: nat): (r: seq<Sample>)
    ensures |r| == frames
    ensures forall i :: 0 <= i < frames && i < |audio| ==> r[i] == audio[i]
    ensures forall i :: |audio| <= i < frames ==> r[i] == 0.0
  {
    var padding := if frames - |audio| > 0 then frames - |audio| else 0;
    (audio + seq(padding, _ => 0.0))[..frames]
  }

  /**
   * `x[..., -p:]` along the time axis. As in Python, `-0:` selects the whole
   * axis, and so does a window longer than the sequence.
   */
  function LastFrames(s: seq<Frame>, p: nat): (r: seq<Frame>)
    ensures |r| <= |s| && s == s[..|s| - |r|] + r
    ensures 0 < p <= |s| ==> |r| == p
    ensures p == 0 || p >= |s| ==> r == s
  {
    if p == 0 || p >= |s| then s else s[|s| - p..]
  }

  /**
   * A pre-encode cache of p frames followed by new frames slides forward: the
   * new cache still holds p frames, ends with the newest frames, and keeps
   * the most recent of the old ones only when fewer than p frames arrived.
   */
  lemma PreEncodeWindow(cached: seq<Frame>, arrived: seq<Frame>, p: nat)
    requires 0 < p && |cached| == p
    ensures |LastFrames(cached + arrived, p)| == p
    ensures |arrived| <= p ==> LastFrames(cached + arrived, p) == cached[|arrived|..] + arrived
    ensures |arrived| >= p ==> LastFrames(cached + arrived, p) == arrived[|arrived| - p..]
  {
    var s := cached + arrived;
    assert s[|s| - p..] == s[|arrived|..];
    if |arrived| <= p {
      assert s[|arrived|..] == cached[|arrived|..] + arrived;
    } else {
      assert s[|arrived|..] == arrived[|arrived| - p..];
    }
  }

  /** p frames of `channels` zeros: the initial pre-encode cache of a slot. */
  function ZeroFrames(channels: nat, p: nat): (r: seq<Frame>)
  {
    seq(p, _ => seq(channels, _ => 0.0))
  }

  /**
   * The length handed to the model as asr.py computes it: the preprocessor's
   * length plus `cache_pre_encode.shape[1]`, which is the channel count.
   */
  function StreamLengthAsWritten(f: Features, numChannels: nat): int
  {
    f.length + numChannels
  }

  /** Whenever the channel count differs from the number of prepended frames, the length as written miscounts the signal. */
  lemma StreamLengthAsWrittenMiscounts(f: Features, preEncode: seq<Frame>, numChannels: nat)
    requires f.length == |f.signal| && numChannels != |preEncode|
    ensures StreamLengthAsWritten(f, numChannels) != |preEncode + f.signal|
  {
  }

  /** The length of the signal the model receives: the prepended pre-encode frames are counted. */
  function StreamLength(f: Features, preEncode: seq<Frame>): (r: int)
    ensures f.length == |f.signal| ==> r == |preEncode + f.signal|
  {
    f.length + |preEncode|
  }

  /**
   * The slots after the first k iterations of the loop that replaces dummy
   * slots by cached states: slot i holds the session's cached state when
   * there is one and the dummy slot otherwise.
   */
  function Selected(dummy: seq<SessionState>, cache: map<SessionId, SessionState>, messages: seq<Request>, k: nat)
    : (r: seq<SessionState>)
    requires k <= |messages| <= |dummy|
    ensures |r| == |dummy|
    ensures forall i :: 0 <= i < k ==>
      r[i] == if messages[i].sessionId in cache then cache[messages[i].sessionId] else dummy[i]
    ensures forall i :: k <= i < |dummy| ==> r[i] == dummy[i]
    decreases k
  {
    if k == 0 then dummy
    else
      var r := Selected(dummy, cache, messages, k - 1);
      var sid := messages[k - 1].sessionId;
      if sid in cache then r[k - 1 := cache[sid]] else r
  }

  /** The cache after the first k iterations of the write-back loop. */
  function WrittenBack(cache: map<SessionId, SessionState>, messages: seq<Request>, states: seq<SessionState>, k: nat)
    : map<SessionId, SessionState>
    requires k <= |messages| == |states|
    decreases k
  {
    if k == 0 then cache
    else WrittenBack(cache, messages, states, k - 1)[messages[k - 1].sessionId := states[k - 1]]
  }

  /** After k iterations of the write-back loop, every entry is an old one or the state of one of the first k slots. */
  lemma {:induction false} WrittenBackOrigin(cache: map<SessionId, SessionState>, messages: seq<Request>,
                                             states: seq<SessionState>, k: nat)
    requires k <= |messages| == |states|
    ensures var r := WrittenBack(cache, messages, states, k);
      forall s :: s in r ==>
        (s in cache && r[s] == cache[s]) || exists i :: 0 <= i < k && messages[i].sessionId == s && r[s] == states[i]
    decreases k
  {
    if k > 0 {
      WrittenBackOrigin(cache, messages, states, k - 1);
    }
  }

  /** The write-back keeps the entry of every session that has no slot among the first k. */
  lemma {:induction false} WrittenBackKeeps(cache: map<SessionId, SessionState>, messages: seq<Request>,
                                            states: seq<SessionState>, k: nat)
    requires k <= |messages| == |states|
    ensures var r := WrittenBack(cache, messages, states, k);
      forall s :: s in cache && (forall i :: 0 <= i < k ==> messages[i].sessionId != s) ==> s in r && r[s] == cache[s]
    decreases k
  {
    if k > 0 {
      WrittenBackKeeps(cache, messages, states, k - 1);
    }
  }

  /**
   * After k iterations, the session of each of the first k slots maps to that
   * slot's state, unless a later one of those slots belongs to the same session.
   */
  lemma {:induction false} WrittenBackSlot(cache: map<SessionId, SessionState>, messages: seq<Request>,
                                           states: seq<SessionState>, k: nat)
    requires k <= |messages| == |states|
    ensures var r := WrittenBack(cache, messages, states, k);
      forall i :: 0 <= i < k ==>
        && messages[i].sessionId in r
        && (r[messages[i].sessionId] == states[i] || exists j :: i < j < k && messages[j].sessionId == messages[i].sessionId)
    decreases k
  {
    if k > 0 {
      WrittenBackSlot(cache, messages, states, k - 1);
    }
  }

  /** `hyp.text if isinstance(hyp, Hypothesis) else ''`. */
  function TextOf(t: Transcribed): string
  {
    if t.Hyp? then t.hypothesis.text else ""
  }

  function Texts(outs: seq<StepOutput>): seq<string>
  {
    seq(|outs|, i requires 0 <= i < |outs| => TextOf(outs[i].text))
  }

  class ASR {
    /** Number of slots of the model's batched caches. */
    const bs: nat
    /** Samples per chunk (`chunk_size_frame`). */
    const chunkSizeFrame: nat
    const preEncodeCacheSize: nat
    const numChannels: nat
    /** The dummy cache: the model's initial state of each slot. */
    const initialSlots: seq<SessionState>
    /** Bytes to samples (int16 read and scaled to float). */
    const decode: Bytes -> seq<Sample>
    /** The audio preprocessor (feature extraction). */
    const featurize: seq<Sample> -> Features
    /** `conformer_stream_step`. */
    const step: StreamStep
    var cachedStates: map<SessionId, SessionState>

    predicate Valid()
    {
      |initialSlots| == bs
    }

    constructor (bs: nat, initialEncoder: seq<EncoderState>, numChannels: nat, preEncodeCacheSize: nat,
                 chunkSizeFrame: nat, decode: Bytes -> seq<Sample>, featurize: seq<Sample> -> Features,
                 step: StreamStep)
      requires |initialEncoder| == bs
      ensures Valid() && cachedStates == map[]
      ensures this.bs == bs && this.numChannels == numChannels && this.preEncodeCacheSize == preEncodeCacheSize
      ensures this.chunkSizeFrame == chunkSizeFrame
      ensures this.decode == decode && this.featurize == featurize && this.step == step
      ensures forall i :: 0 <= i < bs ==>
        initialSlots[i].encoder == initialEncoder[i].(previousHypothesis := None, predOutStream := None) &&
        initialSlots[i].cachePreEncode == ZeroFrames(numChannels, preEncodeCacheSize)
    {
      this.bs := bs;
      this.numChannels := numChannels;
      this.preEncodeCacheSize := preEncodeCacheSize;
      this.chunkSizeFrame := chunkSizeFrame;
      this.decode := decode;
      this.featurize := featurize;
      this.step := step;
      this.initialSlots := seq(bs, i requires 0 <= i < bs =>
        SessionState(initialEncoder[i].(previousHypothesis := None, predOutStream := None),
                     ZeroFrames(numChannels, preEncodeCacheSize)));
      this.cachedStates := map[];
    }

    /** Removes the listed sessions' states; absent ids are ignored and every other entry is kept. */
    method ClearCache(sessions: seq<SessionId>)
      modifies this
      ensures cachedStates == old(cachedStates) - (set s | s in sessions)
    {
      ghost var removed: set<SessionId> := {};
      for i := 0 to |sessions|
        invariant forall s :: s in removed <==> s in sessions[..i]
        invariant cachedStates == old(cachedStates) - removed
      {
        assert sessions[..i + 1] == sessions[..i] + [sessions[i]];
        if sessions[i] in cachedStates {
          cachedStates := cachedStates - {sessions[i]};
        }
        removed := removed + {sessions[i]};
      }
      assert sessions[..|sessions|] == sessions;
      assert removed == set s | s in sessions;
    }

    /** The first min(n, bs) slots of the initial state. */
    function GetDummyCache(n: nat): (r: seq<SessionState>)
      requires Valid()
      ensures |r| == if n < bs then n else bs
      ensures forall i :: 0 <= i < |r| ==> r[i] == initialSlots[i]
    {
      initialSlots[..if n < bs then n else bs]
    }

    /** `preprocess_audio`: pad or truncate the decoded chunk, then extract features. */
    function Preprocess(data: Bytes): Features
    {
      featurize(PadOrTruncate(decode(data), chunkSizeFrame))
    }

    /** The state each slot starts from. */
    function InputStates(cache: map<SessionId, SessionState>, messages: seq<Request>): (r: seq<SessionState>)
      requires Valid() && |messages| <= bs
      ensures |r| == |messages|
    {
      Selected(GetDummyCache(|messages|), cache, messages, |messages|)
    }

    /** The batched input: each slot's pre-encode frames followed by its chunk's features. */
    function Assemble(slots: seq<SessionState>, messages: seq<Request>): (r: seq<StepInput>)
      requires |slots| == |messages|
      ensures |r| == |messages|
      ensures forall i :: 0 <= i < |messages| ==>
        && r[i].encoder == slots[i].encoder
        && |slots[i].cachePreEncode| <= |r[i].signal|
        && r[i].signal[..|slots[i].cachePreEncode|] == slots[i].cachePreEncode
        && (Preprocess(messages[i].data).length == |Preprocess(messages[i].data).signal| ==> r[i].length == |r[i].signal|)
    {
      seq(|messages|, i requires 0 <= i < |messages| =>
        var f := Preprocess(messages[i].data);
        StepInput(slots[i].cachePreEncode + f.signal, StreamLength(f, slots[i].cachePreEncode), slots[i].encoder))
    }

    function StepInputs(cache: map<SessionId, SessionState>, messages: seq<Request>): (r: seq<StepInput>)
      requires Valid() && |messages| <= bs
      ensures |r| == |messages|
    {
      Assemble(InputStates(cache, messages), messages)
    }

    /** What is stored for one slot: the model's new state and the last frames of the slot's signal. */
    function SlotUpdate(input: StepInput, output: StepOutput): (r: SessionState)
      ensures r.encoder == output.encoder
      ensures 0 < preEncodeCacheSize <= |input.signal| ==>
        r.cachePreEncode == input.signal[|input.signal| - preEncodeCacheSize..]
      ensures preEncodeCacheSize == 0 || preEncodeCacheSize >= |input.signal| ==> r.cachePreEncode == input.signal
    {
      SessionState(output.encoder, LastFrames(input.signal, preEncodeCacheSize))
    }

    function NewStates(cache: map<SessionId, SessionState>, messages: seq<Request>): (r: seq<SessionState>)
      requires Valid() && |messages| <= bs
      ensures |r| == |messages|
    {
      var inputs := StepInputs(cache, messages);
      var outs := step(inputs);
      seq(|messages|, i requires 0 <= i < |messages| => SlotUpdate(inputs[i], outs[i]))
    }

    /** The texts `predict` returns. */
    function PredictTexts(cache: map<SessionId, SessionState>, messages: seq<Request>): (r: seq<string>)
      requires Valid() && |messages| <= bs
      ensures |r| == |messages|
    {
      Texts(step(StepInputs(cache, messages)))
    }

    /** The cache after `predict`. */
    function PredictCache(cache: map<SessionId, SessionState>, messages: seq<Request>): map<SessionId, SessionState>
      requires Valid() && |messages| <= bs
    {
      WrittenBack(cache, messages, NewStates(cache, messages), |messages|)
    }

    /**
     * One batched step over the messages, one slot each. The caller must not
     * pass more messages than the model has slots: the dummy cache has only
     * bs slots, and the batched tensors would not line up.
     */
    method Predict(messages: seq<Request>) returns (texts: seq<string>)
      requires Valid() && |messages| <= bs
      modifies this
      ensures |texts| == |messages|
      ensures texts == PredictTexts(old(cachedStates), messages)
      ensures cachedStates == PredictCache(old(cachedStates), messages)
    {
      var slots := SelectSlots(messages);
      var inputs := Assemble(slots, messages);
      var outs := step(inputs);
      var states := seq(|messages|, i requires 0 <= i < |messages| => SlotUpdate(inputs[i], outs[i]));
      assert states == NewStates(cachedStates, messages);
      WriteBack(messages, states);
      texts := Texts(outs);
    }

    /** The loop that starts from the dummy cache and puts each cached session state into its slot. */
    method SelectSlots(messages: seq<Request>) returns (slots: seq<SessionState>)
      requires Valid() && |messages| <= bs
      ensures slots == InputStates(cachedStates, messages)
    {
      slots := GetDummyCache(|messages|);
      for i := 0 to |messages|
        invariant slots == Selected(GetDummyCache(|messages|), cachedStates, messages, i)
      {
        var sid := messages[i].sessionId;
        if sid in cachedStates {
          slots := slots[i := cachedStates[sid]];
        }
      }
    }

    /** The loop that stores each slot's new state under the session of that slot. */
    method WriteBack(messages: seq<Request>, states: seq<SessionState>)
      requires |messages| == |states|
      modifies this
      ensures cachedStates == WrittenBack(old(cachedStates), messages, states, |messages|)
    {
      for i := 0 to |messages|
        invariant cachedStates == WrittenBack(old(cachedStates), messages, states, i)
      {
        cachedStates := cachedStates[messages[i].sessionId := states[i]];
      }
    }

    /**
     * One string per message: the hypothesis text of its slot, or the empty
     * string when the model's output for that slot is not a Hypothesis.
     */
    lemma PredictTextsAt(cache: map<SessionId, SessionState>, messages: seq<Request>, i: nat)
      requires Valid() && |messages| <= bs && i < |messages|
      ensures |PredictTexts(cache, messages)| == |messages|
      ensures var out := step(StepInputs(cache, messages))[i];
        PredictTexts(cache, messages)[i] == if out.text.Hyp? then out.text.hypothesis.text else ""
    {
    }

    /**
     * A session's next step starts from the state its previous step stored
     * for it, whatever slot it lands in and whichever sessions share the batch.
     */
    lemma StateContinuity(cache: map<SessionId, SessionState>, m1: seq<Request>, m2: seq<Request>, i: nat, j: nat)
      requires Valid() && |m1| <= bs && |m2| <= bs
      requires DistinctSessions(m1)
      requires i < |m1| && j < |m2| && m2[j].sessionId == m1[i].sessionId
      ensures InputStates(PredictCache(cache, m1), m2)[j] == NewStates(cache, m1)[i]
    {
      WrittenBackSlot(cache, m1, NewStates(cache, m1), |m1|);
    }

    /** A session with no cached state starts from the initial state of the slot it occupies. */
    lemma FreshSessionStartsFromInitialSlot(cache: map<SessionId, SessionState>, messages: seq<Request>, j: nat)
      requires Valid() && |messages| <= bs && j < |messages| && messages[j].sessionId !in cache
      ensures InputStates(cache, messages)[j] == initialSlots[j]
    {
    }

    /**
     * With a nonzero window, every stored pre-encode cache holds exactly
     * preEncodeCacheSize frames, and a step keeps it that way.
     */
    lemma PreEncodeSizeKept(cache: map<SessionId, SessionState>, messages: seq<Request>)
      requires Valid() && |messages| <= bs && preEncodeCacheSize > 0
      requires forall i :: 0 <= i < bs ==> |initialSlots[i].cachePreEncode| == preEncodeCacheSize
      requires forall s :: s in cache ==> |cache[s].cachePreEncode| == preEncodeCacheSize
      ensures forall s :: s in PredictCache(cache, messages) ==>
        |PredictCache(cache, messages)[s].cachePreEncode| == preEncodeCacheSize
    {
      NewStatesPreEncodeSize(cache, messages);
      WrittenBackOrigin(cache, messages, NewStates(cache, messages), |messages|);
    }

    lemma NewStatesPreEncodeSize(cache: map<SessionId, SessionState>, messages: seq<Request>)
      requires Valid() && |messages| <= bs && preEncodeCacheSize > 0
      requires forall i :: 0 <= i < bs ==> |initialSlots[i].cachePreEncode| == preEncodeCacheSize
      requires forall s :: s in cache ==> |cache[s].cachePreEncode| == preEncodeCacheSize
      ensures forall i :: 0 <= i < |messages| ==> |NewStates(cache, messages)[i].cachePreEncode| == preEncodeCacheSize
    {
      var slots := InputStates(cache, messages);
      var inputs := StepInputs(cache, messages);
      forall i | 0 <= i < |messages|
        ensures |NewStates(cache, messages)[i].cachePreEncode| == preEncodeCacheSize
      {
        assert |slots[i].cachePreEncode| == preEncodeCacheSize;
        assert inputs[i].signal == slots[i].cachePreEncode + Preprocess(messages[i].data).signal;
        assert NewStates(cache, messages)[i].cachePreEncode == LastFrames(inputs[i].signal, preEncodeCacheSize);
      }
    }
  }
}
