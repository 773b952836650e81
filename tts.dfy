/**
  The synthesis wrapper (`src/tts/piper_tts.py`): loading a Piper voice,
  writing its audio to a mono 16-bit WAV file, and passing its raw stream
  through. The voice itself is a value supplied at load time.
 */
module Tts {
  import opened Wrappers
  import opened FileSystem
  import opened Wave

  type pos = n: nat | n > 0 witness 1

  /** The voice configuration; only its sample rate is read. */
  datatype VoiceConfig = VoiceConfig(sampleRate: pos)

  /** One chunk of `PiperVoice.synthesize`; only its 16-bit sample bytes are read. */
  datatype AudioChunk = AudioChunk(audioInt16Bytes: seq<byte>)

  /**
    A loaded Piper voice: its configuration, and the chunks of the `n`-th
    synthesis it serves for a text, from `synthesize` and from
    `synthesize_stream_raw`.
   */
  datatype PiperVoice = PiperVoice(
    config: VoiceConfig,
    synthesize: (string, nat) -> seq<AudioChunk>,
    synthesizeStreamRaw: (string, nat) -> seq<seq<byte>>)

  const DefaultModelPath := "models/piper/en_US-lessac-medium.onnx"

  /** The WAV format `synthesize` always writes: one channel of 2-byte samples at the voice's rate. */
  function OutputHeader(rate: pos): WavHeader {
    WavHeader(1, 2, rate)
  }

  /** The number of sample bytes in all of `chunks`. */
  function ByteCount(chunks: seq<AudioChunk>): nat {
    if chunks == [] then 0
    else ByteCount(chunks[..|chunks| - 1]) + |chunks[|chunks| - 1].audioInt16Bytes|
  }

  /** The chunks' sample bytes, concatenated in emission order: as long as all chunks together. */
  function ChunkBytes(chunks: seq<AudioChunk>): (r: seq<byte>)
    ensures |r| == ByteCount(chunks)
  {
    if chunks == [] then []
    else ChunkBytes(chunks[..|chunks| - 1]) + chunks[|chunks| - 1].audioInt16Bytes
  }

  /** The bytes of two successive runs of chunks are the bytes of the first run followed by those of the second; no chunk gives no bytes. */
  lemma {:induction false} ChunkBytesAppend(a: seq<AudioChunk>, b: seq<AudioChunk>)
    ensures ChunkBytes(a + b) == ChunkBytes(a) + ChunkBytes(b)
    ensures ChunkBytes([]) == []
    decreases |b|
  {
    if b != [] {
      var b' := b[..|b| - 1];
      assert (a + b)[..|a + b| - 1] == a + b';
      ChunkBytesAppend(a, b');
    } else {
      assert a + b == a;
    }
  }

  /**
    Every chunk's bytes appear in the output unchanged, right after the bytes
    of the chunks emitted before it.
   */
  lemma ChunkBytesAt(chunks: seq<AudioChunk>, i: nat)
    requires i < |chunks|
    ensures var out, start, c := ChunkBytes(chunks), |ChunkBytes(chunks[..i])|, chunks[i].audioInt16Bytes;
      start + |c| <= |out| && out[start..start + |c|] == c
  {
    assert chunks == chunks[..i] + [chunks[i]] + chunks[i + 1..];
    ChunkBytesAppend(chunks[..i] + [chunks[i]], chunks[i + 1..]);
    ChunkBytesAppend(chunks[..i], [chunks[i]]);
    assert ChunkBytes([chunks[i]]) == chunks[i].audioInt16Bytes by {
      assert [chunks[i]][..0] == [];
    }
  }

  /** The `PiperTTS` wrapper: where the voice came from and the voice. */
  class PiperTts {
    const modelPath: string
    const useCuda: bool
    const voice: PiperVoice
    /** The number of syntheses served so far. */
    var calls: nat

    constructor(modelPath: string, useCuda: bool, voice: PiperVoice)
      ensures this.modelPath == modelPath && this.useCuda == useCuda && this.voice == voice
      ensures calls == 0
    {
      this.modelPath := modelPath;
      this.useCuda := useCuda;
      this.voice := voice;
      calls := 0;
    }

    /**
      `PiperTTS(model_path, use_cuda)`: a missing model file raises before
      any voice is loaded; otherwise the voice is loaded from that path with
      that CUDA setting.
     */
    static method Load(modelPath: string, useCuda: bool, disk: Disk, load: (string, bool) -> PiperVoice)
      returns (r: Result<PiperTts, LoadError>)
      ensures r.Failure? <==> !disk.Exists(modelPath)
      ensures r.Failure? ==> r.error == ModelNotFound(modelPath)
      ensures r.Success? ==>
        && fresh(r.value)
        && r.value.modelPath == modelPath && r.value.useCuda == useCuda
        && r.value.voice == load(modelPath, useCuda)
        && r.value.calls == 0
    {
      if !disk.Exists(modelPath) {
        return Failure(ModelNotFound(modelPath));
      }
      var tts := new PiperTts(modelPath, useCuda, load(modelPath, useCuda));
      r := Success(tts);
    }

    /** The `sample_rate` property: the loaded voice's configured rate. */
    function SampleRate(): (r: pos)
      ensures r == voice.config.sampleRate
    {
      voice.config.sampleRate
    }

    /** The file the `n`-th synthesis of `text` leaves behind. */
    function WaveAt(text: string, n: nat): FileData {
      Wave(OutputHeader(voice.config.sampleRate), ChunkBytes(voice.synthesize(text, n)))
    }

    /**
      `synthesize(text, output_path)`: opens a WAV file at the path, sets one
      channel, 2-byte samples and the voice's rate before any frame is
      written, appends each chunk's bytes in emission order, closes it and
      returns the same path.
     */
    method Synthesize(text: string, outputPath: string, disk: Disk) returns (path: string)
      modifies this, disk
      ensures path == outputPath
      ensures calls == old(calls) + 1
      ensures disk.files == old(disk.files)[outputPath :=
        Wave(WavHeader(1, 2, voice.config.sampleRate), ChunkBytes(voice.synthesize(text, old(calls))))]
    {
      path := outputPath;
      var writer := new WaveWriter.Open(path, disk);
      writer.SetChannels(1);
      writer.SetSampleWidth(2);
      writer.SetFrameRate(SampleRate());
      var chunks := voice.synthesize(text, calls);
      calls := calls + 1;
      for i := 0 to |chunks|
        invariant writer.frames == ChunkBytes(chunks[..i])
        invariant writer.Header() == OutputHeader(voice.config.sampleRate)
        invariant disk.files == old(disk.files)[outputPath := Bytes([])]
        invariant calls == old(calls) + 1
      {
        writer.WriteFrames(chunks[i].audioInt16Bytes);
        assert chunks[..i + 1][..i] == chunks[..i];
      }
      assert chunks[..|chunks|] == chunks;
      writer.Close();
    }

    /** `synthesize_stream(text)`: every raw chunk of the voice's stream, passed on unchanged and in order. */
    method SynthesizeStream(text: string) returns (chunks: seq<seq<byte>>)
      modifies this
      ensures calls == old(calls) + 1
      ensures chunks == voice.synthesizeStreamRaw(text, old(calls))
    {
      var raw := voice.synthesizeStreamRaw(text, calls);
      calls := calls + 1;
      chunks := [];
      for i := 0 to |raw|
        invariant chunks == raw[..i]
      {
        chunks := chunks + [raw[i]];
      }
      assert raw[..|raw|] == raw;
    }
  }
}
