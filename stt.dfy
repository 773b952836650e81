/**
  Speech to text (`src/stt/whisper_stt.py`): choosing the device and
  numeric precision, and joining the decoder's segments into a transcript.
  The faster-whisper model itself is a function value supplied at load time.
 */
module Stt {
  import opened Wrappers
  import opened PyStrings

  /** A device and compute type, the two strings faster-whisper is configured with. */
  datatype Profile = Profile(device: string, computeType: string)

  const CudaProfile := Profile("cuda", "float16")
  const CpuProfile := Profile("cpu", "float32")

  /** What probing for torch finds: no torch to import, or torch and whether CUDA is available. */
  datatype TorchProbe = TorchMissing | TorchPresent(cudaAvailable: bool)

  /**
    `_detect_device()`: CUDA with half precision exactly when torch imports
    and reports CUDA; the CPU with single precision otherwise, also when
    torch is missing. No third profile is ever chosen.
   */
  function DetectDevice(probe: TorchProbe): (p: Profile)
    ensures p == CudaProfile <==> probe == TorchPresent(true)
    ensures p == CudaProfile || p == CpuProfile
  {
    if probe == TorchPresent(true) then CudaProfile else CpuProfile
  }

  /** Python truthiness of a `str | None`: neither `None` nor `""`. */
  predicate Truthy(s: Option<string>) {
    s.Some? && s.value != ""
  }

  /** Python's `a or b` for a `str | None` and a `str`: `a` when it is truthy, `b` otherwise. */
  function Or(a: Option<string>, b: string): (r: string)
    ensures Truthy(a) ==> r == a.value
    ensures !Truthy(a) ==> r == b
  {
    if Truthy(a) then a.value else b
  }

  /** The options stored on the transcriber, and whether the device probe ran. */
  datatype Resolution = Resolution(device: string, computeType: string, probed: bool)

  /**
    The option handling of `WhisperSTT.__init__`. The probe runs only when
    an argument is `None`; then every falsy argument (`None` or `""`) takes
    the detected value and every other argument is kept. When both are given
    they are kept as they are, even `""`.
   */
  function ResolveOptions(device: Option<string>, computeType: Option<string>, probe: TorchProbe): (r: Resolution)
    ensures r.probed <==> device.None? || computeType.None?
    ensures !r.probed ==> r.device == device.value && r.computeType == computeType.value
    ensures r.probed && Truthy(device) ==> r.device == device.value
    ensures r.probed && !Truthy(device) ==> r.device == DetectDevice(probe).device
    ensures r.probed && Truthy(computeType) ==> r.computeType == computeType.value
    ensures r.probed && !Truthy(computeType) ==> r.computeType == DetectDevice(probe).computeType
  {
    if device.None? || computeType.None? then
      var auto := DetectDevice(probe);
      Resolution(Or(device, auto.device), Or(computeType, auto.computeType), true)
    else
      Resolution(device.value, computeType.value, false)
  }

  /**
    A resolved option is always either an argument the caller gave, or a
    value of one of the two detected profiles; and it is empty only when the
    caller gave "" while also giving the other option.
   */
  lemma ResolvedOrigin(device: Option<string>, computeType: Option<string>, probe: TorchProbe)
    ensures var r := ResolveOptions(device, computeType, probe);
      && (r.device == "" <==> device == Some("") && computeType.Some?)
      && (r.computeType == "" <==> computeType == Some("") && device.Some?)
      && (device.None? ==> r.device in {"cuda", "cpu"})
      && (computeType.None? ==> r.computeType in {"float16", "float32"})
      && (device.None? && computeType.None? ==> Profile(r.device, r.computeType) == DetectDevice(probe))
  {
  }

  /** The arguments faster-whisper's `WhisperModel` is constructed with. */
  datatype WhisperConfig = WhisperConfig(modelSize: string, device: string, computeType: string)

  /** The arguments of one `WhisperModel.transcribe` call. */
  datatype DecodeRequest = DecodeRequest(audioPath: string, language: string, beamSize: nat)

  /** One decoded segment; only its text is used here. */
  datatype Segment = Segment(text: string)

  /**
    A loaded model: the segments of the `n`-th transcription it serves for a
    request (the count stands for whatever state the engine keeps).
   */
  type Decoder = (DecodeRequest, nat) -> seq<Segment>

  const DefaultModelSize := "base"
  const DefaultLanguage := "en"
  const BeamSize := 5

  /** The segment texts, each stripped, in decoding order. */
  function Pieces(segments: seq<Segment>): (r: seq<string>)
    ensures |r| == |segments|
  {
    if segments == [] then [] else [Strip(segments[0].text)] + Pieces(segments[1..])
  }

  /** The `i`-th piece is the `i`-th segment's text, stripped: order and multiplicity are kept. */
  lemma {:induction false} PiecesAt(segments: seq<Segment>, i: nat)
    requires i < |segments|
    ensures Pieces(segments)[i] == Strip(segments[i].text)
  {
    if i > 0 {
      PiecesAt(segments[1..], i - 1);
    }
  }

  /**
    `" ".join(segment.text.strip() for segment in segments)`: "" for no
    segments, otherwise the stripped texts plus one space between each
    neighbouring pair.
   */
  function Transcript(segments: seq<Segment>): (r: string)
    ensures segments == [] ==> r == ""
    ensures segments != [] ==> |r| == TotalLength(Pieces(segments)) + |segments| - 1
  {
    Join(" ", Pieces(segments))
  }

  /** No segments (silence) give the empty transcript, and one segment gives its stripped text. */
  lemma TranscriptShort(segments: seq<Segment>)
    ensures segments == [] ==> Transcript(segments) == ""
    ensures |segments| == 1 ==> Transcript(segments) == Strip(segments[0].text)
  {
  }

  /** Where the `i`-th stripped segment text starts in the transcript. */
  function SegmentOffset(segments: seq<Segment>, i: nat): nat
    requires i <= |segments|
  {
    PieceOffset(" ", Pieces(segments), i)
  }

  /**
    The transcript is the stripped segment texts in decoding order, each one
    present even when empty and none removed as a duplicate, with a single
    space after each but the last: `k` segments give `k - 1` separators.
   */
  lemma TranscriptLayout(segments: seq<Segment>, i: nat)
    requires i < |segments|
    ensures |Transcript(segments)| == TotalLength(Pieces(segments)) + |segments| - 1
    ensures SegmentOffset(segments, i) + |Strip(segments[i].text)| <= |Transcript(segments)|
    ensures Transcript(segments)[SegmentOffset(segments, i)..SegmentOffset(segments, i) + |Strip(segments[i].text)|]
         == Strip(segments[i].text)
    ensures i + 1 < |segments| ==>
      SegmentOffset(segments, i) + |Strip(segments[i].text)| < |Transcript(segments)| &&
      Transcript(segments)[SegmentOffset(segments, i) + |Strip(segments[i].text)|] == ' '
  {
    var ps := Pieces(segments);
    var t := Join(" ", ps);
    assert Transcript(segments) == t;
    var o := PieceOffset(" ", ps, i);
    assert SegmentOffset(segments, i) == o;
    JoinPieceAt(" ", ps, i);
    PiecesAt(segments, i);
    if i + 1 < |segments| {
      assert t[o + |ps[i]|..o + |ps[i]| + 1] == " ";
    }
  }

  /** A whitespace-only segment adds an empty piece, and only such a segment does. */
  lemma EmptyPiece(segment: Segment)
    ensures Pieces([segment]) == [""] <==> AllSpace(segment.text)
  {
    PiecesAt([segment], 0);
    StripEmptyIff(segment.text);
  }

  /**
    The transcript has no whitespace at either end when the first and last
    segments have something besides whitespace.
   */
  lemma TranscriptTrimmed(segments: seq<Segment>)
    requires segments != []
    requires !AllSpace(segments[0].text) && !AllSpace(segments[|segments| - 1].text)
    ensures var t := Transcript(segments); t != [] && !IsSpace(t[0]) && !IsSpace(t[|t| - 1])
  {
    var n := |segments|;
    var ps := Pieces(segments);
    var t := Join(" ", ps);
    PiecesAt(segments, 0);
    PiecesAt(segments, n - 1);
    StripNotAllSpace(segments[0].text);
    StripNotAllSpace(segments[n - 1].text);
    JoinEnds(" ", ps);
    var first, last := ps[0], ps[n - 1];
    assert t[0] == t[..|first|][0] == first[0];
    assert t[|t| - 1] == t[|t| - |last|..][|last| - 1] == last[|last| - 1];
  }

  /** A further segment adds a space and its stripped text to the end of the transcript. */
  lemma TranscriptSnoc(segments: seq<Segment>, next: Segment)
    requires segments != []
    ensures Transcript(segments + [next]) == Transcript(segments) + " " + Strip(next.text)
  {
    var ps, ps' := Pieces(segments), Pieces(segments + [next]);
    forall k | 0 <= k < |ps'|
      ensures ps'[k] == (ps + [Strip(next.text)])[k]
    {
      PiecesAt(segments + [next], k);
      if k < |segments| {
        PiecesAt(segments, k);
      }
    }
    assert ps' == ps + [Strip(next.text)];
    JoinSnoc(" ", Pieces(segments), Strip(next.text));
  }

  /** The `WhisperSTT` wrapper: its resolved options and the model loaded with them. */
  class WhisperStt {
    const modelSize: string
    const device: string
    const computeType: string
    const config: WhisperConfig
    const decode: Decoder
    /** The number of transcriptions served so far. */
    var calls: nat

    /** The model was loaded with exactly the stored options. */
    ghost predicate Valid() {
      config == WhisperConfig(modelSize, device, computeType)
    }

    /**
      `WhisperSTT(model_size, device, compute_type)`, with `probe` the result
      of probing for CUDA and `load` the `WhisperModel` constructor.
     */
    constructor(modelSize: string, device: Option<string>, computeType: Option<string>,
                probe: TorchProbe, load: WhisperConfig -> Decoder)
      ensures Valid()
      ensures this.modelSize == modelSize
      ensures this.device == ResolveOptions(device, computeType, probe).device
      ensures this.computeType == ResolveOptions(device, computeType, probe).computeType
      ensures this.decode == load(config)
      ensures calls == 0
    {
      var r := ResolveOptions(device, computeType, probe);
      this.modelSize := modelSize;
      this.device := r.device;
      this.computeType := r.computeType;
      this.config := WhisperConfig(modelSize, r.device, r.computeType);
      this.decode := load(WhisperConfig(modelSize, r.device, r.computeType));
      calls := 0;
    }

    /** The transcript the `n`-th call of `transcribe(audioPath, language)` returns. */
    function TranscriptAt(audioPath: string, language: string, n: nat): string {
      Transcript(decode(DecodeRequest(audioPath, language, BeamSize), n))
    }

    /**
      `transcribe(audio_path, language)`: one decoding request with beam size
      5 and the given language; the segments it yields become the transcript.
     */
    method Transcribe(audioPath: string, language: string) returns (text: string)
      modifies this
      ensures calls == old(calls) + 1
      ensures text == Transcript(decode(DecodeRequest(audioPath, language, BeamSize), old(calls)))
    {
      var segments := decode(DecodeRequest(audioPath, language, BeamSize), calls);
      calls := calls + 1;
      text := Transcript(segments);
    }
  }
}
