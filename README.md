# Voice assistant pipeline core, modelled in Dafny

The system takes a recorded question, transcribes it with faster-whisper,
answers it with a llama.cpp chat model and speaks the answer with a Piper
voice. Its own logic is the glue around those three engines, and that glue
is what is modelled here:

- **Stt** (`src/stt/whisper_stt.py`): the device probe (`_detect_device`),
  the way `WhisperSTT.__init__` merges explicit `device`/`compute_type`
  arguments with detected ones using Python's `or`, and the transcript built
  by `" ".join(segment.text.strip() for segment in segments)`.
- **Llm** (`src/llm/llama_llm.py`): the model-path check, the two-message
  request that `chat` sends with temperature 0.7, and the reply taken from
  the first choice.
- **Tts** (`src/tts/piper_tts.py`): the model-path check, `synthesize`
  writing a mono 16-bit WAV file at the voice's rate chunk by chunk, and
  `synthesize_stream` passing the raw chunks on.
- **Ui** (`src/ui/app.py`): `VoiceAssistant`, which builds the three handles
  once and runs each request through them in order.

Supporting modules: **PyStrings** (Python's whitespace set, `str.strip` and
`str.join`), **FileSystem** (paths and what they hold, and
`tempfile.NamedTemporaryFile`), **Wave** (Python's `wave` writer: format
fields first, then frames, then close) and **Wrappers** (`Option`, `Result`).

The engines are parameters. Each loaded engine is a function value. It maps
a request and the number of requests that handle has served so far to the
engine's answer. The count stands for the engine's hidden state (caches,
sampler position), so nothing assumes two equal requests get equal answers.
Each handle keeps that count in a field, `calls`. The orchestrator's
contract uses it to show that every stage runs exactly once, and that a
`None` request runs none.

The file system is a map from paths to contents. A model file "exists" when
its path is in the map. The torch probe is a value passed in:
`TorchMissing` or `TorchPresent(cudaAvailable)`. Python exceptions that the
code itself can raise become `Result.Failure`. These are a missing model
file (`FileNotFoundError`) and a completion without choices (the
`IndexError` of `response["choices"][0]`).

The code tests only `audio_path is None`, so an empty string goes on to
transcription. The model follows the code.

Ordering in `Process` shows in the data. The chat request carries the
transcript that the transcriber returned, and the synthesized file is built
from the reply the chat model returned. When the chat fails, no temporary
file is created and the voice is not called.

## Model

| member | source | states |
|---|---|---|
| `PyStrings.Strip` | src/stt/whisper_stt.py:72 | `str.strip()`: never longer than its input, and the result has no whitespace at either end |
| `PyStrings.StripLeftSpec` | src/stt/whisper_stt.py:72 | left stripping keeps a suffix, everything dropped before it is whitespace, and what is kept does not begin with whitespace |
| `PyStrings.StripRightSpec` | src/stt/whisper_stt.py:72 | right stripping keeps a prefix, everything dropped after it is whitespace, and what is kept does not end with whitespace |
| `PyStrings.StripSpec` | src/stt/whisper_stt.py:72 | `strip()` is a slice of the text with only whitespace on either side, and it neither begins nor ends with whitespace |
| `PyStrings.StripUnique` | src/stt/whisper_stt.py:72 | any slice that is surrounded by whitespace only and has no whitespace at its ends is the stripped text |
| `PyStrings.StripIdempotent` | src/stt/whisper_stt.py:72 | stripping a stripped text changes nothing |
| `PyStrings.StripEmptyIff` | src/stt/whisper_stt.py:72 | a text strips to "" exactly when it is all whitespace |
| `PyStrings.StripNotAllSpace` | src/stt/whisper_stt.py:72 | a text with some non-whitespace strips to a non-empty text with none at either end |
| `PyStrings.Join` | src/stt/whisper_stt.py:72 | joining no parts gives ""; otherwise the result is as long as all parts plus one separator between each neighbouring pair |
| `PyStrings.JoinPieceAt` | src/stt/whisper_stt.py:72 | each part appears unchanged at its offset (the earlier parts plus one separator each), followed by the separator unless it is last |
| `PyStrings.JoinEnds` | src/stt/whisper_stt.py:72 | the joined text begins with the first part and ends with the last |
| `PyStrings.JoinSnoc` | src/stt/whisper_stt.py:72 | joining one more part appends one separator and that part |
| `Stt.DetectDevice` | src/stt/whisper_stt.py:9-17 | ("cuda", "float16") exactly when torch imports and reports CUDA; ("cpu", "float32") otherwise, torch missing included; no other profile |
| `Stt.Or` | src/stt/whisper_stt.py:39-40 | Python's `a or b`: the argument when it is neither None nor "", the fallback otherwise |
| `Stt.ResolveOptions` | src/stt/whisper_stt.py:37-43 | the probe runs exactly when an argument is None; then falsy arguments (None or "") take the detected value and truthy ones are kept; with both given both are kept, even "" |
| `Stt.ResolvedOrigin` | src/stt/whisper_stt.py:37-40 | a resolved option is "" only when the caller passed "" and also passed the other option; an omitted option is always a detected value; omitting both gives exactly the detected profile |
| `Stt.Pieces` | src/stt/whisper_stt.py:72 | one piece per segment |
| `Stt.PiecesAt` | src/stt/whisper_stt.py:72 | the i-th piece is the i-th segment's stripped text, so order and repeats are kept |
| `Stt.Transcript` | src/stt/whisper_stt.py:72 | the joined transcript: "" for no segments, otherwise as long as the stripped texts plus one space between each neighbouring pair |
| `Stt.TranscriptShort` | src/stt/whisper_stt.py:72 | no segments give ""; one segment gives its stripped text |
| `Stt.TranscriptLayout` | src/stt/whisper_stt.py:72 | the transcript holds every stripped segment text at its offset in decoding order, one space after each but the last, so k segments give k-1 separators |
| `Stt.EmptyPiece` | src/stt/whisper_stt.py:72 | a segment adds an empty piece exactly when its text is all whitespace |
| `Stt.TranscriptTrimmed` | src/stt/whisper_stt.py:72 | when the first and last segments are not all whitespace, the transcript has no whitespace at either end |
| `Stt.TranscriptSnoc` | src/stt/whisper_stt.py:72 | one more segment appends a space and its stripped text |
| `Stt.WhisperStt.constructor` | src/stt/whisper_stt.py:23-48 | the stored device and compute type are the resolved ones, and the model is loaded with the model size and exactly those two values |
| `Stt.WhisperStt.Transcribe` | src/stt/whisper_stt.py:50-73 | one decoding request with the given path and language and beam size 5; the text is the transcript of the segments it yields |
| `Llm.BuildRequest` | src/llm/llama_llm.py:39-48 | exactly two messages, "system" with the prompt then "user" with the message, both verbatim; the token limit passed through; temperature 0.7 |
| `Llm.BuildRequestIff` | src/llm/llama_llm.py:39-42 | a request is the one built for a prompt, message and limit exactly when it reads back as that single turn: no history is ever added |
| `Llm.FirstChoiceContent` | src/llm/llama_llm.py:50 | the reply is the first choice's content verbatim; it fails exactly when there is no choice |
| `Llm.LlamaLlm.constructor` | src/llm/llama_llm.py:21-30 | the handle keeps the model path, the engine settings and the engine |
| `Llm.LlamaLlm.Load` | src/llm/llama_llm.py:15-30 | fails with the path exactly when the model file is missing, before any engine is built; otherwise the engine is built from path, context size and layer count with logging off |
| `Llm.LlamaLlm.Chat` | src/llm/llama_llm.py:32-50 | one completion of the built request; the result is its first choice's content |
| `Tts.ChunkBytes` | src/tts/piper_tts.py:58-59 | the frame bytes written: the chunks' sample bytes in emission order, as many bytes as all chunks hold together |
| `Tts.ChunkBytesAppend` | src/tts/piper_tts.py:58-59 | the bytes of two successive runs of chunks are the bytes of the first run followed by those of the second; no chunk gives no bytes |
| `Tts.ChunkBytesAt` | src/tts/piper_tts.py:58-59 | every chunk's bytes appear unchanged right after the bytes of the chunks emitted before it |
| `Tts.PiperTts.constructor` | src/tts/piper_tts.py:29-33 | the handle keeps the model path, the CUDA setting and the loaded voice |
| `Tts.PiperTts.Load` | src/tts/piper_tts.py:17-33 | fails with the path exactly when the model file is missing, before any voice is loaded; otherwise the voice is loaded from that path with that CUDA setting |
| `Tts.PiperTts.SampleRate` | src/tts/piper_tts.py:35-38 | exactly the loaded voice's configured sample rate |
| `Tts.PiperTts.Synthesize` | src/tts/piper_tts.py:40-61 | returns the caller's path; the file there becomes a WAV file with 1 channel, 2-byte samples and the voice's configured rate, holding every chunk's bytes in emission order |
| `Tts.PiperTts.SynthesizeStream` | src/tts/piper_tts.py:63-74 | yields exactly the voice's raw chunks, in order, nothing added, dropped or changed |
| `Wave.WaveWriter.Open` | src/tts/piper_tts.py:53 | opening for writing creates or truncates the file; no format field is set and no frame is written |
| `Wave.WaveWriter.SetChannels` | src/tts/piper_tts.py:54 | sets the channel count; allowed only before any frame byte is written |
| `Wave.WaveWriter.SetSampleWidth` | src/tts/piper_tts.py:55 | sets the sample width; allowed only before any frame byte is written |
| `Wave.WaveWriter.SetFrameRate` | src/tts/piper_tts.py:56 | sets the frame rate; allowed only before any frame byte is written |
| `Wave.WaveWriter.WriteFrames` | src/tts/piper_tts.py:59 | appends the bytes to the frames; allowed only once the format is set |
| `Wave.WaveWriter.Close` | src/tts/piper_tts.py:53-59 | the file becomes a WAV file with the header set and the frames written |
| `FileSystem.Disk.Exists` | src/llm/llama_llm.py:22 | `Path.exists()`: true exactly for the paths the disk holds (the same check guards the voice file at src/tts/piper_tts.py:30) |
| `FileSystem.Disk.CreateTemp` | src/ui/app.py:48-49 | creates one new empty file whose name was not in use and ends with the suffix; every other path is unchanged |
| `Ui.VoiceAssistant.constructor` | src/ui/app.py:18-26 | the assistant keeps the three handles it is given |
| `Ui.VoiceAssistant.Create` | src/ui/app.py:18-26 | builds the transcriber with every default, then the chat model, then the voice on the CPU, each once; a missing chat model file is reported before the voice file is checked |
| `Ui.VoiceAssistant.Process` | src/ui/app.py:28-52 | None gives ("", "", None) and calls no stage; otherwise one transcription, then one chat on the transcript unchanged with the default prompt and limit, then one new temporary ".wav" file holding the synthesis of the reply unchanged; returns (transcript, reply, that path); a failed chat propagates |

## Left out

- The engines' internals (recognition, generation, synthesis numerics) are modelled only as function values, as described above.
- Failures inside the engines are not modelled. These include an unreadable audio file, a decoder crash, a generation error and a voice error mid-stream. So are the partly written files such a failure leaves behind.
- Laziness is not modelled. The segment and chunk generators are finite sequences taken whole, and single-pass iteration is not captured.
- `Tts.PiperTts.Synthesize`: frames reach the disk when the writer closes rather than call by call. The byte layout of the RIFF container, including its frame count, is abstracted to a header record plus frame bytes.
- The voice's sample rate is typed as positive. Python's `wave` would raise for a rate of 0, and that case is not modelled.
- `FileSystem.Disk.CreateTemp`: `tempfile` draws random names and gives up after `tempfile.TMP_MAX` attempts. The model tries a fixed series of candidate names until one is unused, and that limit is not modelled.
- Paths are compared as plain strings. `pathlib.Path` normalisation is not modelled. The default model paths are written relative to the repository root.
- Fields that no code reads are left out: segment timings, the decoder's `info`, the other fields of Piper's audio chunks, and completion response fields other than the choices. A response whose message has no content is not modelled either.
- A `WhisperModel` that rejects its device or compute type is not modelled.
- Console output in `VoiceAssistant.__init__`, `create_app` and `main` (Gradio layout, server launch, TLS files), the `test_*` helpers, `src/main.py` and `src/run_ssl.py` are I/O and user interface with no logic to state.
- No audio resampling, downmixing or length law is modelled, because no such code exists in these files.
- Concurrency is not modelled. The handles are used by one request at a time.
