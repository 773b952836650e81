/**
  The orchestrator (`src/ui/app.py`, `VoiceAssistant`): three handles built
  once, and a request that runs speech to text, then the chat model, then
  speech synthesis into a fresh temporary WAV file.
 */
module Ui {
  import opened Wrappers
  import opened FileSystem
  import Stt
  import Llm
  import Tts

  /** What `process` returns: the transcript, the reply text and the reply audio path. */
  datatype Reply = Reply(transcript: string, responseText: string, outputPath: Option<string>)

  class VoiceAssistant {
    const stt: Stt.WhisperStt
    const llm: Llm.LlamaLlm
    const tts: Tts.PiperTts

    constructor(stt: Stt.WhisperStt, llm: Llm.LlamaLlm, tts: Tts.PiperTts)
      ensures this.stt == stt && this.llm == llm && this.tts == tts
    {
      this.stt := stt;
      this.llm := llm;
      this.tts := tts;
    }

    /**
      `VoiceAssistant()`: builds the transcriber with every default (model
      "base", device and compute type detected), the chat model from its
      default path, and the voice from its default path on the CPU. A
      missing chat model raises before the voice is looked for.
     */
    static method Create(disk: Disk, probe: Stt.TorchProbe,
                         whisper: Stt.WhisperConfig -> Stt.Decoder,
                         llama: Llm.LlamaConfig -> Llm.Completer,
                         piper: (string, bool) -> Tts.PiperVoice)
      returns (r: Result<VoiceAssistant, LoadError>)
      ensures r.Failure? <==> !disk.Exists(Llm.DefaultModelPath) || !disk.Exists(Tts.DefaultModelPath)
      ensures r.Failure? ==>
        r.error == ModelNotFound(if !disk.Exists(Llm.DefaultModelPath) then Llm.DefaultModelPath else Tts.DefaultModelPath)
      ensures r.Success? ==>
        && fresh(r.value) && fresh(r.value.stt) && fresh(r.value.llm) && fresh(r.value.tts)
        && r.value.stt.Valid()
        && r.value.stt.modelSize == Stt.DefaultModelSize
        && Stt.Profile(r.value.stt.device, r.value.stt.computeType) == Stt.DetectDevice(probe)
        && r.value.stt.decode == whisper(r.value.stt.config)
        && r.value.llm.config == Llm.LlamaConfig(Llm.DefaultModelPath, Llm.DefaultContextSize, Llm.DefaultGpuLayers, false)
        && r.value.llm.complete == llama(r.value.llm.config)
        && r.value.tts.modelPath == Tts.DefaultModelPath && !r.value.tts.useCuda
        && r.value.tts.voice == piper(Tts.DefaultModelPath, false)
        && r.value.stt.calls == 0 && r.value.llm.calls == 0 && r.value.tts.calls == 0
    {
      var stt := new Stt.WhisperStt(Stt.DefaultModelSize, None, None, probe, whisper);
      var llm := Llm.LlamaLlm.Load(Llm.DefaultModelPath, Llm.DefaultContextSize, Llm.DefaultGpuLayers, disk, llama);
      if llm.Failure? {
        return Failure(llm.error);
      }
      var tts := Tts.PiperTts.Load(Tts.DefaultModelPath, false, disk, piper);
      if tts.Failure? {
        return Failure(tts.error);
      }
      var assistant := new VoiceAssistant(stt, llm.value, tts.value);
      r := Success(assistant);
    }

    /**
      `process(audio_path)`. `None` returns `("", "", None)` and touches
      nothing. Any other path, "" included, is transcribed in English; the
      transcript, unchanged, goes to the chat model with the default prompt
      and token limit; a failed chat propagates before anything else happens;
      otherwise one new temporary ".wav" file is created, the reply,
      unchanged, is synthesized into it, and the file is left in place.
     */
    method Process(audioPath: Option<string>, disk: Disk) returns (r: Result<Reply, Llm.ChatError>)
      modifies stt, llm, tts, disk
      ensures audioPath.None? ==>
        && r == Success(Reply("", "", None))
        && stt.calls == old(stt.calls) && llm.calls == old(llm.calls) && tts.calls == old(tts.calls)
        && disk.files == old(disk.files)
      ensures audioPath.Some? ==>
        var transcript := stt.TranscriptAt(audioPath.value, Stt.DefaultLanguage, old(stt.calls));
        var reply := llm.ReplyAt(transcript, Llm.DefaultSystemPrompt, Llm.DefaultMaxTokens, old(llm.calls));
        && stt.calls == old(stt.calls) + 1
        && llm.calls == old(llm.calls) + 1
        && (reply.Failure? ==>
              && r == Failure(reply.error)
              && tts.calls == old(tts.calls) && disk.files == old(disk.files))
        && (reply.Success? ==>
              && r.Success?
              && r.value.transcript == transcript
              && r.value.responseText == reply.value
              && r.value.outputPath.Some?
              && r.value.outputPath.value !in old(disk.files)
              && HasSuffix(r.value.outputPath.value, ".wav")
              && tts.calls == old(tts.calls) + 1
              && disk.files == old(disk.files)[r.value.outputPath.value := tts.WaveAt(reply.value, old(tts.calls))])
    {
      if audioPath.None? {
        return Success(Reply("", "", None));
      }
      var transcript := stt.Transcribe(audioPath.value, Stt.DefaultLanguage);
      var response := llm.Chat(transcript, Llm.DefaultSystemPrompt, Llm.DefaultMaxTokens);
      if response.Failure? {
        return Failure(response.error);
      }
      var outputPath := disk.CreateTemp(".wav");
      var _ := tts.Synthesize(response.value, outputPath, disk);
      r := Success(Reply(transcript, response.value, Some(outputPath)));
    }
  }
}
