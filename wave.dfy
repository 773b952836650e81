/**
  Python's `wave` module opened for writing (`wave.open(path, "wb")`):
  the format fields must be set before the first frame bytes are written,
  and closing the writer leaves a WAV file at the path.
 */
module Wave {
  import opened FileSystem

  class WaveWriter {
    const disk: Disk
    const path: string
    /** 0 while the field has not been set. */
    var channels: nat
    var sampleWidth: nat
    var frameRate: nat
    /** The frame bytes written so far. */
    var frames: seq<byte>

    /** `wave.open(path, "wb")`: the file is created, or truncated, at once. */
    constructor Open(path: string, disk: Disk)
      modifies disk
      ensures this.path == path && this.disk == disk
      ensures channels == 0 && sampleWidth == 0 && frameRate == 0 && frames == []
      ensures disk.files == old(disk.files)[path := Bytes([])]
    {
      this.path := path;
      this.disk := disk;
      channels, sampleWidth, frameRate, frames := 0, 0, 0, [];
      disk.files := disk.files[path := Bytes([])];
    }

    /** All three format fields have been set, so frames may be written. */
    predicate FormatSet()
      reads this
    {
      channels > 0 && sampleWidth > 0 && frameRate > 0
    }

    /** The header the file carries once closed. */
    function Header(): (h: WavHeader)
      reads this
    {
      WavHeader(channels, sampleWidth, frameRate)
    }

    /** `setnchannels(n)`: rejected once frame bytes have been written, and for `n < 1`. */
    method SetChannels(n: nat)
      requires frames == [] && n >= 1
      modifies this
      ensures channels == n
      ensures sampleWidth == old(sampleWidth) && frameRate == old(frameRate) && frames == old(frames)
    {
      channels := n;
    }

    /** `setsampwidth(w)`: rejected once frame bytes have been written, and outside 1..4. */
    method SetSampleWidth(w: nat)
      requires frames == [] && 1 <= w <= 4
      modifies this
      ensures sampleWidth == w
      ensures channels == old(channels) && frameRate == old(frameRate) && frames == old(frames)
    {
      sampleWidth := w;
    }

    /** `setframerate(r)`: rejected once frame bytes have been written, and for `r <= 0`. */
    method SetFrameRate(r: nat)
      requires frames == [] && r > 0
      modifies this
      ensures frameRate == r
      ensures channels == old(channels) && sampleWidth == old(sampleWidth) && frames == old(frames)
    {
      frameRate := r;
    }

    /** `writeframes(data)`: appends `data`; the format must be set first. */
    method WriteFrames(data: seq<byte>)
      requires FormatSet()
      modifies this
      ensures frames == old(frames) + data
      ensures channels == old(channels) && sampleWidth == old(sampleWidth) && frameRate == old(frameRate)
    {
      frames := frames + data;
    }

    /** `close()`: the file at `path` becomes a WAV file with this header and these frames. */
    method Close()
      requires FormatSet()
      modifies disk
      ensures disk.files == old(disk.files)[path := Wave(Header(), frames)]
    {
      disk.files := disk.files[path := Wave(Header(), frames)];
    }
  }
}
