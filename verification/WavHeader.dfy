/** The header of a sound file (fill_wav_header of spfs_fuse_audiofile.c), and a reader of such
    headers that knows their layout but not how they were made. */
module WavHeader {
  import opened Audio
  import opened CStrings

  /** A number as unsigned little-endian bytes, cut off to the width of the field. */
  function LittleEndian(n: nat, width: nat): (b: seq<byte>)
    ensures |b| == width
    decreases width
  {
    if width == 0 then [] else [(n % 256) as byte] + LittleEndian(n / 256, width - 1)
  }

  function Number(b: seq<byte>): nat {
    if b == [] then 0 else b[0] as nat + 256 * Number(b[1..])
  }

  function Power256(k: nat): (p: nat)
    ensures p > 0
  {
    if k == 0 then 1 else 256 * Power256(k - 1)
  }

  lemma {:induction false} NumberOfLittleEndian(n: nat, width: nat)
    requires n < Power256(width)
    ensures Number(LittleEndian(n, width)) == n
    decreases width
  {
    if width == 0 {
    } else {
      NumberOfLittleEndian(n / 256, width - 1);
    }
  }

  function Total(widths: seq<nat>): nat {
    if widths == [] then 0 else widths[0] + Total(widths[1..])
  }

  /** Numbers one after the other as they lie in a packed structure. */
  function Laid(values: seq<nat>, widths: seq<nat>): (b: seq<byte>)
    requires |values| == |widths|
    ensures |b| == Total(widths)
  {
    if values == [] then [] else LittleEndian(values[0], widths[0]) + Laid(values[1..], widths[1..])
  }

  function ReadBack(b: seq<byte>, widths: seq<nat>): seq<nat>
    requires |b| == Total(widths)
  {
    if widths == [] then [] else [Number(b[..widths[0]])] + ReadBack(b[widths[0]..], widths[1..])
  }

  /** Every number that fits into its field can be read back. */
  lemma {:induction false} FieldsReadBack(values: seq<nat>, widths: seq<nat>)
    requires |values| == |widths| && forall i :: 0 <= i < |values| ==> values[i] < Power256(widths[i])
    ensures ReadBack(Laid(values, widths), widths) == values
  {
    if values == [] {
    } else {
      var b := Laid(values, widths);
      NumberOfLittleEndian(values[0], widths[0]);
      assert b[..widths[0]] == LittleEndian(values[0], widths[0]);
      assert b[widths[0]..] == Laid(values[1..], widths[1..]);
      FieldsReadBack(values[1..], widths[1..]);
    }
  }

  const HEADER: nat := 44
  const BITS: nat := 16
  /** "RIFF", "WAVE", "fmt " and "data" as little-endian numbers. */
  const RIFF: nat := 0x4646_4952
  const WAVE: nat := 0x4556_4157
  const FMT: nat := 0x2074_6d66
  const DATA: nat := 0x6174_6164
  const PCM: nat := 1
  /** The widths of the fields of struct wav_header. */
  const WIDTHS: seq<nat> := [4, 4, 4, 4, 4, 2, 2, 4, 4, 2, 2, 4, 4]

  function FileSize(channels: nat, rate: nat, duration: nat): nat {
    HEADER + duration / 1000 * channels * BITS * rate / 8 - 8
  }

  /** The fields that fill_wav_header fills in. */
  function HeaderFields(channels: nat, rate: nat, duration: nat): (h: seq<nat>)
    ensures |h| == |WIDTHS|
  {
    var size := FileSize(channels, rate, duration);
    [RIFF, size, WAVE, FMT, 16, PCM, channels, rate, rate * BITS * channels / 8, BITS * channels / 8, BITS, DATA,
     (size - 44) % 0x1_0000_0000]
  }

  function Header(channels: nat, rate: nat, duration: nat): (h: seq<byte>)
    ensures |h| == HEADER
  {
    Laid(HeaderFields(channels, rate, duration), WIDTHS)
  }

  /** Each field lies where the widths of the ones before it say. */
  lemma {:induction false} FieldAt(values: seq<nat>, widths: seq<nat>, i: nat, at: nat)
    requires |values| == |widths| && i < |widths| && at == Total(widths[..i])
    ensures at + widths[i] <= Total(widths)
    ensures Laid(values, widths)[at..at + widths[i]] == LittleEndian(values[i], widths[i])
  {
    var b, first := Laid(values, widths), widths[0];
    if i == 0 {
    } else {
      assert widths[..i][1..] == widths[1..][..i - 1];
      FieldAt(values[1..], widths[1..], i - 1, at - first);
      assert b[first..] == Laid(values[1..], widths[1..]);
      assert b[at..at + widths[i]] == b[first..][at - first..at - first + widths[i]];
    }
  }

  // ---------------------------------------------------------------- reading a header

  /** The four characters at this place. */
  predicate TagAt(b: seq<byte>, at: nat, tag: string)
    requires at + 4 <= |b| && |tag| == 4
  {
    forall i :: 0 <= i < 4 ==> b[at + i] as int == tag[i] as int
  }

  /** The unsigned little-endian numbers of two and of four bytes at this place. */
  function Short(b: seq<byte>, at: nat): nat
    requires at + 2 <= |b|
  {
    b[at] as nat + 0x100 * b[at + 1] as nat
  }

  function Long(b: seq<byte>, at: nat): nat
    requires at + 4 <= |b|
  {
    Short(b, at) + 0x1_0000 * Short(b, at + 2)
  }

  /** What a player learns from a header. */
  datatype Wave = Wave(riffSize: nat, formatSize: nat, formatType: nat, channels: nat, sampleRate: nat,
                       byteRate: nat, blockAlign: nat, bitsPerSample: nat, dataSize: nat)

  /** A file of the RIFF format with its one format block and its data, in their usual places. */
  function ReadWave(b: seq<byte>): (w: Option<Wave>)
  {
    if |b| >= 44 && TagAt(b, 0, "RIFF") && TagAt(b, 8, "WAVE") && TagAt(b, 12, "fmt ") && TagAt(b, 36, "data") then
      Some(Wave(Long(b, 4), Long(b, 16), Short(b, 20), Short(b, 22), Long(b, 24),
                Long(b, 28), Short(b, 32), Short(b, 34), Long(b, 40)))
    else None
  }

  lemma ShortAt(b: seq<byte>, at: nat, n: nat)
    requires at + 2 <= |b| && b[at..at + 2] == LittleEndian(n, 2) && n < 0x1_0000
    ensures Short(b, at) == n
  {
    var field := LittleEndian(n, 2);
    assert b[at] == field[0] && b[at + 1] == field[1];
  }

  lemma LongAt(b: seq<byte>, at: nat, n: nat)
    requires at + 4 <= |b| && b[at..at + 4] == LittleEndian(n, 4) && n < 0x1_0000_0000
    ensures Long(b, at) == n
  {
    var field := b[at..at + 4];
    LongField(n);
    assert forall i :: 0 <= i < 4 ==> b[at + i] == field[i];
  }

  lemma LongField(n: nat)
    requires n < 0x1_0000_0000
    ensures Long(LittleEndian(n, 4), 0) == n
  {
  }

  lemma TagFieldAt(b: seq<byte>, at: nat, n: nat, tag: string)
    requires at + 4 <= |b| && b[at..at + 4] == LittleEndian(n, 4) && |tag| == 4
    requires TagAt(LittleEndian(n, 4), 0, tag)
    ensures TagAt(b, at, tag)
  {
    var field := LittleEndian(n, 4);
    assert forall i :: 0 <= i < 4 ==> b[at + i] == b[at..at + 4][i] == field[i];
  }

  lemma TagNumbers()
    ensures TagAt(LittleEndian(RIFF, 4), 0, "RIFF") && TagAt(LittleEndian(WAVE, 4), 0, "WAVE")
    ensures TagAt(LittleEndian(FMT, 4), 0, "fmt ") && TagAt(LittleEndian(DATA, 4), 0, "data")
  {
  }

  lemma {:induction false} TotalSnoc(widths: seq<nat>, i: nat)
    requires i < |widths|
    ensures Total(widths[..i + 1]) == Total(widths[..i]) + widths[i]
  {
    if i == 0 {
      assert widths[..1][1..] == [];
    } else {
      assert widths[..i + 1][1..] == widths[1..][..i] && widths[..i][1..] == widths[1..][..i - 1];
      TotalSnoc(widths[1..], i - 1);
    }
  }

  /** Where the fields lie. */
  const OFFSETS: seq<nat> := [0, 4, 8, 12, 16, 20, 22, 24, 28, 32, 34, 36, 40]

  lemma {:induction false} OffsetOf(i: nat)
    requires i < |WIDTHS|
    ensures Total(WIDTHS[..i]) == OFFSETS[i]
  {
    if i == 0 {
    } else {
      OffsetOf(i - 1);
      TotalSnoc(WIDTHS, i - 1);
    }
  }

  /** The widths are laid out at these places, each number fits, and all is as long as a header. */
  ghost predicate LaidOut(fields: seq<nat>, widths: seq<nat>, offsets: seq<nat>) {
    && |fields| == |widths| == |offsets| && Total(widths) == 44
    && (forall i :: 0 <= i < |widths| ==> offsets[i] == Total(widths[..i]))
    && forall i :: 0 <= i < |widths| ==> fields[i] < if widths[i] == 4 then 0x1_0000_0000 else 0x1_0000
  }

  lemma TagOf(fields: seq<nat>, widths: seq<nat>, offsets: seq<nat>, i: nat, tag: string)
    requires LaidOut(fields, widths, offsets) && i < |widths| && widths[i] == 4
    requires |tag| == 4 && TagAt(LittleEndian(fields[i], 4), 0, tag)
    ensures offsets[i] + 4 <= 44 && TagAt(Laid(fields, widths), offsets[i], tag)
  {
    FieldAt(fields, widths, i, offsets[i]);
    TagFieldAt(Laid(fields, widths), offsets[i], fields[i], tag);
  }

  lemma LongOf(fields: seq<nat>, widths: seq<nat>, offsets: seq<nat>, i: nat)
    requires LaidOut(fields, widths, offsets) && i < |widths| && widths[i] == 4
    ensures offsets[i] + 4 <= 44 && Long(Laid(fields, widths), offsets[i]) == fields[i]
  {
    FieldAt(fields, widths, i, offsets[i]);
    LongAt(Laid(fields, widths), offsets[i], fields[i]);
  }

  lemma ShortOf(fields: seq<nat>, widths: seq<nat>, offsets: seq<nat>, i: nat)
    requires LaidOut(fields, widths, offsets) && i < |widths| && widths[i] == 2
    ensures offsets[i] + 2 <= 44 && Short(Laid(fields, widths), offsets[i]) == fields[i]
  {
    FieldAt(fields, widths, i, offsets[i]);
    ShortAt(Laid(fields, widths), offsets[i], fields[i]);
  }

  lemma TagsRead(fields: seq<nat>, widths: seq<nat>, offsets: seq<nat>)
    requires LaidOut(fields, widths, offsets) && |widths| == 13
    requires widths[0] == widths[2] == widths[3] == widths[11] == 4
    requires offsets[0] == 0 && offsets[2] == 8 && offsets[3] == 12 && offsets[11] == 36
    requires fields[0] == RIFF && fields[2] == WAVE && fields[3] == FMT && fields[11] == DATA
    ensures var h := Laid(fields, widths);
      TagAt(h, 0, "RIFF") && TagAt(h, 8, "WAVE") && TagAt(h, 12, "fmt ") && TagAt(h, 36, "data")
  {
    TagNumbers();
    TagOf(fields, widths, offsets, 0, "RIFF");
    TagOf(fields, widths, offsets, 2, "WAVE");
    TagOf(fields, widths, offsets, 3, "fmt ");
    TagOf(fields, widths, offsets, 11, "data");
  }

  lemma LongsRead(fields: seq<nat>, widths: seq<nat>, offsets: seq<nat>)
    requires LaidOut(fields, widths, offsets) && |widths| == 13
    requires widths[1] == widths[4] == widths[7] == widths[8] == widths[12] == 4
    requires offsets[1] == 4 && offsets[4] == 16 && offsets[7] == 24 && offsets[8] == 28 && offsets[12] == 40
    ensures var h := Laid(fields, widths);
      && Long(h, 4) == fields[1] && Long(h, 16) == fields[4] && Long(h, 24) == fields[7]
      && Long(h, 28) == fields[8] && Long(h, 40) == fields[12]
  {
    LongOf(fields, widths, offsets, 1);
    LongOf(fields, widths, offsets, 4);
    LongOf(fields, widths, offsets, 7);
    LongOf(fields, widths, offsets, 8);
    LongOf(fields, widths, offsets, 12);
  }

  lemma ShortsRead(fields: seq<nat>, widths: seq<nat>, offsets: seq<nat>)
    requires LaidOut(fields, widths, offsets) && |widths| == 13
    requires widths[5] == widths[6] == widths[9] == widths[10] == 2
    requires offsets[5] == 20 && offsets[6] == 22 && offsets[9] == 32 && offsets[10] == 34
    ensures var h := Laid(fields, widths);
      && Short(h, 20) == fields[5] && Short(h, 22) == fields[6]
      && Short(h, 32) == fields[9] && Short(h, 34) == fields[10]
  {
    ShortOf(fields, widths, offsets, 5);
    ShortOf(fields, widths, offsets, 6);
    ShortOf(fields, widths, offsets, 9);
    ShortOf(fields, widths, offsets, 10);
  }

  /** The fields that tell something. */
  function WaveOf(fields: seq<nat>): Wave
    requires |fields| == 13
  {
    Wave(fields[1], fields[4], fields[5], fields[6], fields[7], fields[8], fields[9], fields[10], fields[12])
  }

  lemma WaveRead(fields: seq<nat>, widths: seq<nat>, offsets: seq<nat>)
    requires LaidOut(fields, widths, offsets) && widths == WIDTHS && offsets == OFFSETS
    requires fields[0] == RIFF && fields[2] == WAVE && fields[3] == FMT && fields[11] == DATA
    ensures ReadWave(Laid(fields, widths)) == Some(WaveOf(fields))
  {
    TagsRead(fields, widths, offsets);
    LongsRead(fields, widths, offsets);
    ShortsRead(fields, widths, offsets);
  }

  /** The bytes of audio of a whole number of seconds. */
  function SecondsOfAudio(channels: nat, rate: nat, duration: nat): nat {
    duration / 1000 * (rate * FrameSize(channels))
  }

  /** The numbers of the header fit into their fields. */
  ghost predicate Fits(channels: nat, rate: nat, duration: nat) {
    && FrameSize(channels) < 0x1_0000 && rate < 0x1_0000_0000 && rate * FrameSize(channels) < 0x1_0000_0000
    && SecondsOfAudio(channels, rate, duration) + 36 < 0x1_0000_0000
  }

  lemma Products(channels: nat, rate: nat, duration: nat)
    ensures rate * BITS * channels / 8 == rate * FrameSize(channels)
    ensures BITS * channels / 8 == FrameSize(channels)
    ensures FileSize(channels, rate, duration) == SecondsOfAudio(channels, rate, duration) + 36
  {
    var seconds := duration / 1000;
    assert rate * BITS * channels == 8 * (rate * FrameSize(channels));
    assert seconds * channels * BITS * rate == 8 * (seconds * (rate * FrameSize(channels)));
  }

  lemma FieldsFit(channels: nat, rate: nat, duration: nat)
    requires Fits(channels, rate, duration)
    ensures var fields := HeaderFields(channels, rate, duration);
      forall i :: 0 <= i < |WIDTHS| ==> fields[i] < if WIDTHS[i] == 4 then 0x1_0000_0000 else 0x1_0000
  {
    Products(channels, rate, duration);
  }

  lemma WidthsLaidOut(fields: seq<nat>) returns (widths: seq<nat>, offsets: seq<nat>)
    requires |fields| == |WIDTHS|
    requires forall i :: 0 <= i < |WIDTHS| ==> fields[i] < if WIDTHS[i] == 4 then 0x1_0000_0000 else 0x1_0000
    ensures widths == WIDTHS && offsets == OFFSETS && LaidOut(fields, widths, offsets)
  {
    widths, offsets := WIDTHS, OFFSETS;
    forall i | 0 <= i < |widths|
      ensures offsets[i] == Total(widths[..i])
    {
      OffsetOf(i);
    }
    TotalSnoc(widths, 12);
    assert widths[..13] == widths;
  }

  /** What the header of a sound file should say: PCM of sixteen bits in this format, frames of
      two bytes for each channel, and as many bytes a second as that many frames have. The size of
      the data is eight bytes short of the seconds of audio that the size of the file is made of. */
  function Announced(channels: nat, rate: nat, duration: nat): Wave {
    var audio, frame := SecondsOfAudio(channels, rate, duration), 2 * channels;
    Wave(audio + 36, 16, 1, channels, rate, rate * frame, frame, 16, (audio - 8) % 0x1_0000_0000)
  }

  lemma FieldsAnnounce(channels: nat, rate: nat, duration: nat) returns (fields: seq<nat>)
    requires Fits(channels, rate, duration)
    ensures fields == HeaderFields(channels, rate, duration) && WaveOf(fields) == Announced(channels, rate, duration)
    ensures fields[0] == RIFF && fields[2] == WAVE && fields[3] == FMT && fields[11] == DATA
    ensures forall i :: 0 <= i < |WIDTHS| ==> fields[i] < if WIDTHS[i] == 4 then 0x1_0000_0000 else 0x1_0000
  {
    fields := HeaderFields(channels, rate, duration);
    FieldsFit(channels, rate, duration);
    Products(channels, rate, duration);
  }

  /** A player learns just this from the header, if the numbers fit their fields. */
  lemma HeaderAnnounces(channels: nat, rate: nat, duration: nat)
    requires Fits(channels, rate, duration)
    ensures ReadWave(Header(channels, rate, duration)) == Some(Announced(channels, rate, duration))
  {
    var fields := FieldsAnnounce(channels, rate, duration);
    var widths, offsets := WidthsLaidOut(fields);
    WaveRead(fields, widths, offsets);
  }
}
