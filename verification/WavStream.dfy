/**
  The upload stream of src/openai_transcription_client.cpp, which serves a WAV
  header and the PCM bytes behind it in pieces, and the header itself
  (`pcm_wav_header` of src/transcription.cpp).
 */
module WavStream {

  import opened LittleEndian
  import opened Wrappers

  // ------------------------------------------------------------ the header

  const MAX32 := 0xFFFF_FFFF

  /** The casts to the width of the field wrap. */
  function Field(n: nat, v: nat): (bytes: seq<Byte>)
    ensures |bytes| == n
  {
    Bytes(n, v % Power(n))
  }

  const RIFF: seq<Byte> := [0x52, 0x49, 0x46, 0x46]
  const WAVE: seq<Byte> := [0x57, 0x41, 0x56, 0x45]
  const FMT: seq<Byte> := [0x66, 0x6D, 0x74, 0x20]
  const DATA: seq<Byte> := [0x64, 0x61, 0x74, 0x61]

  predicate Representable(pcm: nat, rate: nat, channels: nat, bits: nat) {
    && 0 < pcm <= MAX32 && rate != 0 && channels != 0 && bits == 16
    && pcm % (channels * 2) == 0
    && rate * channels * bits / 8 <= MAX32
  }

  function RiffPart(pcm: nat): (part: seq<Byte>)
    ensures |part| == 12
  {
    RIFF + Field(4, pcm + 36) + WAVE
  }

  function FormatPart(rate: nat, channels: nat, bits: nat): (part: seq<Byte>)
    ensures |part| == 24
  {
    FMT + Field(4, 16) + Field(2, 1) + Field(2, channels) + Field(4, rate) + Field(4, rate * channels * bits / 8)
    + Field(2, channels * bits / 8) + Field(2, bits)
  }

  function DataPart(pcm: nat): (part: seq<Byte>)
    ensures |part| == 8
  {
    DATA + Field(4, pcm)
  }

  /** None stands for invalid_argument. */
  function PcmWavHeader(pcm: nat, rate: nat, channels: nat, bits: nat): (header: Option<seq<Byte>>)
    ensures header.Some? ==> |header.value| == 44
  {
    if !Representable(pcm, rate, channels, bits) then None
    else Some(RiffPart(pcm) + FormatPart(rate, channels, bits) + DataPart(pcm))
  }

  /** What a reader of the canonical 44-byte WAV header finds in it. */
  datatype Wav = Wav(riffSize: nat, channels: nat, rate: nat, byteRate: nat, blockAlign: nat, bits: nat, dataSize: nat)

  function ReadHeader(h: seq<Byte>): Option<Wav> {
    if |h| != 44 || h[..4] != RIFF || h[8..12] != WAVE || h[12..16] != FMT || h[36..40] != DATA
       || Value(h[16..20]) != 16 || Value(h[20..22]) != 1
    then None
    else Some(Wav(Value(h[4..8]), Value(h[22..24]), Value(h[24..28]), Value(h[28..32]), Value(h[32..34]),
                  Value(h[34..36]), Value(h[40..44])))
  }

  /** The sizes agree with each other and with the bytes that follow. */
  predicate Coherent(w: Wav, pcm: nat) {
    && w.dataSize == pcm && w.riffSize == pcm + 36
    && w.blockAlign * 8 == w.channels * w.bits && w.byteRate == w.rate * w.blockAlign
  }

  lemma FieldReads(n: nat, v: nat)
    ensures Value(Field(n, v)) == v % Power(n)
    ensures v < Power(n) ==> Value(Field(n, v)) == v
  {
    hide Bytes, Value, Power;
    ValueOfBytes(n, v % Power(n));
    SmallRemainder(v, Power(n));
  }

  lemma SmallRemainder(v: nat, p: nat)
    requires p > 0
    ensures v < p ==> v % p == v
  {
  }

  lemma Slice(a: seq<Byte>, b: seq<Byte>, c: seq<Byte>, i: nat, j: nat)
    requires i <= j <= |b|
    ensures (a + b + c)[|a| + i..|a| + j] == b[i..j]
  {
  }

  lemma RiffReads(pcm: nat)
    ensures var p := RiffPart(pcm);
            p[..4] == RIFF && p[4..8] == Field(4, pcm + 36) && p[8..12] == WAVE
  {
    hide Field;
  }

  lemma DataReads(pcm: nat)
    ensures DataPart(pcm)[..4] == DATA && DataPart(pcm)[4..8] == Field(4, pcm)
  {
    hide Field;
  }

  lemma FormatReads(rate: nat, channels: nat, bits: nat)
    ensures var p := FormatPart(rate, channels, bits);
            && p[0..4] == FMT && p[4..8] == Field(4, 16) && p[8..10] == Field(2, 1) && p[10..12] == Field(2, channels)
            && p[12..16] == Field(4, rate) && p[16..20] == Field(4, rate * channels * bits / 8)
            && p[20..22] == Field(2, channels * bits / 8) && p[22..24] == Field(2, bits)
  {
    hide Field;
  }

  /** Where the fields of the whole header stand. */
  lemma HeaderSlices(pcm: nat, rate: nat, channels: nat, bits: nat)
    requires Representable(pcm, rate, channels, bits)
    ensures PcmWavHeader(pcm, rate, channels, bits).Some?
    ensures var h := PcmWavHeader(pcm, rate, channels, bits).value;
            && h[..4] == RIFF && h[4..8] == Field(4, pcm + 36) && h[8..12] == WAVE
            && h[12..16] == FMT && h[16..20] == Field(4, 16) && h[20..22] == Field(2, 1) && h[22..24] == Field(2, channels)
            && h[24..28] == Field(4, rate) && h[28..32] == Field(4, rate * channels * bits / 8)
            && h[32..34] == Field(2, channels * bits / 8) && h[34..36] == Field(2, bits)
            && h[36..40] == DATA && h[40..44] == Field(4, pcm)
  {
    hide RiffPart, FormatPart, DataPart, Field;
    var a, b, c := RiffPart(pcm), FormatPart(rate, channels, bits), DataPart(pcm);
    var h := a + b + c;
    RiffReads(pcm);
    FormatReads(rate, channels, bits);
    DataReads(pcm);
    assert h[..4] == a[..4] && h[4..8] == a[4..8] && h[8..12] == a[8..12];
    Slice(a, b, c, 0, 4);
    Slice(a, b, c, 4, 8);
    Slice(a, b, c, 8, 10);
    Slice(a, b, c, 10, 12);
    Slice(a, b, c, 12, 16);
    Slice(a, b, c, 16, 20);
    Slice(a, b, c, 20, 22);
    Slice(a, b, c, 22, 24);
    assert h[36..40] == c[..4] && h[40..44] == c[4..8];
  }

  lemma HeaderReads(pcm: nat, rate: nat, channels: nat, bits: nat)
    requires Representable(pcm, rate, channels, bits) && rate <= MAX32 && channels <= 0xFFFF
    ensures ReadHeader(PcmWavHeader(pcm, rate, channels, bits).value)
         == Some(Wav((pcm + 36) % 0x1_0000_0000, channels, rate, rate * channels * 2, channels * 2 % 0x1_0000, 16, pcm))
  {
    hide Bytes, Value, Field, PcmWavHeader, Power;
    assert bits == 16;
    Sixteen(rate, channels);
    var byteRate, align := rate * channels * 2, channels * 2;
    assert rate * channels * bits / 8 == byteRate <= MAX32 && channels * bits / 8 == align;
    Widths();
    HeaderSlices(pcm, rate, channels, bits);
    hide Representable;
    FieldReads(4, pcm + 36);
    FieldReads(4, 16);
    FieldReads(2, 1);
    FieldReads(2, channels);
    FieldReads(4, rate);
    FieldReads(4, byteRate);
    FieldReads(2, align);
    FieldReads(2, bits);
    FieldReads(4, pcm);
  }

  lemma Sixteen(rate: nat, channels: nat)
    ensures rate * channels * 16 / 8 == rate * channels * 2 && channels * 16 / 8 == channels * 2
  {
    assert rate * channels * 16 == 8 * (rate * channels * 2);
  }

  /** The accepted header is coherent exactly when neither the RIFF size nor the
      block alignment wraps; `pcm_wav_header` does not check either. */
  lemma HeaderIsCoherentUnlessItWraps(pcm: nat, rate: nat, channels: nat, bits: nat)
    requires Representable(pcm, rate, channels, bits) && rate <= MAX32 && channels <= 0xFFFF
    ensures ReadHeader(PcmWavHeader(pcm, rate, channels, bits).value).Some?
    ensures Coherent(ReadHeader(PcmWavHeader(pcm, rate, channels, bits).value).value, pcm)
       <==> pcm <= MAX32 - 36 && channels < 0x8000
  {
    hide ReadHeader, PcmWavHeader, Representable;
    HeaderReads(pcm, rate, channels, bits);
    if channels < 0x8000 {
      assert rate * (channels * 2) == rate * channels * 2;
    }
  }

  /** Two accepted headers that wrap. */
  lemma WrappingHeaders()
    ensures Representable(MAX32 - 3, 8_000, 2, 16) && MAX32 - 3 > MAX32 - 36
    ensures Representable(0x1_0000, 1, 0x8000, 16)
  {
  }

  // ------------------------------------------------------------ the stream

  function Min(a: nat, b: nat): nat { if a <= b then a else b }

  class WavStream {
    const header: seq<Byte>
    const pcm: seq<Byte>
    var offset: nat

    ghost function All(): seq<Byte> { header + pcm }

    ghost predicate Valid()
      reads this
    {
      offset <= |All()|
    }

    constructor (header: seq<Byte>, pcm: seq<Byte>)
      ensures Valid() && offset == 0 && All() == header + pcm
    {
      this.header, this.pcm, offset := header, pcm, 0;
    }

    method Size() returns (size: nat)
      ensures size == |All()|
    {
      size := |header| + |pcm|;
    }

    /** The next piece of the whole, into the front of the buffer; nothing else
        of the buffer changes. */
    method Read(destination: array<Byte>) returns (copied: nat)
      requires Valid()
      modifies this`offset, destination
      ensures Valid() && copied == Min(destination.Length, |All()| - old(offset)) && offset == old(offset) + copied
      ensures destination[..copied] == All()[old(offset)..offset]
      ensures destination[copied..] == old(destination[copied..])
      ensures copied == 0 <==> destination.Length == 0 || old(offset) == |All()|
    {
      var size := Size();
      if destination.Length == 0 || offset >= size {
        return 0;
      }
      copied := if destination.Length <= size - offset then destination.Length else size - offset;
      var headerRemaining := if offset < |header| then |header| - offset else 0;
      var headerCopied := if copied <= headerRemaining then copied else headerRemaining;
      for i := 0 to headerCopied
        invariant offset == old(offset)
        invariant forall j :: 0 <= j < i ==> destination[j] == All()[offset + j]
        invariant forall j :: i <= j < destination.Length ==> destination[j] == old(destination[j])
      {
        destination[i] := header[offset + i];
      }
      if headerCopied < copied {
        var pcmOffset := offset + headerCopied - |header|;
        for i := 0 to copied - headerCopied
          invariant offset == old(offset)
          invariant forall j :: 0 <= j < headerCopied + i ==> destination[j] == All()[offset + j]
          invariant forall j :: headerCopied + i <= j < destination.Length ==> destination[j] == old(destination[j])
        {
          destination[headerCopied + i] := pcm[pcmOffset + i];
        }
      }
      offset := offset + copied;
    }

    method Seek(target: nat) returns (ok: bool)
      requires Valid()
      modifies this`offset
      ensures Valid() && ok == (target <= |All()|)
      ensures offset == if ok then target else old(offset)
    {
      var size := Size();
      if target > size {
        return false;
      }
      offset := target;
      return true;
    }

    /** A client that reads into fresh buffers of the given sizes. */
    method ReadAll(sizes: seq<nat>) returns (pieces: seq<seq<Byte>>)
      requires Valid()
      modifies this`offset
      ensures Valid() && pieces == Pieces(All()[old(offset)..], sizes)
      ensures All()[offset..] == Rest(All()[old(offset)..], sizes)
    {
      hide Pieces, Rest;
      pieces := [];
      ghost var all := All()[offset..];
      ghost var start := offset;
      NoPieces(all);
      assert sizes[..0] == [];
      for i := 0 to |sizes|
        invariant Valid() && All()[start..] == all
        invariant pieces == Pieces(all, sizes[..i]) && All()[offset..] == Rest(all, sizes[..i])
      {
        var buffer := new Byte[sizes[i]](_ => 0);
        ghost var before := offset;
        var copied := Read(buffer);
        pieces := pieces + [buffer[..copied]];
        assert All()[before..][..copied] == All()[before..offset] && All()[before..][copied..] == All()[offset..];
        assert sizes[..i + 1] == sizes[..i] + [sizes[i]];
        OnePieceMore(all, sizes[..i], sizes[i]);
      }
      assert sizes[..|sizes|] == sizes;
    }
  }

  /** What reads of the given sizes deliver from `s`, and what they leave. */
  function Pieces(s: seq<Byte>, sizes: seq<nat>): seq<seq<Byte>> {
    if sizes == [] then []
    else [s[..Min(sizes[0], |s|)]] + Pieces(s[Min(sizes[0], |s|)..], sizes[1..])
  }

  function Rest(s: seq<Byte>, sizes: seq<nat>): seq<Byte> {
    if sizes == [] then s else Rest(s[Min(sizes[0], |s|)..], sizes[1..])
  }

  function Concatenated(pieces: seq<seq<Byte>>): seq<Byte> {
    if pieces == [] then [] else pieces[0] + Concatenated(pieces[1..])
  }

  lemma NoPieces(s: seq<Byte>)
    ensures Pieces(s, []) == [] && Rest(s, []) == s
  {
  }

  lemma {:induction false} OnePieceMore(s: seq<Byte>, sizes: seq<nat>, size: nat)
    ensures Pieces(s, sizes + [size]) == Pieces(s, sizes) + [Rest(s, sizes)[..Min(size, |Rest(s, sizes)|)]]
    ensures Rest(s, sizes + [size]) == Rest(s, sizes)[Min(size, |Rest(s, sizes)|)..]
  {
    if sizes == [] {
      assert [size][1..] == [];
      NoPieces(s[Min(size, |s|)..]);
    } else {
      assert (sizes + [size])[1..] == sizes[1..] + [size];
      OnePieceMore(s[Min(sizes[0], |s|)..], sizes[1..], size);
    }
  }

  /** The pieces are consecutive: joined, with what is left, they are the whole. */
  lemma {:induction false} PiecesJoin(s: seq<Byte>, sizes: seq<nat>)
    ensures Concatenated(Pieces(s, sizes)) + Rest(s, sizes) == s
    ensures Rest(s, sizes) == [] ==> Concatenated(Pieces(s, sizes)) == s
    ensures |Pieces(s, sizes)| == |sizes|
  {
    if sizes != [] {
      var n := Min(sizes[0], |s|);
      PiecesJoin(s[n..], sizes[1..]);
      assert Pieces(s, sizes)[1..] == Pieces(s[n..], sizes[1..]);
      assert s[..n] + s[n..] == s;
    }
    assert Concatenated(Pieces(s, sizes)) + [] == Concatenated(Pieces(s, sizes));
  }

  function Total(sizes: seq<nat>): nat {
    if sizes == [] then 0 else sizes[0] + Total(sizes[1..])
  }

  /** Everything has been delivered once the buffers are large enough together. */
  lemma {:induction false} EnoughReadsDeliverAll(s: seq<Byte>, sizes: seq<nat>)
    ensures Rest(s, sizes) == [] <==> Total(sizes) >= |s|
  {
    if sizes != [] {
      EnoughReadsDeliverAll(s[Min(sizes[0], |s|)..], sizes[1..]);
    }
  }

  /** Seeking back replays the same bytes, whatever was read in between and
      however the two clients cut them. */
  method Replay(stream: WavStream, at: nat, first: seq<nat>, second: seq<nat>)
    returns (once: seq<seq<Byte>>, again: seq<seq<Byte>>)
    requires stream.Valid() && at <= |stream.All()|
    modifies stream`offset
    ensures stream.Valid()
    ensures Total(first) >= |stream.All()| - at && Total(second) >= |stream.All()| - at ==>
              Concatenated(once) == Concatenated(again) == stream.All()[at..]
  {
    hide Pieces, Rest, Concatenated, Total;
    ghost var all := stream.All()[at..];
    var ok := stream.Seek(at);
    once := stream.ReadAll(first);
    ok := stream.Seek(at);
    again := stream.ReadAll(second);
    PiecesJoin(all, first);
    PiecesJoin(all, second);
    EnoughReadsDeliverAll(all, first);
    EnoughReadsDeliverAll(all, second);
  }
}
