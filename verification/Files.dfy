/** File frames inside sealed messages: `[0xF7][id: u32][offset: u64][data]`, big-endian. */
module Files {
  import opened Base
  import opened Bytes

  const FILE_FRAME_MAGIC: Byte := 0xF7
  const FILE_CHUNK: nat := 32768
  const FRAME_HEADER: nat := 13

  datatype FileFrame = FileFrame(id: nat, offset: nat, data: seq<Byte>)

  function EncodeFileFrame(f: FileFrame): (buf: seq<Byte>)
    ensures |buf| == FRAME_HEADER + |f.data|
  {
    [FILE_FRAME_MAGIC] + Be(f.id, 4) + Be(f.offset, 8) + f.data
  }

  function ParseFileFrame(buf: seq<Byte>): Option<FileFrame> {
    if |buf| < FRAME_HEADER || buf[0] != FILE_FRAME_MAGIC then None
    else Some(FileFrame(FromBe(buf[1..5]), FromBe(buf[5..13]), buf[13..]))
  }

  /** A frame whose id is a u32 and whose offset is a u64 is read back as it was written. */
  lemma FileFrameRoundTrip(f: FileFrame)
    requires f.id < U32 && f.offset < U64
    ensures ParseFileFrame(EncodeFileFrame(f)) == Some(f)
  {
    var buf := EncodeFileFrame(f);
    RangeValues();
    assert buf[1..5] == Be(f.id, 4) && buf[5..13] == Be(f.offset, 8) && buf[13..] == f.data;
    BeRoundTrip(f.id, 4);
    BeRoundTrip(f.offset, 8);
  }

  /** The layout, byte by byte. */
  lemma FileFrameLayout(f: FileFrame, k: nat)
    requires k < FRAME_HEADER + |f.data|
    ensures EncodeFileFrame(f)[k]
            == if k == 0 then 0xF7
               else if k < 5 then f.id / Range(4 - k) % 256
               else if k < 13 then f.offset / Range(12 - k) % 256
               else f.data[k - 13]
  {
    if 1 <= k < 5 {
      BeAt(f.id, 4, k - 1);
    } else if 5 <= k < 13 {
      BeAt(f.offset, 8, k - 5);
    }
  }

  /** Whatever parses is the encoding of what it parses to: the format has no second spelling of a frame. */
  lemma ParsedIsEncoded(buf: seq<Byte>)
    requires ParseFileFrame(buf).Some?
    ensures EncodeFileFrame(ParseFileFrame(buf).value) == buf
  {
    BeOfFromBe(buf[1..5]);
    BeOfFromBe(buf[5..13]);
    assert buf == [buf[0]] + buf[1..5] + buf[5..13] + buf[13..];
  }

  lemma {:induction false} BeOfFromBe(s: seq<Byte>)
    ensures Be(FromBe(s), |s|) == s
  {
    if s != [] {
      var n := |s| - 1;
      BeOfFromBe(s[..n]);
      var x := FromBe(s);
      assert x == 256 * FromBe(s[..n]) + s[n];
      assert x / 256 == FromBe(s[..n]) && x % 256 == s[n];
    }
  }
}
