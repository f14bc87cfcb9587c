/** The packed little-endian advert: 7 bytes of header, then nothing or a command. */
module Wire {
  import opened Words
  import opened Wrappers

  const START_ID: u8 := 1
  const STOP_ID: u8 := 2
  const HEADER_SIZE: nat := 7
  const ADV_SIZE: nat := 12

  datatype Cmd = NoCmd | Start(time: u32) | Stop
  datatype Header = Header(syncSeq: u8, prevTime: u32, cmdSeq: u16)
  datatype Adv = Adv(hdr: Header, cmd: Cmd)

  function EncodeHeader(h: Header): (b: seq<u8>)
    ensures |b| == HEADER_SIZE
  {
    [h.syncSeq] + Le32(h.prevTime) + Le16(h.cmdSeq)
  }

  function EncodeCmd(c: Cmd): seq<u8> {
    match c
    case NoCmd => []
    case Start(time) => [START_ID] + Le32(time)
    case Stop => [STOP_ID]
  }

  /** The bytes the central node advertises: no body stands for no command. */
  function Encode(a: Adv): (b: seq<u8>)
    ensures HEADER_SIZE <= |b| <= ADV_SIZE
  {
    EncodeHeader(a.hdr) + EncodeCmd(a.cmd)
  }

  /** The bytes on the air: number, time and change number, each low byte first, then the command. */
  lemma BytesOnTheAir()
    ensures var hdr := Header(5, 0x0102_0304, 0x0607);
            && Encode(Adv(hdr, NoCmd)) == [5, 4, 3, 2, 1, 7, 6]
            && Encode(Adv(hdr, Start(0x0a0b_0c0d))) == [5, 4, 3, 2, 1, 7, 6, 1, 0xd, 0xc, 0xb, 0xa]
            && Encode(Adv(hdr, Stop)) == [5, 4, 3, 2, 1, 7, 6, 2]
  {
    assert Le32(0x0102_0304) == [4, 3, 2, 1] && Le32(0x0a0b_0c0d) == [0xd, 0xc, 0xb, 0xa] && Le16(0x0607) == [7, 6];
  }

  function ParseHeader(b: seq<u8>): (h: Header)
    requires |b| == HEADER_SIZE
    ensures EncodeHeader(h) == b
  {
    assert b == [b[0]] + b[1..5] + b[5..7];
    Header(b[0], FromLe32(b[1..5]), FromLe16(b[5..7]))
  }

  /** How an audio node reads an advertising data structure. */
  function Parse(manufacturer: bool, b: seq<u8>): Option<Adv> {
    if !manufacturer || |b| < HEADER_SIZE || |b| > ADV_SIZE then None
    else
      var hdr, body := ParseHeader(b[..HEADER_SIZE]), b[HEADER_SIZE..];
      if body == [] then Some(Adv(hdr, NoCmd))
      else if body[0] == 0 && |body| == 1 then Some(Adv(hdr, NoCmd))
      else if body[0] == STOP_ID && |body| == 1 then Some(Adv(hdr, Stop))
      else if body[0] == START_ID && |body| == 5 then Some(Adv(hdr, Start(FromLe32(body[1..]))))
      else None
  }

  lemma HeaderRoundTrip(h: Header)
    ensures ParseHeader(EncodeHeader(h)) == h
  {
  }

  /** Every advert the central node emits parses back to the same header and command. */
  lemma RoundTrip(a: Adv)
    ensures Parse(true, Encode(a)) == Some(a)
  {
  }

  /** The parser accepts an encoding, or an encoding without command followed by an explicit NONE
      identifier, and nothing else. */
  lemma ParseExactly(b: seq<u8>, a: Adv)
    ensures Parse(true, b) == Some(a) <==> b == Encode(a) || (a.cmd == NoCmd && b == Encode(a) + [0])
  {
    if b == Encode(a) {
      RoundTrip(a);
    } else if a.cmd == NoCmd && b == Encode(a) + [0] {
      assert b[..HEADER_SIZE] == EncodeHeader(a.hdr) && b[HEADER_SIZE..] == [0];
      HeaderRoundTrip(a.hdr);
    } else if Parse(true, b) == Some(a) {
      ParsedIsEncoded(b, a);
    }
  }

  lemma ParsedIsEncoded(b: seq<u8>, a: Adv)
    requires Parse(true, b) == Some(a)
    ensures b == Encode(a) || (a.cmd == NoCmd && b == Encode(a) + [0])
  {
  }

  /** The parser as written: copy, then check the body length against the command. */
  method ParseAdvData(manufacturer: bool, b: seq<u8>) returns (ok: bool, adv: Adv)
    ensures Parse(manufacturer, b) == if ok then Some(adv) else None
  {
    adv := Adv(Header(0, 0, 0), NoCmd);
    if !manufacturer {
      return false, adv;
    }
    if |b| < HEADER_SIZE {
      return false, adv;
    }
    if |b| > ADV_SIZE {
      return false, adv;
    }
    adv := adv.(hdr := ParseHeader(b[..HEADER_SIZE]));
    var bodyLen := |b| - HEADER_SIZE;
    if bodyLen == 0 {
      return true, adv.(cmd := NoCmd);
    }
    var id, cmdLen := b[HEADER_SIZE], bodyLen - 1;
    if id == 0 || id == STOP_ID {
      return cmdLen == 0, adv.(cmd := if id == 0 then NoCmd else Stop);
    } else if id == START_ID {
      if cmdLen != 4 {
        return false, adv;
      }
      return true, adv.(cmd := Start(FromLe32(b[HEADER_SIZE + 1..])));
    }
    return false, adv;
  }
}
