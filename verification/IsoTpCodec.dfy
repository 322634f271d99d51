/** Frames on the wire: how a message is cut into frames, and what a frame means to the
    side that reads it. */
module IsoTpCodec {
  import opened Options
  import opened Words
  import opened CanBus
  import opened IsoTpTypes

  const PCI_SF: byte := 0x00
  const PCI_FF: byte := 0x10
  const PCI_CF: byte := 0x20
  const PCI_FC: byte := 0x30

  const FFDL_12 := 4095
  const SF_DL_4 := 7

  const FS_CTS: byte := 0
  const FS_WAIT: byte := 1
  const FS_OVFLW: byte := 2

  function Min(a: nat, b: nat): nat { if a < b then a else b }

  // ---------------------------------------------------------------- building

  /** Bytes an emitted frame needs before its length is rounded to a code. */
  function WantLen(cfg: Cfg, used: nat): nat {
    if cfg.padFrames && used < MAX_CLASSIC_LEN then MAX_CLASSIC_LEN else used
  }

  /** Header, then as much of the payload as the geometry allows, then filler up to the
      next length a data length code expresses. */
  function BuildFrame(cfg: Cfg, id: nat, src: seq<byte>, pci: seq<byte>): (f: Frame)
    requires FrameLenValid(cfg.maxFrameLen) && 1 <= |pci| <= 6
    ensures f.id == id && f.ch == cfg.ch && f.isExt == cfg.extId
    ensures |f.data| <= cfg.maxFrameLen
    ensures |pci| + Min(|src|, cfg.maxFrameLen - |pci|) <= |f.data|
    ensures pci + src[..Min(|src|, cfg.maxFrameLen - |pci|)] <= f.data
  {
    ExactFrameLengths(cfg.maxFrameLen);
    var chunk := Min(|src|, cfg.maxFrameLen - |pci|);
    var used := |pci| + chunk;
    var dlc := LenToDlc(WantLen(cfg, used));
    var wire := DlcToLen(dlc);
    DlcAdjunction(WantLen(cfg, used), dlc);
    RawFrame(id, cfg.ch, cfg.extId, cfg.fdFrames, cfg.brs, dlc,
             pci + src[..chunk] + seq(wire - used, _ => cfg.padByte))
  }

  function SfCapacity(cfg: Cfg): nat
    requires FrameLenValid(cfg.maxFrameLen)
  {
    if cfg.maxFrameLen <= MAX_CLASSIC_LEN then SF_DL_4 else cfg.maxFrameLen - 2
  }

  function SfPci(len: nat): (pci: seq<byte>)
    requires len < 256
    ensures 1 <= |pci| <= 2
  {
    if len <= SF_DL_4 then [PCI_SF + len] else [PCI_SF, len]
  }

  /** The first frame's header: a 12-bit length, or above that the 32-bit escape. */
  function FfPci(total: uint32): (pci: seq<byte>)
    ensures |pci| == 2 || |pci| == 6
  {
    if total > FFDL_12 then
      [PCI_FF, 0, total / 0x1000000, total / 0x10000 % 256, total / 0x100 % 256, total % 256]
    else
      [PCI_FF + total / 256, total % 256]
  }

  function CfPci(sn: nat): (pci: seq<byte>)
    ensures |pci| == 1
  {
    [PCI_CF + sn % 16]
  }

  function FcFrame(cfg: Cfg, fs: byte, bs: byte, stmin: byte): Frame
    requires FrameLenValid(cfg.maxFrameLen)
  {
    BuildFrame(cfg, cfg.physTxId, [], [PCI_FC + fs % 16, bs, stmin])
  }

  predicate IsSingle(cfg: Cfg, m: seq<byte>)
    requires FrameLenValid(cfg.maxFrameLen)
  {
    |m| <= SfCapacity(cfg)
  }

  /** The frame a message starts with: single when it fits, first otherwise. */
  function HeadFrame(cfg: Cfg, id: nat, m: seq<byte>): Frame
    requires FrameLenValid(cfg.maxFrameLen) && |m| < TWO_32
  {
    ExactFrameLengths(cfg.maxFrameLen);
    BuildFrame(cfg, id, m, if IsSingle(cfg, m) then SfPci(|m|) else FfPci(|m|))
  }

  /** Payload bytes on the link once the head frame is. */
  function HeadLoad(cfg: Cfg, m: seq<byte>): (n: nat)
    requires FrameLenValid(cfg.maxFrameLen) && |m| < TWO_32
    ensures n <= |m| && (n == |m| <==> IsSingle(cfg, m))
    ensures !IsSingle(cfg, m) ==> 0 < n
  {
    ExactFrameLengths(cfg.maxFrameLen);
    if IsSingle(cfg, m) then |m| else cfg.maxFrameLen - |FfPci(|m|)|
  }

  /** Payload bytes on the link after the consecutive frame that follows `sent` of them. */
  function NextLoad(cfg: Cfg, m: seq<byte>, sent: nat): (n: nat)
    requires FrameLenValid(cfg.maxFrameLen) && sent <= |m|
    ensures sent <= n <= |m| && (sent < |m| ==> sent < n)
  {
    Min(|m|, sent + cfg.maxFrameLen - 1)
  }

  function CfFrame(cfg: Cfg, id: nat, m: seq<byte>, sent: nat, sn: nat): Frame
    requires FrameLenValid(cfg.maxFrameLen) && sent <= |m|
  {
    BuildFrame(cfg, id, m[sent..NextLoad(cfg, m, sent)], CfPci(sn))
  }

  /** The consecutive frames owed once `sent` bytes are on the link. */
  function ConsecutiveFrames(cfg: Cfg, id: nat, m: seq<byte>, sent: nat, sn: nat): seq<Frame>
    requires FrameLenValid(cfg.maxFrameLen) && sent <= |m|
    decreases |m| - sent
  {
    if sent == |m| then []
    else [CfFrame(cfg, id, m, sent, sn)]
         + ConsecutiveFrames(cfg, id, m, NextLoad(cfg, m, sent), (sn + 1) % 16)
  }

  /** The whole message as frames. */
  function Segment(cfg: Cfg, id: nat, m: seq<byte>): seq<Frame>
    requires FrameLenValid(cfg.maxFrameLen) && |m| < TWO_32
  {
    [HeadFrame(cfg, id, m)] + ConsecutiveFrames(cfg, id, m, HeadLoad(cfg, m), 1)
  }

  // ---------------------------------------------------------------- reading

  /** The protocol control nibble of a frame. */
  function Kind(d: seq<byte>): nat
    requires |d| > 0
  {
    d[0] / 16
  }


  /** A single frame's payload length and header length, unless the frame is invalid. */
  function SfLen(d: seq<byte>): (r: Option<(nat, nat)>)
    requires |d| > 0
    ensures r.Some? ==> 0 < r.value.0 && r.value.1 + r.value.0 <= |d|
  {
    if d[0] % 16 == 0 then
      if |d| <= MAX_CLASSIC_LEN || |d| < 2 then None
      else if d[1] <= SF_DL_4 then None
      else if d[1] > |d| - 2 then None
      else Some((d[1], 2))
    else if |d| > MAX_CLASSIC_LEN then None
    else if d[0] % 16 > |d| - 1 then None
    else Some((d[0] % 16, 1))
  }

  /** A first frame's announced length and header length, unless it is malformed. */
  function FfLen(d: seq<byte>): (r: Option<(uint32, nat)>)
    requires |d| > 0
    ensures r.Some? ==> 0 < r.value.0 && r.value.1 <= |d|
  {
    if |d| < 2 then None
    else
      var short: int := (d[0] as int) % 16 * 256 + d[1];
      if short != 0 then Some((short, 2))
      else if |d| < 6 then None
      else
        var long: int := (d[2] as int) * 0x1000000 + (d[3] as int) * 0x10000 + (d[4] as int) * 0x100 + d[5];
        if long == 0 then None else Some((long, 6))
  }

  /** Payload a consecutive frame adds to a reception with room for `room` more bytes. */
  function CfTake(d: seq<byte>, room: nat): seq<byte>
    requires |d| > 0
  {
    d[1..1 + Min(|d| - 1, room)]
  }

  /** Payload a first frame brings. */
  function FfTake(d: seq<byte>, total: nat, hdr: nat): seq<byte>
    requires hdr <= |d|
  {
    d[hdr..hdr + Min(|d| - hdr, total)]
  }

  /** Put a message back together from the data fields of its frames. */
  function Reassemble(fs: seq<Frame>): Option<seq<byte>> {
    if |fs| == 0 || |fs[0].data| == 0 then None
    else
      var d := fs[0].data;
      if Kind(d) == 0 then
        match SfLen(d)
        case Some((len, hdr)) => if |fs| == 1 then Some(d[hdr..hdr + len]) else None
        case None => None
      else if Kind(d) == 1 then
        match FfLen(d)
        case Some((total, hdr)) => Collect(total, FfTake(d, total, hdr), 1, fs[1..])
        case None => None
      else None
  }

  function Collect(total: nat, acc: seq<byte>, sn: nat, fs: seq<Frame>): Option<seq<byte>>
    requires |acc| <= total
    decreases |fs|
  {
    if |acc| == total then (if |fs| == 0 then Some(acc) else None)
    else if |fs| == 0 || |fs[0].data| == 0 then None
    else
      var d := fs[0].data;
      if Kind(d) != 2 || d[0] % 16 != sn then None
      else Collect(total, acc + CfTake(d, total - |acc|), (sn + 1) % 16, fs[1..])
  }

  // ---------------------------------------------------------------- what the reader sees

  /** A built single frame announces exactly its payload; an empty one is refused. */
  lemma SfReads(cfg: Cfg, id: nat, m: seq<byte>)
    requires FrameLenValid(cfg.maxFrameLen) && IsSingle(cfg, m)
    ensures var d := HeadFrame(cfg, id, m).data;
            && |d| > 0 && Kind(d) == 0
            && (m == [] ==> SfLen(d) == None)
            && (m != [] ==> SfLen(d).Some? && SfLen(d).value.0 == |m|
                            && d[SfLen(d).value.1..][..|m|] == m)
  {
    ExactFrameLengths(cfg.maxFrameLen);
    var f := HeadFrame(cfg, id, m);
    var pci := SfPci(|m|);
    assert m[..Min(|m|, cfg.maxFrameLen - |pci|)] == m;
    assert |m| <= SF_DL_4 || |f.data| > MAX_CLASSIC_LEN by { SfSize(cfg, id, m); }
    assert |m| > SF_DL_4 || |f.data| <= MAX_CLASSIC_LEN by { SfSize(cfg, id, m); }
    SfLenReads(m, f.data);
  }

  /** A long single frame is longer than a classic one, a short one is not. */
  lemma SfSize(cfg: Cfg, id: nat, m: seq<byte>)
    requires FrameLenValid(cfg.maxFrameLen) && IsSingle(cfg, m) && |m| < TWO_32
    ensures |HeadFrame(cfg, id, m).data| > MAX_CLASSIC_LEN <==> |m| > SF_DL_4
  {
    ExactFrameLengths(cfg.maxFrameLen);
  }

  lemma SfLenReads(m: seq<byte>, d: seq<byte>)
    requires |m| < 256 && SfPci(|m|) + m <= d && (|d| > MAX_CLASSIC_LEN <==> |m| > SF_DL_4)
    ensures |d| > 0 && Kind(d) == 0
    ensures m == [] ==> SfLen(d) == None
    ensures m != [] ==> SfLen(d) == Some((|m|, |SfPci(|m|)|)) && d[|SfPci(|m|)|..][..|m|] == m
  {
    var pci := SfPci(|m|);
    assert d[0] == pci[0] && (|pci| == 2 ==> d[1] == pci[1]);
    assert d[..|pci| + |m|] == pci + m;
    assert d[|pci|..][..|m|] == m;
  }

  /** A built first frame announces the message's length and brings its first bytes. */
  lemma FfReads(cfg: Cfg, id: nat, m: seq<byte>)
    requires FrameLenValid(cfg.maxFrameLen) && |m| < TWO_32 && !IsSingle(cfg, m)
    ensures var d := HeadFrame(cfg, id, m).data;
            && |d| > 0 && Kind(d) == 1
            && FfLen(d) == Some((|m|, |FfPci(|m|)|))
            && FfTake(d, |m|, |FfPci(|m|)|) == m[..HeadLoad(cfg, m)]
            && HeadLoad(cfg, m) > 0
  {
    ExactFrameLengths(cfg.maxFrameLen);
    var d := HeadFrame(cfg, id, m).data;
    var pci := FfPci(|m|);
    var load := HeadLoad(cfg, m);
    assert Min(|m|, cfg.maxFrameLen - |pci|) == load;
    assert pci + m[..load] <= d;
    assert d == pci + m[..load];
    assert FfTake(d, |m|, |pci|) == m[..load];
    FfLenReads(|m|, d);
  }

  lemma FfLenReads(total: uint32, d: seq<byte>)
    requires total > 0 && FfPci(total) <= d
    ensures Kind(d) == 1 && FfLen(d) == Some((total, |FfPci(total)|))
  {
    var pci := FfPci(total);
    assert d[0] == pci[0] && d[1] == pci[1];
    if total > FFDL_12 {
      assert d[2] == pci[2] && d[3] == pci[3] && d[4] == pci[4] && d[5] == pci[5];
      FourBytes(total);
    }
  }

  lemma FourBytes(x: uint32)
    ensures x / 0x1000000 * 0x1000000 + x / 0x10000 % 256 * 0x10000 + x / 0x100 % 256 * 0x100 + x % 256 == x
  {
    var a := x / 0x100;
    assert x == a * 0x100 + x % 0x100;
    var b := a / 0x100;
    assert a == b * 0x100 + a % 0x100;
    assert x / 0x10000 == b;
    assert x / 0x1000000 == b / 0x100;
  }

  /** A built consecutive frame carries its sequence number and the next bytes, and no
      more than the geometry's share even when its tail is filled. */
  lemma CfReads(cfg: Cfg, id: nat, m: seq<byte>, sent: nat, sn: nat)
    requires FrameLenValid(cfg.maxFrameLen) && sent < |m|
    ensures var d := CfFrame(cfg, id, m, sent, sn).data;
            && 1 < |d| <= cfg.maxFrameLen && Kind(d) == 2 && d[0] % 16 == sn % 16
            && CfTake(d, |m| - sent) == m[sent..NextLoad(cfg, m, sent)]
            && (NextLoad(cfg, m, sent) < |m| ==> |d| == cfg.maxFrameLen)
  {}

  /** An emitted flow control reads back as the three fields it was built from. */
  lemma FcReads(cfg: Cfg, fs: byte, bs: byte, stmin: byte)
    requires FrameLenValid(cfg.maxFrameLen) && fs < 16
    ensures var d := FcFrame(cfg, fs, bs, stmin).data;
            && |d| >= 3 && Kind(d) == 3 && d[0] % 16 == fs && d[1] == bs && d[2] == stmin
  {}

  /** A frame is as short as the codes allow: it has the least length that holds header and payload,
      and 8 bytes when short frames are to be filled up; behind the payload is filler and nothing else. */
  lemma FrameIsFilled(cfg: Cfg, id: nat, src: seq<byte>, pci: seq<byte>)
    requires FrameLenValid(cfg.maxFrameLen) && 1 <= |pci| <= 6
    ensures var f := BuildFrame(cfg, id, src, pci);
            var used := |pci| + Min(|src|, cfg.maxFrameLen - |pci|);
            && f.isFd == cfg.fdFrames && f.brs == cfg.brs && f.dlc == LenToDlc(|f.data|)
            && (cfg.padFrames ==> |f.data| >= MAX_CLASSIC_LEN)
            && (forall dlc :: 0 <= dlc <= MAX_DLC && DlcToLen(dlc) >= used && (cfg.padFrames ==> DlcToLen(dlc) >= MAX_CLASSIC_LEN) ==>
                  |f.data| <= DlcToLen(dlc))
            && (forall i :: used <= i < |f.data| ==> f.data[i] == cfg.padByte)
  {
    ExactFrameLengths(cfg.maxFrameLen);
  }

  // ---------------------------------------------------------------- what the reader refuses

  /** A frame is read as a single one of n bytes if and only if it starts with the header a sender
      gives n bytes, has them, and is longer than a classic frame exactly when the header is the
      escape. */
  lemma SfLenIff(d: seq<byte>, n: nat, hdr: nat)
    requires |d| > 0 && Kind(d) == 0
    ensures SfLen(d) == Some((n, hdr)) <==>
              && 0 < n < 256 && hdr == |SfPci(n)| && hdr + n <= |d| && SfPci(n) <= d
              && (|d| > MAX_CLASSIC_LEN <==> n > SF_DL_4)
  {
    if 0 < n < 256 && |SfPci(n)| <= |d| {
      assert SfPci(n) <= d <==> d[..|SfPci(n)|] == SfPci(n);
      assert d[..|SfPci(n)|] == SfPci(n) <==> forall i :: 0 <= i < |SfPci(n)| ==> d[i] == SfPci(n)[i];
    }
  }

  /** A first frame is read as announcing n bytes if and only if it starts with the header a sender
      gives n bytes - or with the escape, which is understood for a length that does not need it. */
  lemma FfLenIff(d: seq<byte>, n: uint32, hdr: nat)
    requires |d| > 0 && Kind(d) == 1
    ensures FfLen(d) == Some((n, hdr)) <==>
              && n > 0
              && (|| (n <= FFDL_12 && hdr == 2 && FfPci(n) <= d)
                  || (hdr == 6 && Escape(n) <= d))
  {
    FourBytes(n);
    if |d| >= 6 {
      assert Escape(n) <= d <==> d[..6] == Escape(n);
      BigEndian(n, d[2], d[3], d[4], d[5]);
    }
    if |d| >= 2 && n <= FFDL_12 {
      assert FfPci(n) <= d <==> d[..2] == FfPci(n);
    }
  }

  function Escape(n: uint32): seq<byte> {
    [PCI_FF, 0, n / 0x1000000, n / 0x10000 % 256, n / 0x100 % 256, n % 256]
  }

  lemma BigEndian(n: uint32, a: byte, b: byte, c: byte, d: byte)
    ensures n == a * 0x1000000 + b * 0x10000 + c * 0x100 + d <==>
              a == n / 0x1000000 && b == n / 0x10000 % 256 && c == n / 0x100 % 256 && d == n % 256
  {
    FourBytes(n);
  }

  // ---------------------------------------------------------------- round trip

  lemma {:induction false} CollectInverts(cfg: Cfg, id: nat, m: seq<byte>, sent: nat, sn: nat)
    requires FrameLenValid(cfg.maxFrameLen) && sent <= |m| && sn < 16
    ensures Collect(|m|, m[..sent], sn, ConsecutiveFrames(cfg, id, m, sent, sn)) == Some(m)
    decreases |m| - sent
  {
    var fs := ConsecutiveFrames(cfg, id, m, sent, sn);
    if sent == |m| {
      assert m[..sent] == m;
    } else {
      CfReads(cfg, id, m, sent, sn);
      var next := NextLoad(cfg, m, sent);
      assert m[..sent] + m[sent..next] == m[..next];
      assert fs[1..] == ConsecutiveFrames(cfg, id, m, next, (sn + 1) % 16);
      CollectInverts(cfg, id, m, next, (sn + 1) % 16);
    }
  }

  /** Reassembly undoes segmentation for every geometry, padding and length, and the
      sequence numbers of the frames are what makes it accept them. */
  lemma RoundTrip(cfg: Cfg, id: nat, m: seq<byte>)
    requires FrameLenValid(cfg.maxFrameLen) && 0 < |m| < TWO_32
    ensures Reassemble(Segment(cfg, id, m)) == Some(m)
  {
    var fs := Segment(cfg, id, m);
    if IsSingle(cfg, m) {
      SfReads(cfg, id, m);
      var (len, hdr) := SfLen(fs[0].data).value;
      assert fs[0].data[hdr..hdr + len] == fs[0].data[hdr..][..len];
    } else {
      FfReads(cfg, id, m);
      assert fs[1..] == ConsecutiveFrames(cfg, id, m, HeadLoad(cfg, m), 1);
      CollectInverts(cfg, id, m, HeadLoad(cfg, m), 1);
    }
  }

  lemma {:induction false} ConsecutivesFit(cfg: Cfg, id: nat, m: seq<byte>, sent: nat, sn: nat)
    requires FrameLenValid(cfg.maxFrameLen) && sent <= |m|
    ensures forall f :: f in ConsecutiveFrames(cfg, id, m, sent, sn) ==> |f.data| <= cfg.maxFrameLen && f.id == id
    decreases |m| - sent
  {
    if sent < |m| {
      ConsecutivesFit(cfg, id, m, NextLoad(cfg, m, sent), (sn + 1) % 16);
    }
  }

  /** No message is cut into an oversized frame, and all its frames go out under one identifier. */
  lemma FramesFit(cfg: Cfg, id: nat, m: seq<byte>)
    requires FrameLenValid(cfg.maxFrameLen) && |m| < TWO_32
    ensures forall f :: f in Segment(cfg, id, m) ==> |f.data| <= cfg.maxFrameLen && f.id == id
  {
    ConsecutivesFit(cfg, id, m, HeadLoad(cfg, m), 1);
  }
}
