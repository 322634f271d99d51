/** CAN / CAN FD frames and the data length code. */
module CanBus {
  import opened Words

  const MAX_DLC := 15
  const MAX_CH := 15
  const MAX_CLASSIC_LEN := 8
  const MAX_FD_LEN := 64

  /** Codes 0..8 are classic lengths; CAN FD reuses 9..15. Other codes carry nothing. */
  function DlcToLen(dlc: nat): nat {
    if dlc <= 8 then dlc
    else if dlc <= 12 then 4 * dlc - 24
    else if dlc == 13 then 32
    else if dlc == 14 then 48
    else if dlc == MAX_DLC then 64
    else 0
  }

  function LenToDlc(len: nat): nat {
    if len <= 8 then len
    else if len <= 12 then 9
    else if len <= 16 then 10
    else if len <= 20 then 11
    else if len <= 24 then 12
    else if len <= 32 then 13
    else if len <= 48 then 14
    else 15
  }

  /** A frame as the driver queues carry it: the payload has exactly the length its
      data length code expresses. */
  datatype RawFrame = RawFrame(id: nat, ch: nat, isExt: bool, isFd: bool, brs: bool, dlc: nat, data: seq<byte>)
  type Frame = f: RawFrame | f.dlc <= MAX_DLC && |f.data| == DlcToLen(f.dlc)
    witness RawFrame(0, 0, false, false, false, 0, [])

  /** Rounding up to a code and reading a code back are adjoint: a code carries a
      length exactly when it is at least the code the length rounds to. */
  lemma DlcAdjunction(len: nat, dlc: nat)
    requires len <= MAX_FD_LEN && dlc <= MAX_DLC
    ensures LenToDlc(len) <= dlc <==> len <= DlcToLen(dlc)
  {}

  lemma CodeInRange(len: nat)
    ensures LenToDlc(len) <= MAX_DLC
  {}

  /** Reading a code back and rounding again returns the same code. */
  lemma DlcRoundTrip(dlc: nat)
    requires dlc <= MAX_DLC
    ensures LenToDlc(DlcToLen(dlc)) == dlc
  {}

  /** The lengths of eight or more that survive rounding are exactly the eight frame sizes. */
  lemma ExactFrameLengths(len: nat)
    requires len >= MAX_CLASSIC_LEN
    ensures DlcToLen(LenToDlc(len)) == len <==> len in {8, 12, 16, 20, 24, 32, 48, 64}
  {}
}
