/** Configuration and units of exchange of the ISO-TP transport. */
module IsoTpTypes {
  import opened Words
  import opened CanBus

  /** Whom a message is for: the peer alone, or everybody listening. */
  datatype Addressing = Physical | Functional

  datatype SduKind = Indication | Confirm

  datatype Outcome =
    | N_OK | N_TIMEOUT_A | N_TIMEOUT_BS | N_TIMEOUT_CR | N_WRONG_SN
    | N_INVALID_FS | N_UNEXP_PDU | N_WFT_OVRN | N_BUFFER_OVFLW

  /** The unit exchanged with the upper layer. */
  datatype RawSdu = RawSdu(link: byte, kind: SduKind, ta: Addressing, result: Outcome, data: seq<byte>)
  type Sdu = s: RawSdu | |s.data| < TWO_32 witness RawSdu(0, Indication, Physical, N_OK, [])

  /** The longest message: its block, header and all, must fit a 32-bit size. */
  const MAX_MSG_LEN: uint32 := TWO_32 - 1 - 24

  /** An instance's configuration after init resolved the defaults. */
  datatype Cfg = Cfg(
    maxFrameLen: nat, extId: bool, fdFrames: bool, brs: bool, padFrames: bool, padByte: byte,
    ch: nat, physRxId: uint32, physTxId: uint32, funcRxId: uint32, funcTxId: uint32,
    link: byte, confirmTx: bool,
    nAs: uint32, nAr: uint32, nBs: uint32, nCr: uint32, nWftMax: byte,
    rxMaxLen: uint32, rxBlockSize: byte, rxStmin: byte,
    txFramesPerProcess: byte)

  const DEFAULT_TIMEOUT_US: uint32 := 1000000
  const DEFAULT_WFT_MAX: byte := 4

  predicate FrameLenValid(len: nat) {
    len >= MAX_CLASSIC_LEN && DlcToLen(LenToDlc(len)) == len
  }

  /** The configurations nx_can_isotp_init accepts (its queues and clock being present). */
  predicate Accepted(cfg: Cfg) {
    && FrameLenValid(cfg.maxFrameLen)
    && (cfg.maxFrameLen > MAX_CLASSIC_LEN ==> cfg.fdFrames)
    && (cfg.brs ==> cfg.fdFrames)
    && cfg.ch <= MAX_CH
    && cfg.physRxId != 0 && cfg.physTxId != 0 && cfg.physRxId != cfg.physTxId
    && (cfg.funcRxId != 0 ==> cfg.funcRxId !in {cfg.physRxId, cfg.physTxId})
    && (cfg.funcTxId != 0 ==> cfg.funcTxId !in {cfg.physRxId, cfg.physTxId, cfg.funcRxId})
  }

  type Config = c: Cfg | Accepted(c)
    witness Cfg(8, false, false, false, false, 0, 0, 1, 2, 0, 0, 0, false, 1, 1, 1, 1, 1, 0, 0, 0, 0)

  function OrDefault(t: uint32, default: uint32): uint32 {
    if t == 0 then default else t
  }

  /** Zero timing fields stand for their documented defaults. */
  function Resolved(cfg: Config): Config {
    var r: Cfg := cfg.(nAs := OrDefault(cfg.nAs, DEFAULT_TIMEOUT_US), nAr := OrDefault(cfg.nAr, DEFAULT_TIMEOUT_US),
                       nBs := OrDefault(cfg.nBs, DEFAULT_TIMEOUT_US), nCr := OrDefault(cfg.nCr, DEFAULT_TIMEOUT_US),
                       nWftMax := if cfg.nWftMax == 0 then DEFAULT_WFT_MAX else cfg.nWftMax);
    TimesAreFree(cfg, r);
    r
  }

  lemma TimesAreFree(cfg: Config, r: Cfg)
    requires r.(nAs := cfg.nAs, nAr := cfg.nAr, nBs := cfg.nBs, nCr := cfg.nCr, nWftMax := cfg.nWftMax) == cfg
    ensures Accepted(r)
  {
    hide FrameLenValid;
  }

  /** Each time given is kept, none is left at zero, and nothing else changes. */
  lemma DefaultsFillZeros(cfg: Config)
    ensures var r := Resolved(cfg);
            && r.nAs > 0 && r.nAr > 0 && r.nBs > 0 && r.nCr > 0 && r.nWftMax > 0
            && (cfg.nAs > 0 ==> r.nAs == cfg.nAs) && (cfg.nAr > 0 ==> r.nAr == cfg.nAr)
            && (cfg.nBs > 0 ==> r.nBs == cfg.nBs) && (cfg.nCr > 0 ==> r.nCr == cfg.nCr)
            && (cfg.nWftMax > 0 ==> r.nWftMax == cfg.nWftMax)
            && r.(nAs := cfg.nAs, nAr := cfg.nAr, nBs := cfg.nBs, nCr := cfg.nCr, nWftMax := cfg.nWftMax) == cfg
  {}

  /** The microseconds an STmin byte stands for, none for a reserved code. */
  function StminToUs(st: byte): nat {
    if 0x01 <= st <= 0x7F then st * 1000
    else if 0xF1 <= st <= 0xF9 then (st - 0xF0) * 100
    else 0
  }

  /** Milliseconds up to 127 and tenths of one up to 9: every such time has one code, and every other
      code asks for no separation. */
  lemma StminCodes(us: nat)
    requires us > 0
    ensures (exists st :: StminToUs(st) == us) <==> (us % 1000 == 0 && us <= 127000) || (us % 100 == 0 && us <= 900)
    ensures forall st, st1 :: StminToUs(st) == StminToUs(st1) == us ==> st == st1
  {
    if us % 1000 == 0 && us <= 127000 {
      assert StminToUs(us / 1000) == us;
    } else if us % 100 == 0 && us <= 900 {
      assert StminToUs(0xF0 + us / 100) == us;
    }
  }
}
