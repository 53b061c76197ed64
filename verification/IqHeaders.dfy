/** The IQ frame header that every block of the chain reads and updates. */
module IqHeaders {
  import opened Common

  const FRAME_TYPE_DATA: nat := 0
  const FRAME_TYPE_DUMMY: nat := 1
  const FRAME_TYPE_CAL: nat := 3

  const SYNC_WORD: nat := 0x2bf7b95a

  /** The fields of the header, in their order on the wire; reserved words are zero, a text is its UTF-8 bytes. */
  datatype IqHeader = IqHeader(
    syncWord: nat,
    frameType: nat,
    hardwareId: seq<uint8>,
    unitId: nat,
    activeAntChs: nat,
    iooType: nat,
    rfCenterFreq: nat,
    adcSamplingFreq: nat,
    samplingFreq: nat,
    cpiLength: nat,
    timeStamp: nat,
    daqBlockIndex: nat,
    cpiIndex: nat,
    extIntegrationCntr: nat,
    dataType: nat,
    sampleBitDepth: nat,
    adcOverdriveFlags: nat,
    ifGains: seq<nat>,
    delaySyncFlag: nat,
    iqSyncFlag: nat,
    syncState: nat,
    noiseSourceState: nat,
    headerVersion: nat)

  /** A multichannel frame: the header and one block of values per channel. */
  datatype Frame<T> = Frame(header: IqHeader, blocks: seq<seq<T>>)

  predicate IsDummy(h: IqHeader) {
    h.frameType == FRAME_TYPE_DUMMY
  }

  /** Frames whose samples the rebuffer accounts for. */
  predicate IsSampled(h: IqHeader) {
    h.frameType == FRAME_TYPE_DATA || h.frameType == FRAME_TYPE_CAL
  }
}
