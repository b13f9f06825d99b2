/** The parts of the external module decoder's data model that the mixers
    read. The decoder itself is not part of this model: values of these types
    are inputs. */
module ModFile {
  import opened Base

  /** One waveform. `length`, `repeatStart` and `repeatLength` count 16-bit
      words; `data` holds the raw bytes, read as signed 8-bit samples. */
  datatype SampleInfo = SampleInfo(
    length: uint16,
    repeatStart: uint16,
    repeatLength: uint16,
    volume: uint8,
    data: seq<uint8>)

  /** One channel's command in one row: the sample number (0 keeps the
      current one), the period (0 keeps the current pitch) and the effect
      word, which none of the modelled code reads. */
  datatype Channel = Channel(sampleNumber: uint8, period: uint16, effect: uint16)

  /** A sample whose fields agree with its data and whose loop region lies
      inside it, with every doubled field inside the u16 range. */
  predicate WellFormed(s: SampleInfo) {
    && 0 < s.length
    && 2 * s.length < 0x1_0000
    && |s.data| == 2 * s.length
    && 2 * s.repeatStart + 2 * s.repeatLength <= 2 * s.length
  }
}
