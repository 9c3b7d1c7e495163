/** The start code that separates the units of a byte stream (Annex B of ITU-T H.264). */
module StartCodes {
  import opened Bytes

  /** 00 00 01 at `i`. */
  predicate Code3(data: seq<byte>, i: nat) {
    i + 2 < |data| && data[i] == 0 && data[i + 1] == 0 && data[i + 2] == 1
  }
}
