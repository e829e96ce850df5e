/**
 The constants and machine-integer conventions the multi-variable engine relies on.

 The memory-area codes, word-length codes and client error codes belong to the
 S7 protocol constants of the client library, which are not part of this model.
 They are given here with the values the Snap7 family of clients uses; no proof
 depends on a particular value, only on the codes being pairwise distinct and the
 two error codes being non-zero.
 */
module S7Consts {

  /** A C# `int`: 32-bit two's complement. */
  type int32 = x: int | -0x8000_0000 <= x < 0x8000_0000

  /** Reduces an exact integer to the value unchecked C# `int` arithmetic yields. */
  function Wrap32(x: int): (r: int32)
    ensures -0x8000_0000 <= x < 0x8000_0000 ==> r == x
    ensures (r - x) % 0x1_0000_0000 == 0
  {
    var m := x % 0x1_0000_0000;
    if m < 0x8000_0000 then m else m - 0x1_0000_0000
  }

  // Memory areas of the controller.
  const S7AreaPE: int32 := 0x81  // process inputs
  const S7AreaPA: int32 := 0x82  // process outputs
  const S7AreaMK: int32 := 0x83  // merkers (flags)
  const S7AreaDB: int32 := 0x84  // data blocks
  const S7AreaCT: int32 := 0x1C  // counters
  const S7AreaTM: int32 := 0x1D  // timers

  // Word lengths (transfer units).
  const S7WLBit: int32 := 0x01
  const S7WLByte: int32 := 0x02
  const S7WLChar: int32 := 0x03
  const S7WLWord: int32 := 0x04
  const S7WLInt: int32 := 0x05
  const S7WLDWord: int32 := 0x06
  const S7WLDInt: int32 := 0x07
  const S7WLReal: int32 := 0x08
  const S7WLCounter: int32 := 0x1C
  const S7WLTimer: int32 := 0x1D

  // Client error codes used by the engine.
  const errCliItemNotAvailable: int32 := 0x00C0_0000
  const errCliFunctionRefused: int32 := 0x0230_0000

  /** The word lengths the transport is handed after normalisation. */
  predicate IsWireWordLen(wl: int32) {
    wl == S7WLBit || wl == S7WLByte || wl == S7WLCounter || wl == S7WLTimer
  }

  /**
   The byte size of each word length, as the client's size table would report it:
   0 marks a word length the table does not know. The table itself is not part of
   this model, so every operation that needs it takes it as a parameter.
   */
  type SizeTable = int32 -> nat
}
