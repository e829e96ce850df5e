/**
 Address normalisation: the translation of a caller's (area, word length, amount,
 start) request into the few transfer units the wire protocol carries natively.
 */
module WordLength {
  import opened S7Consts

  /**
   The three by-reference parameters of the normaliser after the call, together
   with its boolean verdict. When `ok` is false the three fields hold the
   caller's values untouched.
   */
  datatype Adjusted = Adjusted(ok: bool, wordLen: int32, amount: int32, start: int32)

  /**
   Normalises a request. A word length the size table does not know is refused.
   The counter and timer areas force their own word length; a bit request moves
   exactly one bit; every other kind becomes a run of bytes whose start is a bit
   address (byte offset times 8). The multiplications are C# `int` arithmetic.
   */
  function AdjustWordLength(area: int32, wordLen: int32, amount: int32, start: int32,
                            dataSize: SizeTable): (r: Adjusted)
    ensures r.ok <==> dataSize(wordLen) != 0
    ensures !r.ok ==> r.wordLen == wordLen && r.amount == amount && r.start == start
    ensures r.ok ==> IsWireWordLen(r.wordLen)
    ensures r.ok && area == S7AreaCT ==>
              r.wordLen == S7WLCounter && r.amount == amount && r.start == start
    ensures r.ok && area == S7AreaTM ==>
              r.wordLen == S7WLTimer && r.amount == amount && r.start == start
    ensures r.ok && (wordLen == S7WLCounter || wordLen == S7WLTimer) ==>
              r.amount == amount && r.start == start
  {
    var wordSize := dataSize(wordLen);
    if wordSize == 0 then
      Adjusted(false, wordLen, amount, start)
    else
      var wl := if area == S7AreaCT then S7WLCounter else wordLen;
      var wl' := if area == S7AreaTM then S7WLTimer else wl;
      if wl' == S7WLBit then
        Adjusted(true, wl', 1, start)
      else if wl' != S7WLCounter && wl' != S7WLTimer then
        Adjusted(true, S7WLByte, Wrap32(amount * wordSize), Wrap32(start * 8))
      else
        Adjusted(true, wl', amount, start)
  }

  /**
   What a request denotes on the controller, independently of how it is encoded
   for the wire: nothing, one bit at a bit address, a run of bytes, or a run of
   native counter or timer units.
   */
  datatype Extent =
    | Nothing
    | OneBit(bitAddress: int)
    | ByteRun(firstByte: int, bytes: int)
    | UnitRun(unit: int32, first: int, units: int)

  /**
   The extent a caller asks for. A counter or timer area is addressed in its own
   units whatever the word length says; a bit request is a single bit however
   many were asked for; any other kind of `amount` elements starting at byte
   `start` covers `amount` times the element's byte size.
   */
  function Requested(area: int32, wordLen: int32, amount: int32, start: int32,
                     dataSize: SizeTable): Extent
  {
    if dataSize(wordLen) == 0 then Nothing
    else if area == S7AreaCT then UnitRun(S7WLCounter, start, amount)
    else if area == S7AreaTM then UnitRun(S7WLTimer, start, amount)
    else if wordLen == S7WLBit then OneBit(start)
    else if wordLen == S7WLCounter || wordLen == S7WLTimer then UnitRun(wordLen, start, amount)
    else ByteRun(start, amount * dataSize(wordLen))
  }

  /**
   The extent a normalised item denotes as the transport reads it. A byte item's
   start is a bit address: its byte is `start >> 3` and a non-zero bit part
   (`start & 7`) does not name a whole-byte run.
   */
  function OnWire(a: Adjusted): Extent {
    if !a.ok then Nothing
    else if a.wordLen == S7WLBit then OneBit(a.start)
    else if a.wordLen == S7WLByte then
      (if a.start % 8 == 0 then ByteRun(a.start / 8, a.amount) else Nothing)
    else if a.wordLen == S7WLCounter || a.wordLen == S7WLTimer then UnitRun(a.wordLen, a.start, a.amount)
    else Nothing
  }

  /** The byte count and the bit address of a byte run both fit a C# `int`. */
  predicate FitsInt32(amount: int32, start: int32, dataSize: SizeTable, wordLen: int32) {
    && -0x8000_0000 <= amount * dataSize(wordLen) < 0x8000_0000
    && -0x8000_0000 <= start * 8 < 0x8000_0000
  }

  /**
   Normalisation preserves meaning: as long as a byte run's rescaled byte count
   and bit address fit a C# `int`, the transport addresses exactly the extent the caller
   asked for, and a refused request addresses nothing.
   */
  lemma AdjustPreservesExtent(area: int32, wordLen: int32, amount: int32, start: int32,
                              dataSize: SizeTable)
    requires Requested(area, wordLen, amount, start, dataSize).ByteRun? ==>
               FitsInt32(amount, start, dataSize, wordLen)
    ensures OnWire(AdjustWordLength(area, wordLen, amount, start, dataSize))
            == Requested(area, wordLen, amount, start, dataSize)
  {
    var r := AdjustWordLength(area, wordLen, amount, start, dataSize);
    if r.ok && r.wordLen == S7WLByte {
      assert r.start == start * 8;
      assert r.start % 8 == 0 && r.start / 8 == start;
    }
  }

  /** A bit request moves exactly one bit and keeps its bit address. */
  lemma BitRequestMovesOneBit(area: int32, amount: int32, start: int32, dataSize: SizeTable)
    requires dataSize(S7WLBit) != 0
    requires area != S7AreaCT && area != S7AreaTM
    ensures AdjustWordLength(area, S7WLBit, amount, start, dataSize)
            == Adjusted(true, S7WLBit, 1, start)
  {
  }

  /**
   Any kind other than bit, counter and timer becomes bytes: the amount is
   scaled by the word size and the start by 8, each with C# `int` wrap-around.
   */
  lemma OtherKindsBecomeBytes(area: int32, wordLen: int32, amount: int32, start: int32,
                              dataSize: SizeTable)
    requires dataSize(wordLen) != 0
    requires area != S7AreaCT && area != S7AreaTM
    requires wordLen != S7WLBit && wordLen != S7WLCounter && wordLen != S7WLTimer
    ensures AdjustWordLength(area, wordLen, amount, start, dataSize)
            == Adjusted(true, S7WLByte, Wrap32(amount * dataSize(wordLen)), Wrap32(start * 8))
  {
  }

  /** Example: bytes 3..6 of an area become a 4-byte run at bit address 24. */
  lemma ByteExample(area: int32, dataSize: SizeTable)
    requires dataSize(S7WLByte) == 1
    requires area != S7AreaCT && area != S7AreaTM
    ensures AdjustWordLength(area, S7WLByte, 4, 3, dataSize) == Adjusted(true, S7WLByte, 4, 24)
  {
  }

  /** Example: five bits asked for, one bit transferred. */
  lemma BitExample(area: int32, dataSize: SizeTable)
    requires dataSize(S7WLBit) == 1
    requires area != S7AreaCT && area != S7AreaTM
    ensures AdjustWordLength(area, S7WLBit, 5, 17, dataSize).amount == 1
  {
  }
}
