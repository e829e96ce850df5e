/**
 Properties of whole sessions of the multi-variable helper: batches of additions,
 the release discipline of transactions, and the behaviour of the results array.
 */
module MultiVarProperties {
  import opened S7Consts
  import opened S7MultiVar
  import WordLength

  /** One registration request: a tag and the buffer region that backs it. */
  datatype Registration = Registration(tag: Tag, buffer: BufferId, offset: int32, elemSize: ElemSize)

  function Min(a: int, b: int): int {
    if a <= b then a else b
  }

  /**
   Makes the registrations one after another, collecting the boolean each `Add`
   returns. The registry only grows, slots past its new end are untouched, and
   the results array is not written.
   */
  function AddAll(s: MultiVar, regs: seq<Registration>, dataSize: SizeTable)
    : (r: (seq<bool>, MultiVar))
    requires Valid(s)
    ensures Valid(r.1)
    ensures |r.0| == |regs|
    ensures s.count <= r.1.count
    ensures forall c :: r.1.count <= c < MaxVars ==> r.1.items[c] == s.items[c]
    ensures r.1.results == s.results && r.1.freed == s.freed && r.1.calls == s.calls
    decreases |regs|
  {
    if |regs| == 0 then ([], s)
    else
      var g := regs[0];
      var a := AddTagAt(s, g.tag, g.buffer, g.offset, g.elemSize, dataSize);
      var rest := AddAll(a.state, regs[1..], dataSize);
      ([a.ok] + rest.0, rest.1)
  }

  /** One addition with a known word length succeeds exactly when there is room. */
  lemma AddStep(s: MultiVar, g: Registration, dataSize: SizeTable)
    requires Valid(s)
    requires dataSize(g.tag.wordLen) != 0
    ensures var a := AddTagAt(s, g.tag, g.buffer, g.offset, g.elemSize, dataSize);
            && (a.ok <==> s.count < MaxVars)
            && a.state.count == Min(s.count + 1, MaxVars)
  {
  }

  /** Every word length in the registrations is one the size table knows. */
  ghost predicate AllKnown(regs: seq<Registration>, dataSize: SizeTable) {
    forall i :: 0 <= i < |regs| ==> dataSize(regs[i].tag.wordLen) != 0
  }

  lemma AllKnownTail(regs: seq<Registration>, dataSize: SizeTable)
    requires |regs| > 0 && AllKnown(regs, dataSize)
    ensures dataSize(regs[0].tag.wordLen) != 0 && AllKnown(regs[1..], dataSize)
  {
    forall i | 0 <= i < |regs[1..]|
      ensures dataSize(regs[1..][i].tag.wordLen) != 0
    {
      assert regs[1..][i] == regs[i + 1];
    }
  }

  /**
   Capacity is enforced locally: when every word length is known, the registry
   ends holding as many items as were offered, capped at `MaxVars`.
   */
  lemma {:induction false} CapacityCount(s: MultiVar, regs: seq<Registration>, dataSize: SizeTable)
    requires Valid(s) && AllKnown(regs, dataSize)
    ensures AddAll(s, regs, dataSize).1.count == Min(s.count + |regs|, MaxVars)
    decreases |regs|
  {
    if |regs| > 0 {
      var g := regs[0];
      AllKnownTail(regs, dataSize);
      AddStep(s, g, dataSize);
      var a := AddTagAt(s, g.tag, g.buffer, g.offset, g.elemSize, dataSize);
      CapacityCount(a.state, regs[1..], dataSize);
    }
  }

  /**
   When every word length is known, the additions succeed exactly while the
   registry has room: the `i`-th reports success iff `count + i < MaxVars`.
   */
  lemma {:induction false} CapacityFlags(s: MultiVar, regs: seq<Registration>, dataSize: SizeTable)
    requires Valid(s) && AllKnown(regs, dataSize)
    ensures forall i :: 0 <= i < |regs| ==>
              (AddAll(s, regs, dataSize).0[i] <==> s.count + i < MaxVars)
    decreases |regs|
  {
    if |regs| > 0 {
      var g := regs[0];
      AllKnownTail(regs, dataSize);
      AddStep(s, g, dataSize);
      var a := AddTagAt(s, g.tag, g.buffer, g.offset, g.elemSize, dataSize);
      var rest := AddAll(a.state, regs[1..], dataSize).0;
      CapacityFlags(a.state, regs[1..], dataSize);
      var flags := AddAll(s, regs, dataSize).0;
      assert flags == [a.ok] + rest;
      forall i | 0 <= i < |regs|
        ensures flags[i] <==> s.count + i < MaxVars
      {
        if i > 0 {
          assert flags[i] == rest[i - 1];
        }
      }
    }
  }

  /**
   On an empty registry the `MaxVars + 1`st addition fails while all earlier ones
   succeed, and the registry ends full, never beyond `MaxVars` items.
   */
  lemma OneTooMany(s0: MultiVar, regs: seq<Registration>, dataSize: SizeTable)
    requires Valid(s0) && s0.count == 0
    requires |regs| == MaxVars + 1
    requires AllKnown(regs, dataSize)
    ensures forall i :: 0 <= i < MaxVars ==> AddAll(s0, regs, dataSize).0[i]
    ensures !AddAll(s0, regs, dataSize).0[MaxVars]
    ensures AddAll(s0, regs, dataSize).1.count == MaxVars
  {
    CapacityCount(s0, regs, dataSize);
    CapacityFlags(s0, regs, dataSize);
  }

  /**
   No handle is ever freed twice, and none is both pinned and freed: every handle
   issued so far is in exactly one of the two, once.
   */
  lemma {:induction false} HandlesAccounted(s: MultiVar, h: HandleId)
    requires Valid(s)
    ensures s.pinned[h] + s.freed[h] == if h < s.nextHandle then 1 else 0
    ensures s.freed[h] <= 1
  {
    IssuedOnce(s.nextHandle, h);
    assert (s.pinned + s.freed)[h] == s.pinned[h] + s.freed[h];
  }

  /**
   Release discipline: after a transaction every handle ever allocated has been
   freed exactly once; the handles pinned since the last clear are freed by this
   very transaction, and none of them had been freed before.
   */
  lemma TransactionFreesEveryHandle(s: MultiVar, op: Op, transport: Transport, h: HandleId)
    requires Valid(s)
    ensures var r := Transact(s, op, transport).state;
            && (h < r.nextHandle ==> r.freed[h] == 1 && r.pinned[h] == 0)
            && (h in s.pinned ==> s.freed[h] == 0 && r.freed[h] == 1)
  {
    var r := Transact(s, op, transport).state;
    HandlesAccounted(s, h);
    HandlesAccounted(r, h);
  }

  /** Clearing an empty registry changes nothing. */
  lemma ClearEmptyIsNoop(s: MultiVar)
    requires Valid(s) && s.count == 0
    ensures Clear(s) == s
  {
  }

  /** Clearing twice is clearing once. */
  lemma ClearIdempotent(s: MultiVar)
    requires Valid(s)
    ensures Clear(Clear(s)) == Clear(s)
  {
  }

  /** A transport that reports overall success and sets every live item's status to 0. */
  function EchoSuccess(): Transport {
    (items: seq<DataItem>, n: nat) => Reply(0, seq(n, _ => 0))
  }

  /**
   With a transport that reports success for each live item, a read returns 0
   and every live item's result slot reads 0.
   */
  lemma EchoReadSucceeds(s: MultiVar)
    requires Valid(s) && s.count > 0
    ensures var r := Read(s, EchoSuccess());
            && r.code == 0
            && forall c :: 0 <= c < s.count ==> r.state.results[c] == 0
  {
    var reply := EchoSuccess()(s.items, s.count);
    assert reply.code == 0 && |reply.statuses| == s.count;
    assert forall c :: 0 <= c < s.count ==> reply.statuses[c] == 0;
  }

  /**
   The copy loop covers every slot: after registrations on a fresh helper and a
   successful read, the slots past the registered items hold the status of a
   never-used item (0), not "item not available".
   */
  lemma FreshReadOverwritesTrailingSlots(s0: MultiVar, regs: seq<Registration>,
                                         dataSize: SizeTable, transport: Transport)
    requires s0 == Init()
    requires 0 < |regs| <= MaxVars
    requires AllKnown(regs, dataSize)
    requires var s := AddAll(s0, regs, dataSize).1; transport(s.items, s.count).code == 0
    ensures var r := Read(AddAll(s0, regs, dataSize).1, transport);
            && r.code == 0
            && forall c :: |regs| <= c < MaxVars ==> r.state.results[c] == 0 != errCliItemNotAvailable
  {
    var s := AddAll(s0, regs, dataSize).1;
    assert s.count == |regs| by {
      CapacityCount(s0, regs, dataSize);
    }
    assert forall c :: |regs| <= c < MaxVars ==> s.items[c].result == 0;
    SuccessCopiesTrailingSlots(s, transport);
  }

  /** A successful read copies each slot past the live prefix from its own item. */
  lemma SuccessCopiesTrailingSlots(s: MultiVar, transport: Transport)
    requires Valid(s) && s.count > 0
    requires transport(s.items, s.count).code == 0
    ensures var r := Read(s, transport);
            && r.code == 0
            && forall c :: s.count <= c < MaxVars ==> r.state.results[c] == s.items[c].result
  {
  }

  /**
   A failed transaction leaves the results array as the constructor set it,
   returns the transport's own code and still empties the registry.
   */
  lemma FailedWriteKeepsResults(s0: MultiVar, regs: seq<Registration>, dataSize: SizeTable,
                                transport: Transport)
    requires s0 == Init()
    requires 0 < |regs| <= MaxVars
    requires AllKnown(regs, dataSize)
    requires var s := AddAll(s0, regs, dataSize).1; transport(s.items, s.count).code != 0
    ensures var s := AddAll(s0, regs, dataSize).1;
            var r := Write(s, transport);
            && r.code == transport(s.items, s.count).code
            && r.state.count == 0
            && r.state.pinned == multiset{}
            && forall c :: 0 <= c < MaxVars ==> r.state.results[c] == errCliItemNotAvailable
  {
    CapacityCount(s0, regs, dataSize);
    CapacityFlags(s0, regs, dataSize);
  }

  /**
   End to end, from an empty registry: a bit, a two-byte word and a counter with
   distinct buffers, read
   through a transport that reports success for each item, give code 0, results
   0, 0, 0 and an empty registry with nothing left pinned. The word is sent as
   two bytes at bit address 16.
   */
  lemma ThreeItemRead(s0: MultiVar, dataSize: SizeTable, a1: Added, a2: Added, a3: Added,
                      r: Completed)
    requires Valid(s0) && s0.count == 0
    requires dataSize(S7WLBit) == 1 && dataSize(S7WLWord) == 2 && dataSize(S7WLCounter) == 2
    requires a1 == Add(s0, S7AreaDB, S7WLBit, 1, 0, 1, 1, 1, dataSize)
    requires a2 == Add(a1.state, S7AreaDB, S7WLWord, 1, 2, 1, 2, 2, dataSize)
    requires a3 == Add(a2.state, S7AreaCT, S7WLCounter, 0, 5, 1, 3, 2, dataSize)
    requires r == Read(a3.state, EchoSuccess())
    ensures a1.ok && a2.ok && a3.ok
    ensures a3.state.items[1] == DataItem(S7AreaDB, S7WLByte, errCliItemNotAvailable, 1, 16, 2, At(2, 0))
    ensures r.code == 0
    ensures r.state.results[0] == 0 && r.state.results[1] == 0 && r.state.results[2] == 0
    ensures r.state.count == 0 && r.state.pinned == multiset{}
  {
    assert a1.ok && a1.state.count == 1;
    assert a2.ok && a2.state.count == 2;
    WordLength.OtherKindsBecomeBytes(S7AreaDB, S7WLWord, 1, 2, dataSize);
    assert a2.state.items[1].wordLen == S7WLByte;
    assert a2.state.items[1].amount == 2 && a2.state.items[1].start == 16;
    assert a3.ok && a3.state.count == 3;
    assert a3.state.items[1] == a2.state.items[1];
    EchoReadSucceeds(a3.state);
  }
}
