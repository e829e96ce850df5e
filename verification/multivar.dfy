/**
 The multi-variable read/write helper: a fixed-capacity registry of item
 descriptors bound to caller buffers, executed as one combined transport call.

 The helper's mutable fields are modelled as one immutable state value, and each
 public operation as a function from the old state to the new one. The pinning of
 caller buffers is modelled by handle ids: `pinned` is the multiset of handles the
 runtime currently holds pinned, `freed` the multiset of handles released so far,
 and `nextHandle` the next id an allocation hands out.
 */
module S7MultiVar {
  import opened S7Consts
  import opened WordLength

  /** The client's per-transaction item limit. */
  const MaxVars: nat := 20

  type HandleId = nat

  /** A caller buffer, identified abstractly. */
  type BufferId = nat

  /** A positive element size, the marshalled size of the buffer's element type. */
  type ElemSize = x: int32 | x > 0 witness 1

  /** Where an item's data lives: nowhere yet, or a byte offset into a pinned buffer. */
  datatype Location = Null | At(buffer: BufferId, byteOffset: int32)

  /** One item descriptor as the transport receives it. */
  datatype DataItem = DataItem(area: int32, wordLen: int32, result: int32, dbNumber: int32,
                               start: int32, amount: int32, data: Location)

  /** The all-zero descriptor a freshly allocated item array holds. */
  const DefaultItem := DataItem(0, 0, 0, 0, 0, 0, Null)

  /**
   A handle slot: never allocated, or holding an allocated (possibly since freed)
   handle. Freeing a handle in the C# code also resets the array element, while
   here the slot keeps its id; no caller can tell, since the live count is 0
   afterwards and an addition overwrites a slot before it is live again.
   */
  datatype Slot = Unallocated | Allocated(id: HandleId)

  /** A packed variable description, as the client's tag record carries it. */
  datatype Tag = Tag(area: int32, dbNumber: int32, start: int32, elements: int32, wordLen: int32)

  datatype Op = ReadOp | WriteOp

  /** One combined transport call and the arguments it was given. */
  datatype Call = Call(op: Op, items: seq<DataItem>, count: nat)

  /** What the transport answers: an aggregate code, and a status for each item it resolved. */
  datatype Reply = Reply(code: int32, statuses: seq<int32>)

  /** The combined read or write primitive of the client. */
  type Transport = (seq<DataItem>, nat) -> Reply

  datatype MultiVar = MultiVar(
    items: seq<DataItem>,
    handles: seq<Slot>,
    count: nat,
    results: seq<int32>,
    pinned: multiset<HandleId>,
    freed: multiset<HandleId>,
    nextHandle: HandleId,
    calls: seq<Call>)

  /** The outcome of `Add`: the boolean it returns and the helper's state afterwards. */
  datatype Added = Added(ok: bool, state: MultiVar)

  /** The outcome of `Read` or `Write`: the code it returns and the state afterwards. */
  datatype Completed = Completed(code: int32, state: MultiVar)

  /** The handles held in a run of slots. */
  function Live(hs: seq<Slot>): multiset<HandleId> {
    if |hs| == 0 then multiset{}
    else (if hs[0].Allocated? then multiset{hs[0].id} else multiset{}) + Live(hs[1..])
  }

  lemma {:induction false} LiveAppend(hs: seq<Slot>, h: HandleId)
    ensures Live(hs + [Allocated(h)]) == Live(hs) + multiset{h}
    decreases |hs|
  {
    if |hs| == 0 {
      assert hs + [Allocated(h)] == [Allocated(h)];
    } else {
      assert (hs + [Allocated(h)])[1..] == hs[1..] + [Allocated(h)];
      LiveAppend(hs[1..], h);
    }
  }

  /** The handles `0 .. n-1`, each once: every handle an allocation has handed out so far. */
  function Issued(n: HandleId): multiset<HandleId>
    decreases n
  {
    if n == 0 then multiset{} else Issued(n - 1) + multiset{n - 1}
  }

  /** Each handle below `n` has been issued exactly once, and none other. */
  lemma {:induction false} IssuedOnce(n: HandleId, h: HandleId)
    ensures Issued(n)[h] == if h < n then 1 else 0
    decreases n
  {
    if n > 0 {
      IssuedOnce(n - 1, h);
    }
  }

  /** `(p - a) - b` and `p - (a + b)` agree on every multiplicity. */
  lemma MinusMinus(p: multiset<HandleId>, a: multiset<HandleId>, b: multiset<HandleId>)
    ensures (p - a) - b == p - (a + b)
  {
    forall x
      ensures ((p - a) - b)[x] == (p - (a + b))[x]
    {
    }
  }

  /**
   The helper's invariant. The three arrays have capacity `MaxVars` and the live
   prefix is at most that long; every live slot holds an allocated handle, and
   the live slots hold exactly the pinned handles. The pinned and the freed
   handles together are exactly the handles issued so far (see `IssuedOnce`).
   */
  ghost predicate Valid(s: MultiVar) {
    && |s.items| == MaxVars
    && |s.handles| == MaxVars
    && |s.results| == MaxVars
    && s.count <= MaxVars
    && (forall c :: 0 <= c < s.count ==> s.handles[c].Allocated?)
    && s.pinned == Live(s.handles[..s.count])
    && s.pinned + s.freed == Issued(s.nextHandle)
  }

  /** The constructor: an empty registry whose results all read "item not available". */
  function Init(): (s: MultiVar)
    ensures Valid(s)
    ensures s.count == 0 && s.pinned == multiset{} && s.freed == multiset{} && s.calls == []
    ensures forall c :: 0 <= c < MaxVars ==>
              s.results[c] == errCliItemNotAvailable && s.items[c] == DefaultItem
  {
    MultiVar(seq(MaxVars, _ => DefaultItem), seq(MaxVars, _ => Unallocated), 0,
             seq(MaxVars, _ => errCliItemNotAvailable), multiset{}, multiset{}, 0, [])
  }

  /**
   What an addition does, whichever overload made it. It succeeds exactly when
   there is room and the word length is known. A success stores the normalised
   descriptor, with the caller's area and block number and an "item not
   available" status, in the first free slot, pins one fresh handle for it and
   grows the registry by one; nothing else changes. A failure changes nothing.
   */
  ghost predicate AddOutcome(s: MultiVar, area: int32, wordLen: int32, dbNumber: int32,
                       start: int32, amount: int32, data: Location, dataSize: SizeTable,
                       r: Added)
    requires Valid(s)
  {
    var a := AdjustWordLength(area, wordLen, amount, start, dataSize);
    && Valid(r.state)
    && (r.ok <==> s.count < MaxVars && dataSize(wordLen) != 0)
    && (!r.ok ==> r.state == s)
    && (r.ok ==>
          && r.state.count == s.count + 1
          && r.state.items[s.count]
             == DataItem(area, a.wordLen, errCliItemNotAvailable, dbNumber, a.start, a.amount, data)
          && (forall c :: 0 <= c < MaxVars && c != s.count ==> r.state.items[c] == s.items[c])
          && r.state.handles == s.handles[s.count := Allocated(s.nextHandle)]
          && r.state.nextHandle == s.nextHandle + 1
          && r.state.pinned == s.pinned + multiset{s.nextHandle}
          && r.state.freed == s.freed
          && r.state.results == s.results
          && r.state.calls == s.calls)
  }

  /** Where an element offset into a buffer lands: offset times element size, in C# `int`. */
  function DataAt(buffer: BufferId, offset: int32, elemSize: ElemSize): (l: Location)
    ensures l.At? && l.buffer == buffer
    ensures -0x8000_0000 <= offset * elemSize < 0x8000_0000 ==> l.byteOffset == offset * elemSize
    ensures offset == 0 ==> l.byteOffset == 0
  {
    At(buffer, Wrap32(offset * elemSize))
  }

  /**
   Stores a descriptor in the first free slot, pins a fresh handle for its buffer
   and grows the live prefix by one.
   */
  function Append(s: MultiVar, item: DataItem): (r: MultiVar)
    requires Valid(s) && s.count < MaxVars
    ensures Valid(r)
    ensures r.count == s.count + 1 && r.nextHandle == s.nextHandle + 1
    ensures r.items == s.items[s.count := item]
    ensures r.handles == s.handles[s.count := Allocated(s.nextHandle)]
    ensures r.pinned == s.pinned + multiset{s.nextHandle}
    ensures r.freed == s.freed && r.results == s.results && r.calls == s.calls
  {
    var h := s.nextHandle;
    var r := s.(items := s.items[s.count := item],
                handles := s.handles[s.count := Allocated(h)],
                count := s.count + 1,
                pinned := s.pinned + multiset{h},
                nextHandle := h + 1);
    assert r.pinned == Live(r.handles[..r.count]) by {
      assert r.handles[..r.count] == s.handles[..s.count] + [Allocated(h)];
      LiveAppend(s.handles[..s.count], h);
    }
    assert r.pinned + r.freed == Issued(r.nextHandle) by {
      assert Issued(h + 1) == Issued(h) + multiset{h};
      assert r.pinned + r.freed == (s.pinned + s.freed) + multiset{h};
    }
    r
  }

  /** Registers one variable given by its fields, backed by `buffer` from element `offset` on. */
  function AddAt(s: MultiVar, area: int32, wordLen: int32, dbNumber: int32, start: int32,
                 amount: int32, buffer: BufferId, offset: int32, elemSize: ElemSize,
                 dataSize: SizeTable): (r: Added)
    requires Valid(s)
    ensures AddOutcome(s, area, wordLen, dbNumber, start, amount,
                       DataAt(buffer, offset, elemSize), dataSize, r)
  {
    if s.count < MaxVars then
      var a := AdjustWordLength(area, wordLen, amount, start, dataSize);
      if a.ok then
        Added(true, Append(s, DataItem(area, a.wordLen, errCliItemNotAvailable, dbNumber,
                                       a.start, a.amount, DataAt(buffer, offset, elemSize))))
      else
        Added(false, s)
    else
      Added(false, s)
  }

  /** Registers one variable given by its fields, backed by `buffer` from its first element. */
  function Add(s: MultiVar, area: int32, wordLen: int32, dbNumber: int32, start: int32,
               amount: int32, buffer: BufferId, elemSize: ElemSize, dataSize: SizeTable): (r: Added)
    requires Valid(s)
    ensures AddOutcome(s, area, wordLen, dbNumber, start, amount, At(buffer, 0), dataSize, r)
  {
    AddAt(s, area, wordLen, dbNumber, start, amount, buffer, 0, elemSize, dataSize)
  }

  /** Registers the variable a tag describes, backed by `buffer` from element `offset` on. */
  function AddTagAt(s: MultiVar, tag: Tag, buffer: BufferId, offset: int32, elemSize: ElemSize,
                    dataSize: SizeTable): (r: Added)
    requires Valid(s)
    ensures AddOutcome(s, tag.area, tag.wordLen, tag.dbNumber, tag.start, tag.elements,
                       DataAt(buffer, offset, elemSize), dataSize, r)
  {
    AddAt(s, tag.area, tag.wordLen, tag.dbNumber, tag.start, tag.elements, buffer, offset,
          elemSize, dataSize)
  }

  /** Registers the variable a tag describes, backed by `buffer` from its first element. */
  function AddTag(s: MultiVar, tag: Tag, buffer: BufferId, elemSize: ElemSize,
                  dataSize: SizeTable): (r: Added)
    requires Valid(s)
    ensures AddOutcome(s, tag.area, tag.wordLen, tag.dbNumber, tag.start, tag.elements,
                       At(buffer, 0), dataSize, r)
  {
    Add(s, tag.area, tag.wordLen, tag.dbNumber, tag.start, tag.elements, buffer, elemSize, dataSize)
  }

  /**
   Frees the handles of a run of slots, first to last: each leaves the pinned
   multiset and joins the freed one.
   */
  function Release(hs: seq<Slot>, pinned: multiset<HandleId>, freed: multiset<HandleId>)
    : (r: (multiset<HandleId>, multiset<HandleId>))
    requires forall c :: 0 <= c < |hs| ==> hs[c].Allocated?
    requires Live(hs) <= pinned
    ensures r.0 == pinned - Live(hs)
    ensures r.1 == freed + Live(hs)
    decreases |hs|
  {
    if |hs| == 0 then (pinned, freed)
    else
      var h := hs[0].id;
      ReleaseStep(hs, pinned, freed);
      Release(hs[1..], pinned - multiset{h}, freed + multiset{h})
  }

  /** Freeing the first slot of a run leaves the rest of the run releasable. */
  lemma ReleaseStep(hs: seq<Slot>, pinned: multiset<HandleId>, freed: multiset<HandleId>)
    requires |hs| > 0
    requires forall c :: 0 <= c < |hs| ==> hs[c].Allocated?
    requires Live(hs) <= pinned
    ensures forall c :: 0 <= c < |hs[1..]| ==> hs[1..][c].Allocated?
    ensures Live(hs[1..]) <= pinned - multiset{hs[0].id}
    ensures (pinned - multiset{hs[0].id}) - Live(hs[1..]) == pinned - Live(hs)
    ensures (freed + multiset{hs[0].id}) + Live(hs[1..]) == freed + Live(hs)
  {
    var h := hs[0].id;
    assert Live(hs) == multiset{h} + Live(hs[1..]);
    MinusMinus(pinned, multiset{h}, Live(hs[1..]));
  }

  /**
   Releases every handle of the live prefix and empties the registry. The item,
   handle and result arrays keep their contents; only the live prefix shrinks.
   */
  function Clear(s: MultiVar): (r: MultiVar)
    requires Valid(s)
    ensures Valid(r)
    ensures r.count == 0 && r.pinned == multiset{}
    ensures r.freed == s.freed + s.pinned
    ensures r.items == s.items && r.handles == s.handles && r.results == s.results
    ensures r.nextHandle == s.nextHandle && r.calls == s.calls
  {
    var released := Release(s.handles[..s.count], s.pinned, s.freed);
    s.(count := 0, pinned := released.0, freed := released.1)
  }

  /** The item array after the transport has set the statuses it resolved. */
  function Deliver(items: seq<DataItem>, count: nat, statuses: seq<int32>): seq<DataItem> {
    seq(|items|, c requires 0 <= c < |items| =>
      if c < count && c < |statuses| then items[c].(result := statuses[c]) else items[c])
  }

  /**
   The results array after the copy loop. The loop runs over every one of the
   `MaxVars` slots, not only the live prefix, so each slot takes its own item's
   status whether or not that item was registered in this transaction.
   */
  function CopyResults(items: seq<DataItem>): (r: seq<int32>)
    requires |items| == MaxVars
    ensures |r| == MaxVars
    ensures forall c :: 0 <= c < MaxVars ==> r[c] == items[c].result
  {
    seq(MaxVars, c requires 0 <= c < MaxVars => items[c].result)
  }

  /**
   What one `Read` or `Write` does. Whatever the branch, the registry ends empty
   and every pinned handle has been freed. An empty registry is refused without a
   transport call and with nothing else changed. Otherwise the transport is called
   once on the item array and the live count, its code is returned unchanged, and
   it may set the status of live items only. On success every one of the
   `MaxVars` result slots is copied from its item, so a slot past the live prefix
   takes that item's stale status; on failure the results stay as they were.
   */
  ghost predicate TransactionOutcome(s: MultiVar, op: Op, transport: Transport, r: Completed)
    requires Valid(s)
  {
    && Valid(r.state)
    && r.state.count == 0
    && r.state.pinned == multiset{}
    && r.state.freed == s.freed + s.pinned
    && r.state.handles == s.handles
    && r.state.nextHandle == s.nextHandle
    && (s.count == 0 ==>
          && r.code == errCliFunctionRefused
          && r.state.calls == s.calls
          && r.state.items == s.items
          && r.state.results == s.results)
    && (s.count > 0 ==>
          var reply := transport(s.items, s.count);
          && r.code == reply.code
          && r.state.calls == s.calls + [Call(op, s.items, s.count)]
          && (forall c :: 0 <= c < MaxVars ==>
                r.state.items[c] == if c < s.count && c < |reply.statuses|
                                    then s.items[c].(result := reply.statuses[c])
                                    else s.items[c])
          && (reply.code == 0 ==> forall c :: 0 <= c < MaxVars ==>
                r.state.results[c] == if c < s.count && c < |reply.statuses|
                                      then reply.statuses[c]
                                      else s.items[c].result)
          && (reply.code != 0 ==> r.state.results == s.results))
  }

  /** The shared body of `Read` and `Write`; the clean-up runs on both branches. */
  function Transact(s: MultiVar, op: Op, transport: Transport): (r: Completed)
    requires Valid(s)
    ensures TransactionOutcome(s, op, transport, r)
  {
    if s.count > 0 then
      var reply := transport(s.items, s.count);
      var items := Deliver(s.items, s.count, reply.statuses);
      var results := if reply.code == 0 then CopyResults(items) else s.results;
      Completed(reply.code,
                Clear(s.(items := items, results := results,
                         calls := s.calls + [Call(op, s.items, s.count)])))
    else
      Completed(errCliFunctionRefused, Clear(s))
  }

  /** Reads every registered variable in one combined request. */
  function Read(s: MultiVar, readMultiVars: Transport): (r: Completed)
    requires Valid(s)
    ensures TransactionOutcome(s, ReadOp, readMultiVars, r)
  {
    Transact(s, ReadOp, readMultiVars)
  }

  /** Writes every registered variable in one combined request. */
  function Write(s: MultiVar, writeMultiVars: Transport): (r: Completed)
    requires Valid(s)
    ensures TransactionOutcome(s, WriteOp, writeMultiVars, r)
  {
    Transact(s, WriteOp, writeMultiVars)
  }
}
