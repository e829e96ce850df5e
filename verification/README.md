# S7MultiVar: the multi-variable read/write helper of Sharp7

Sharp7's `S7MultiVar` batches several controller variables into one combined
transaction. Callers register items with one of four `Add` overloads. Each
registration does three things:

- normalises the item's addressing to the word lengths the wire protocol
  carries;
- pins the caller's buffer;
- stores a descriptor in a fixed-capacity registry of `MaxVars` slots.

`Read` and `Write` then pass the whole descriptor array to the client's
combined transport in one call. On overall success they copy the per-item
statuses into the public `Results` array. Whatever the outcome, `Clear` then
frees every pinned buffer and empties the registry.

The model has four modules:

- `S7Consts` (s7consts.dfy): the C# `int` type with explicit wrap-around
  (`Wrap32`), the memory-area, word-length and error-code constants, and the
  word-size table type.
- `WordLength` (wordlength.dfy): the address normaliser `AdjustWordLength`.
  It comes with an independent reference meaning of a request (`Requested`) and
  of a normalised item as the transport reads it (`OnWire`). Normalisation is
  proved to preserve that meaning.
- `S7MultiVar` (multivar.dfy): the helper's state and its operations.
  - The state is one immutable `MultiVar` value, and each operation is a
    function from the old state to the new one.
  - Buffer pinning is tracked with handle ids. `pinned` holds the handles
    currently pinned, `freed` those released so far, and `nextHandle` the next
    id to hand out.
  - The invariant `Valid` says that the live slots hold exactly the pinned
    handles, and that pinned and freed together are exactly the handles issued
    so far, each once.
  - Every call to the transport is logged in `calls`.
- `MultiVarProperties` (properties.dfy): properties of whole sessions, such
  as batches of additions, the release discipline, and the contents of the
  results array.

Three collaborators outside the class are parameters of the model rather than
code:

- the client's combined read and write primitives: a `Transport` function from
  the item array and the live count to a `Reply`;
- the word-size table `S7.DataSizeByte`: a `SizeTable` function, where 0 means
  an unknown word length;
- the marshalled element size of the buffer's type: a positive `ElemSize`.

The constants belong to the client library, which is not part of this model.
They are written with the values of the Snap7 family of clients. The proofs use
only that the codes are distinct and that the two error codes are non-zero.

Two behaviours of the code are easy to misread:

- After a successful transaction, the copy loop runs over all `MaxVars` slots,
  not only the live ones. A slot past the live prefix therefore takes the
  status stored in that item slot. On a fresh helper that is the default 0, not
  "item not available" (`FreshReadOverwritesTrailingSlots`).
- After a failed transaction, the `Results` array is left exactly as it was.
  Only the descriptors carry whatever statuses the transport set
  (`TransactionOutcome`, `FailedWriteKeepsResults`).

## Model

| member | source | states |
|---|---|---|
| S7Consts.Wrap32 | Sharp7/S7MultiVar.cs:36-37 | The C# `int` value of an exact product: unchanged when in range, and otherwise congruent modulo 2^32 and inside the `int` range. |
| WordLength.AdjustWordLength | Sharp7/S7MultiVar.cs:16-42 | A request is accepted exactly when its word length has a non-zero size, and a refused request keeps its fields. An accepted request always ends with a bit, byte, counter or timer word length. The counter and timer areas force their own word length and keep amount and start, and so does a counter or timer word length in any area. |
| WordLength.AdjustPreservesExtent | Sharp7/S7MultiVar.cs:23-41 | When the request is a byte run whose rescaled byte count and bit address fit an `int` (and for every other kind of request unconditionally), the normalised item read as the transport reads it addresses exactly the extent the caller requested. This holds for a bit, a byte run, a counter/timer run, and a refusal addressing nothing. |
| WordLength.BitRequestMovesOneBit | Sharp7/S7MultiVar.cs:28-31 | A bit request outside the counter and timer areas becomes a one-bit transfer at the same bit address, whatever amount was asked for. |
| WordLength.OtherKindsBecomeBytes | Sharp7/S7MultiVar.cs:32-39 | Any other non-counter, non-timer word length becomes a byte run. Its amount is scaled by the word size and its start by 8, both with `int` wrap-around. |
| WordLength.ByteExample | Sharp7/S7MultiVar.cs:34-39 | Four bytes from byte 3 become a 4-byte run at bit address 24. |
| WordLength.BitExample | Sharp7/S7MultiVar.cs:28-31 | Five bits requested become a single bit. |
| S7MultiVar.LiveAppend | Sharp7/S7MultiVar.cs:95-96 | Allocating a handle in the next slot adds exactly that handle to the live handles. |
| S7MultiVar.IssuedOnce | Sharp7/S7MultiVar.cs:83 | Each allocation hands out a fresh handle: every id below the counter has been issued exactly once. |
| S7MultiVar.Init | Sharp7/S7MultiVar.cs:44-49 | A new helper is valid and empty: nothing pinned or freed, no transport calls, every result slot reads "item not available", and every descriptor is all-zero. |
| S7MultiVar.DataAt | Sharp7/S7MultiVar.cs:89-93 | An item's data address is tagged with the caller's buffer and sits at offset times element size bytes (exact when that fits an `int`); offset 0 is the buffer's start. |
| S7MultiVar.Append | Sharp7/S7MultiVar.cs:77-96 | Storing a descriptor writes the first free slot only. It pins one fresh handle in that slot, grows the live prefix by one and keeps the invariant. |
| S7MultiVar.AddAt | Sharp7/S7MultiVar.cs:71-104 | Succeeds exactly when there is room and the word length is known. On success the normalised descriptor with status "item not available" goes into the next slot, one fresh handle is pinned, and nothing else changes. On failure the state is untouched. |
| S7MultiVar.Add | Sharp7/S7MultiVar.cs:66-69 | The same outcome as the offset overload, with the data at the buffer's first byte. |
| S7MultiVar.AddTagAt | Sharp7/S7MultiVar.cs:56-59 | The same outcome as registering the tag's area, word length, block, start and element count field by field. |
| S7MultiVar.AddTag | Sharp7/S7MultiVar.cs:61-64 | The same outcome for a tag, with the data at the buffer's first byte. |
| S7MultiVar.Release | Sharp7/S7MultiVar.cs:170-176 | Freeing a run of allocated slots moves exactly their handles from pinned to freed. |
| S7MultiVar.ReleaseStep | Sharp7/S7MultiVar.cs:170-176 | After the first slot of a run is freed, the rest of the run is still allocated and pinned, and freeing it completes the same totals. |
| S7MultiVar.Clear | Sharp7/S7MultiVar.cs:168-178 | Every pinned handle is freed, nothing stays pinned, the live count becomes 0 and the invariant holds. The descriptors, slots, results and call log are untouched. |
| S7MultiVar.Transact | Sharp7/S7MultiVar.cs:106-166 | The shared body of Read and Write. An empty registry is refused, and otherwise the transport is called exactly once. Results are copied only on a zero code. The registry is cleared on both branches. |
| S7MultiVar.CopyResults | Sharp7/S7MultiVar.cs:117-120 | The copy loop fills all `MaxVars` result slots, each from its own item's status, whether or not that item is live. |
| S7MultiVar.Read | Sharp7/S7MultiVar.cs:106-135 | An empty registry is refused with no transport call. Otherwise the transport is called once, on the descriptors and the live count, and its code is returned. On success every result slot copies its descriptor's status; on failure the results are unchanged. Either way the registry ends empty with every handle freed. |
| S7MultiVar.Write | Sharp7/S7MultiVar.cs:137-166 | As for Read, with the write primitive. |
| MultiVarProperties.AddAll | Sharp7/S7MultiVar.cs:71-104 | A sequence of additions only grows the registry. It leaves slots past the new end, the results, the freed handles and the call log unchanged, and keeps the invariant. |
| MultiVarProperties.AddStep | Sharp7/S7MultiVar.cs:73 | With a known word length, an addition succeeds exactly when there is room, and the count becomes the smaller of count + 1 and `MaxVars`. |
| MultiVarProperties.CapacityCount | Sharp7/S7MultiVar.cs:73 | After a batch of additions with known word lengths, the registry holds the smaller of count + batch size and `MaxVars` items. |
| MultiVarProperties.CapacityFlags | Sharp7/S7MultiVar.cs:73 | The i-th addition of such a batch returns true exactly when count + i is below `MaxVars`. |
| MultiVarProperties.OneTooMany | Sharp7/S7MultiVar.cs:73 | Starting from an empty registry, the first `MaxVars` additions succeed, the next one fails, and the registry ends full. |
| MultiVarProperties.HandlesAccounted | Sharp7/S7MultiVar.cs:170-176 | Every issued handle is either pinned or freed, exactly once. No handle is ever freed twice. |
| MultiVarProperties.TransactionFreesEveryHandle | Sharp7/S7MultiVar.cs:130-133 | After a transaction every handle ever allocated is freed exactly once. The handles pinned before it had not been freed before and are freed by it. |
| MultiVarProperties.ClearEmptyIsNoop | Sharp7/S7MultiVar.cs:168-178 | Clearing an empty registry changes nothing. |
| MultiVarProperties.ClearIdempotent | Sharp7/S7MultiVar.cs:168-178 | Clearing twice is the same as clearing once. |
| MultiVarProperties.EchoReadSucceeds | Sharp7/S7MultiVar.cs:114-123 | With a transport that reports success for every live item, a read returns 0 and every live result slot reads 0. |
| MultiVarProperties.SuccessCopiesTrailingSlots | Sharp7/S7MultiVar.cs:115-120 | After a successful read, every slot past the live prefix holds the status stored in its own item, which no transport call touched. |
| MultiVarProperties.FreshReadOverwritesTrailingSlots | Sharp7/S7MultiVar.cs:115-120 | After registrations on a fresh helper and a successful read, the slots past the registered items read 0, not "item not available". |
| MultiVarProperties.FailedWriteKeepsResults | Sharp7/S7MultiVar.cs:145-163 | A failed write on a fresh helper returns the transport's code. It leaves every result slot at "item not available" and still empties the registry and unpins everything. |
| MultiVarProperties.ThreeItemRead | Sharp7/S7MultiVar.cs:66-135 | A bit, a two-byte word and a counter, read through an all-success transport, give code 0, results 0, 0, 0, an empty registry and nothing pinned. The word travels as two bytes at bit address 16. |

## Left out

- Memory addresses: `GCHandle.Alloc`, `AddrOfPinnedObject` and the `IntPtr` arithmetic for 4- and 8-byte pointers (both compilation branches) are replaced by an abstract buffer id plus a byte offset. The model does not represent raw addresses.
- `Marshal.SizeOf` of the buffer's element type is a parameter, because the model has no runtime type information.
- The client's `ReadMultiVars`/`WriteMultiVars` and the S7 protocol behind them are a `Transport` parameter. They are outside this class.
- `S7.DataSizeByte` and the `S7Consts` values come from client code that is not part of this model. The table is a parameter, and the constants carry the Snap7 values.
- The public `Results` field can be reassigned by a caller. The model keeps it at `MaxVars` entries (`Valid`), so the exception the copy loop (lines 117-120, 148-151) throws for a shorter or null array is not modelled. In the C# code that exception replaces the transport's return code, and `Clear` still runs in the `finally` block.
- Exceptions thrown by the transport are not modelled. The `finally` block is captured as cleanup that runs on both branches.
- The finalizer (`~S7MultiVar` calling `Clear`) and thread safety are left out, because the model has no garbage collector and no concurrency.
- The `Handles[c] != null` test in `Clear` is always true for a struct. Instead, `Valid` states that every live slot holds an allocated handle.
- WordLength.AdjustPreservesExtent: for byte runs, holds only when the rescaled amount and the bit address fit a C# `int`. Outside that range the code wraps around, and `OtherKindsBecomeBytes` states the wrapped values. Bit, counter and timer requests are not rescaled, and the lemma covers them unconditionally.
- S7MultiVar.AddAt: exception paths are left out; the model's allocation never fails. In the C# code, `GCHandle.Alloc` (line 83) runs after the descriptor slot has been overwritten (lines 77-82); if it throws for an element type that cannot be pinned, `Add` exits with that slot changed and the count unchanged, and, unless a later successful addition overwrites that slot first, the next successful transaction copies its "item not available" into `Results`. If `Marshal.SizeOf` throws after `Alloc`, the pinned handle is never stored in `Handles` and `Clear` never frees it. Neither path is modelled, because the runtime's pinning rules and type information are outside the model.
