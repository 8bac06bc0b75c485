# UF2 block device adapter, modelled in Dafny

This project models the UF2 block-device adapter of the uf2-nrf5 bootloader.
The adapter implements the nRF block-device operation table: `init`,
`uninit`, `read_req`, `write_req`, `ioctl` and `geometry`. It runs over two
single-block primitives of the UF2 virtual disk, `read_block` and
`write_block`.

- `types.dfy` (module `BlockDevTypes`) holds the values of the interface:
  - geometry, block requests, events and return codes;
  - control requests and what they store;
  - the working state, with `ZeroWork()` as its cleared form;
  - the record of one backing-store call.
  C's `uint32_t` is the subset type `u32`. A C pointer is an `Address`, where
  `NULL` is 0.
- `trace.dfy` (module `RequestTrace`) holds the request translator.
  - `ReqCalls` is the sequence of backing-store calls that the request loop
    makes. It uses the loop's own 32-bit arithmetic for block numbers and
    buffer offsets.
  - `IsRequestTrace` states independently what that sequence must be.
  - The lemmas connect the two in both directions and derive ascending order.
- `device.dfy` (module `BlockDevUf2`) holds the class `Device`.
  - `work` is the working state that `init` fills in and `uninit` clears.
  - `calls` records every call into the backing store, in order.
  - `events` records every event delivered to the handler, in order.
  - `deliveries` is a ghost log. For each event it records the handler that
    received it and how many backing-store calls had been made by then.
    This places every event relative to the calls.
  - The methods follow the C functions one for one.
  - `Valid()` is the invariant that the working state is either all zero or
    carries the 512-byte geometry.
  - `UninitTwice` and `Session` are clients that show what the contracts give
    a caller.

Each request carries two preconditions: the device is initialised, and the
request lies inside the geometry (`RequestFits`). The adapter checks neither;
callers must guarantee both. `RequestFits` also demands that the caller's
buffer of `blkCount * 512` bytes fits the 32-bit address space. Under these
preconditions, no 32-bit block number or offset wraps.

Three facts about the C source shape the model:
- `block_dev_uf2_req` issues reads only when `event` is READ_DONE and writes
  for every other value (src/nrf_block_dev_uf2.c:121-127). `Device.Req` keeps
  that branch.
- `block_dev_uf2_init` does not look at the current working state. It
  overwrites it (src/nrf_block_dev_uf2.c:58-61), so `Device.Init` asks for
  nothing more than the class invariant.
- The working-state struct holds only the geometry, the handler and the
  context. It has no "initialised" field. `Initialized()` means that the
  working state is not all zero.

## Model

| member | source | states |
|---|---|---|
| BlockDevUf2.Device.constructor | src/nrf_block_dev_uf2.c:101-105 | The device is bound to the block count, its info strings and the one shared `WriteState` (the `static WriteState wrState` of line 105). It starts with a zeroed working state and empty logs. That zeroing comes from the static device definition, which is in a header that is not part of this model. |
| BlockDevUf2.Device.Init | src/nrf_block_dev_uf2.c:50-76 | It returns success. It stores geometry 512 / `numBlocks` together with the given handler and context. It delivers exactly one INIT event (success, no request, the stored context) to the newly stored handler when that handler is non-NULL, and none otherwise. The device is then initialised. |
| BlockDevUf2.Device.Uninit | src/nrf_block_dev_uf2.c:78-99 | It returns success. When a handler was registered, it delivers one UNINIT event to that handler, carrying the context held before clearing. The working state then becomes `ZeroWork()`. On an already cleared device it delivers nothing. |
| BlockDevUf2.UninitTwice | src/nrf_block_dev_uf2.c:84-98 | `uninit` is idempotent. Two calls deliver only what the first delivers, and the state stays zeroed. |
| BlockDevUf2.Device.Deliver | src/nrf_block_dev_uf2.c:139 | Calling the stored, non-NULL handler appends exactly that event to the event log. It also records that handler and the number of backing-store calls made so far. |
| BlockDevUf2.Device.ReadBlock | src/nrf_block_dev_uf2.c:102 | one `read_block` call appends one read of that block and offset to the call log |
| BlockDevUf2.Device.WriteBlock | src/nrf_block_dev_uf2.c:101 | one `write_block` call appends one write with those arguments to the call log |
| BlockDevUf2.Device.Req | src/nrf_block_dev_uf2.c:107-143 | It returns success and leaves the working state untouched. It issues exactly the calls of `ReqCalls`, which meet `IsRequestTrace`: `blkCount` calls in ascending order, where call i targets block `blkId + i` at offset `i * 512`. The calls are reads for READ_DONE and writes otherwise. When a handler is registered, it then delivers exactly one event of the given kind, with success, the request and the stored context. That event is recorded as delivered to the stored handler after `|old(calls)| + blkCount` calls, so it follows every block call. |
| BlockDevUf2.Device.ReadReq | src/nrf_block_dev_uf2.c:145-149 | only `read_block` calls, on blocks `blkId + i` at offsets `i * 512`, then, after all of those calls, one READ_DONE event referring to the request |
| BlockDevUf2.Device.WriteReq | src/nrf_block_dev_uf2.c:151-155 | only `write_block` calls, with `quiet == false` and the shared `wrState`, on blocks `blkId + i` at offsets `i * 512`, then, after all of those calls, one WRITE_DONE event referring to the request |
| BlockDevUf2.Notify | src/nrf_block_dev_uf2.c:129-140 | It yields one event when a handler is registered and none when it is NULL. That event has the given kind, a success result, the given request reference and the stored context. |
| RequestTrace.ReqCalls | src/nrf_block_dev_uf2.c:121-127 | the first n loop iterations make exactly n calls, and position i holds iteration i's call |
| RequestTrace.RequestTraceCorrect | src/nrf_block_dev_uf2.c:121-127 | For a request that fits, the loop's calls have exactly `blkCount` entries. Entry i is on block `blkId + i` at offset `i * 512`, with no 32-bit wrap. The entries are reads for READ_DONE. Otherwise they are non-quiet writes through `wrState`. |
| RequestTrace.RequestTraceUnique | src/nrf_block_dev_uf2.c:121-127 | any trace meeting that description is the loop's trace, so the description fixes the calls completely |
| RequestTrace.RequestTraceAscending | src/nrf_block_dev_uf2.c:122-126 | block numbers strictly ascend. Each call's 512-byte buffer slice lies below the next one's, so the slices do not overlap. |
| RequestTrace.EmptyRequestNoCalls | src/nrf_block_dev_uf2.c:122-125 | a request for zero blocks makes no backing-store call |
| BlockDevUf2.Device.Ioctl | src/nrf_block_dev_uf2.c:157-189 | CACHE_FLUSH returns success and stores `false` exactly when a slot is present. INFO_STRINGS without a slot returns INVALID_PARAM and stores nothing. INFO_STRINGS with a slot returns success and stores the device's info strings. Any other request returns NOT_SUPPORTED. The result is success iff one of the two successful cases holds. A slot is written only on success. |
| BlockDevUf2.Device.CurrentGeometry | src/nrf_block_dev_uf2.c:192-199 | It returns the stored geometry. That is 512 / `numBlocks` once initialised and 0 / 0 when cleared. |
| BlockDevUf2.Session | src/nrf_block_dev_uf2.c:201-208 | Init, write, read and uninit run through the operation table with a handler registered. The handler sees exactly INIT, WRITE_DONE, READ_DONE and UNINIT, in that order, each with the init context. WRITE_DONE comes after all the writes and READ_DONE after all the reads. The store sees the run's writes, then its reads. |

## Left out

- The bodies of `read_block` and `write_block` and the contents of `WriteState` belong to the UF2 virtual disk, which is not part of this model. Each call is only recorded. Nothing is claimed about the data they move, so there is no write-then-read round trip.
- The value of `UF2_NUM_BLOCKS` and the layout of `nrf_block_dev_info_strings_t` come from headers that are not part of this model. The block count is a constant of each `Device`, and the info strings are an opaque value.
- `static WriteState wrState` is a single object shared by every device. The model passes that one `WriteState` object to the constructor.
- The event handler's own behaviour is not modelled. A handler call is an append to `events`, with the receiving handler's address recorded in `deliveries`. The device pointer passed along with each event is always the device itself, so it is not recorded.
- The dead `p_buff` computation at src/nrf_block_dev_uf2.c:118-119 is not modelled. It never affects what the request does.
- `CONTAINER_OF`, `ASSERT` and the byte-level effect of `memset` are not modelled. Clearing is the assignment of `ZeroWork()`.
- Bounds and initialisation are never checked by the adapter. They appear as preconditions of the request methods, not as error results.
- The operation table at src/nrf_block_dev_uf2.c:201-208 is not modelled as a value. Each of its slots is the `Device` method of the same name.
- Caller memory written by `ioctl` is modelled as the out-parameter `written`. Aliasing between `p_data` and other memory is not modelled.
- CurrentGeometry, Ioctl and the `request` field of events are value copies without pointer identity. The source returns `&p_work->geometry` (src/nrf_block_dev_uf2.c:198), stores `&p_ram_dev->info_strings` (line 181) and passes `p_blk` (line 135). A caller's copy of the geometry is therefore not zeroed by a later `uninit`, as memory behind the returned pointer would be, and two equal requests are not told apart.
