/**
 * Values exchanged through the nRF block-device interface, as the UF2
 * adapter uses them: geometry, requests, events, result codes, control
 * requests, the adapter's working state and the calls it makes into the
 * backing store.
 */
module BlockDevTypes {

  /** One past the largest value of C's `uint32_t`. */
  const U32_LIMIT: int := 0x1_0000_0000

  type u32 = x: int | 0 <= x < U32_LIMIT

  /** A C pointer; `NULL` is address 0, which is also what zeroed memory holds. */
  type Address = nat

  const NULL: Address := 0

  /** The block size this adapter reports, and the stride of its request loops. */
  const BLOCK_SIZE: u32 := 512

  datatype Option<T> = None | Some(value: T)

  /** `nrf_block_dev_geometry_t`: block size in bytes and number of blocks. */
  datatype Geometry = Geometry(blkSize: u32, blkCount: u32)

  /** `nrf_block_dev_event_type_t`. */
  datatype EventKind = EvtInit | EvtUninit | EvtBlkReadDone | EvtBlkWriteDone

  /** The only event result this adapter ever reports. */
  datatype EventResult = ResultSuccess

  /**
   * `nrf_block_req_t`: `blkCount` contiguous blocks starting at `blkId`,
   * transferred through the caller's buffer at address `buff`.
   */
  datatype Request = Request(blkId: u32, blkCount: u32, buff: Address)

  /**
   * `nrf_block_dev_event_t`: the request reference is `None` (NULL) for
   * lifecycle events and the triggering request for completions.
   */
  datatype Event = Event(kind: EventKind, result: EventResult, request: Option<Request>, context: Address)

  /** `nrf_block_dev_uf2_work_t`: geometry, event handler and context. */
  datatype WorkState = WorkState(geometry: Geometry, handler: Address, context: Address)

  /** The working state with every byte cleared. */
  function ZeroWork(): WorkState {
    WorkState(Geometry(0, 0), NULL, NULL)
  }

  /** The `ret_code_t` values the adapter returns. */
  datatype RetCode = NrfSuccess | NrfErrorInvalidParam | NrfErrorNotSupported

  /** `nrf_block_dev_ioctl_req_t`; any value other than the two known ones is `OtherReq`. */
  datatype IoctlReq = CacheFlush | InfoStringsReq | OtherReq(code: nat)

  /** `nrf_block_dev_info_strings_t`: the device's identification labels. */
  datatype InfoStrings = InfoStrings(vendor: string, product: string, revision: string)

  /** What `ioctl` stores through its `p_data` slot. */
  datatype SlotValue = Flushing(flag: bool) | StringsRef(strings: InfoStrings)

  /** The backing store's write accumulator; its contents are opaque, only its identity matters. */
  class WriteState { }

  /**
   * One call into the backing store: `read_block(blockNo, buff + offset)` or
   * `write_block(blockNo, buff + offset, quiet, state)`.
   */
  datatype BlockCall =
    | Read(blockNo: u32, offset: u32)
    | Write(blockNo: u32, offset: u32, quiet: bool, state: WriteState)
}
