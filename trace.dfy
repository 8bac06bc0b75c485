/**
 * The request translator: the sequence of backing-store calls that one
 * block request turns into, and what that sequence is promised to be.
 */
module RequestTrace {
  import opened BlockDevTypes

  /** Block number of loop iteration `i`, computed in `uint32_t` as `blk_id + i`. */
  function BlockNo(req: Request, i: nat): u32 {
    (req.blkId + i) % U32_LIMIT
  }

  /** Buffer offset of loop iteration `i`, computed in `uint32_t` as `i * 512`. */
  function Offset(i: nat): u32 {
    (i * BLOCK_SIZE) % U32_LIMIT
  }

  /**
   * The call made by iteration `i`: a read when the completion event is
   * READ_DONE, otherwise a non-quiet write threading the shared `wr`.
   */
  function CallAt(event: EventKind, req: Request, wr: WriteState, i: nat): BlockCall {
    if event == EvtBlkReadDone then Read(BlockNo(req, i), Offset(i))
    else Write(BlockNo(req, i), Offset(i), false, wr)
  }

  /** The calls made by the first `n` iterations of the request loop, in order. */
  function ReqCalls(event: EventKind, req: Request, wr: WriteState, n: nat): (t: seq<BlockCall>)
    ensures |t| == n
    ensures forall i :: 0 <= i < n ==> t[i] == CallAt(event, req, wr, i)
  {
    if n == 0 then [] else ReqCalls(event, req, wr, n - 1) + [CallAt(event, req, wr, n - 1)]
  }

  /**
   * What a caller must guarantee: the run of blocks lies inside the device,
   * and the caller's buffer of `blkCount * 512` bytes fits the 32-bit
   * address space.
   */
  predicate RequestFits(req: Request, geometry: Geometry) {
    && req.blkId + req.blkCount <= geometry.blkCount
    && req.blkCount * BLOCK_SIZE <= U32_LIMIT
  }

  /**
   * Reference statement of the translation: exactly `blkCount` calls, call
   * `i` on block `blkId + i` at buffer offset `i * 512`, all reads for a
   * READ_DONE request and otherwise all non-quiet writes through `wr`.
   */
  ghost predicate IsRequestTrace(t: seq<BlockCall>, event: EventKind, req: Request, wr: WriteState) {
    && |t| == req.blkCount
    && forall i :: 0 <= i < |t| ==>
         && t[i].blockNo == req.blkId + i
         && t[i].offset == i * BLOCK_SIZE
         && (if event == EvtBlkReadDone then t[i].Read?
             else t[i].Write? && !t[i].quiet && t[i].state == wr)
  }

  /** The loop's trace meets the reference statement: no 32-bit value wraps. */
  lemma RequestTraceCorrect(event: EventKind, req: Request, wr: WriteState, geometry: Geometry)
    requires RequestFits(req, geometry)
    ensures IsRequestTrace(ReqCalls(event, req, wr, req.blkCount), event, req, wr)
  {
  }

  /** Conversely, the reference statement admits no trace but the loop's. */
  lemma RequestTraceUnique(t: seq<BlockCall>, event: EventKind, req: Request, wr: WriteState, geometry: Geometry)
    requires RequestFits(req, geometry)
    requires IsRequestTrace(t, event, req, wr)
    ensures t == ReqCalls(event, req, wr, req.blkCount)
  {
  }

  /**
   * Calls go to strictly ascending blocks, and each one's 512-byte slice of
   * the buffer lies wholly below the next one's.
   */
  lemma RequestTraceAscending(t: seq<BlockCall>, event: EventKind, req: Request, wr: WriteState)
    requires IsRequestTrace(t, event, req, wr)
    ensures forall i, j :: 0 <= i < j < |t| ==>
              t[i].blockNo < t[j].blockNo && t[i].offset + BLOCK_SIZE <= t[j].offset
  {
  }

  /** An empty request makes no backing-store call at all. */
  lemma EmptyRequestNoCalls(event: EventKind, req: Request, wr: WriteState)
    requires req.blkCount == 0
    ensures ReqCalls(event, req, wr, req.blkCount) == []
  {
  }
}
