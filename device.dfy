/**
 * The UF2 block-device adapter: a device whose working state `init` fills
 * in and `uninit` clears, whose read and write requests become runs of
 * single-block calls into the backing store, and which reports each
 * operation to an optional event handler.
 *
 * The backing store and the handler are outside this model: every call
 * into either is recorded, in order, in `calls` and `events`, and for each
 * delivered event `deliveries` records which handler received it and how
 * many backing-store calls had been made by then.
 */
module BlockDevUf2 {
  import opened BlockDevTypes
  import opened RequestTrace

  /** The geometry `init` stores: 512-byte blocks, `numBlocks` of them. */
  function Uf2Geometry(numBlocks: u32): Geometry {
    Geometry(BLOCK_SIZE, numBlocks)
  }

  /**
   * The events one operation delivers under working state `work`: exactly
   * one, successful and carrying the stored context, when a handler is
   * registered, and none otherwise.
   */
  function Notify(work: WorkState, kind: EventKind, req: Option<Request>): (evs: seq<Event>)
    ensures |evs| == (if work.handler == NULL then 0 else 1)
    ensures forall e :: e in evs ==>
              e.kind == kind && e.result == ResultSuccess && e.request == req && e.context == work.context
  {
    if work.handler == NULL then [] else [Event(kind, ResultSuccess, req, work.context)]
  }

  /** The handler an event went to, and the length of the call log when it did. */
  datatype Delivery = Delivery(handler: Address, callsBefore: nat)

  /**
   * The delivery record of the event `Notify(work, ...)` yields, made once
   * `n` backing-store calls have been issued.
   */
  function Stamp(work: WorkState, n: nat): seq<Delivery> {
    if work.handler == NULL then [] else [Delivery(work.handler, n)]
  }

  class Device {
    /** The virtual disk's block count, fixed when the firmware is built. */
    const numBlocks: u32
    /** The identification labels `ioctl` hands out. */
    const infoStrings: InfoStrings
    /** The single write accumulator threaded through every write. */
    const wrState: WriteState

    /** The working state `init` and `uninit` update in place. */
    var work: WorkState
    /** Every backing-store call made so far, oldest first. */
    var calls: seq<BlockCall>
    /** Every event delivered to a handler so far, oldest first. */
    var events: seq<Event>
    /** For `events[k]`: the handler that received it and the calls made before it. */
    ghost var deliveries: seq<Delivery>

    /** The working state is either fully cleared or carries the adapter's geometry. */
    ghost predicate Valid()
      reads this
    {
      && (work == ZeroWork() || work.geometry == Uf2Geometry(numBlocks))
      && |deliveries| == |events|
      && forall k :: 0 <= k < |deliveries| ==>
           deliveries[k].handler != NULL && deliveries[k].callsBefore <= |calls|
    }

    predicate Initialized()
      reads this
    {
      work != ZeroWork()
    }

    /** A device as linked into the firmware: its working state is zero-initialised. */
    constructor (numBlocks: u32, infoStrings: InfoStrings, wrState: WriteState)
      ensures Valid() && !Initialized()
      ensures this.numBlocks == numBlocks && this.infoStrings == infoStrings && this.wrState == wrState
      ensures work == ZeroWork() && calls == [] && events == [] && deliveries == []
    {
      this.numBlocks := numBlocks;
      this.infoStrings := infoStrings;
      this.wrState := wrState;
      work := ZeroWork();
      calls := [];
      events := [];
      deliveries := [];
    }

    /** Invokes the registered event handler on `ev`. */
    method Deliver(ev: Event)
      requires Valid() && work.handler != NULL
      modifies this`events, this`deliveries
      ensures Valid()
      ensures events == old(events) + [ev]
      ensures deliveries == old(deliveries) + [Delivery(work.handler, |calls|)]
    {
      events := events + [ev];
      deliveries := deliveries + [Delivery(work.handler, |calls|)];
    }

    /** The backing store's `read_block` into the request buffer at `offset`. */
    method ReadBlock(blockNo: u32, offset: u32)
      requires Valid()
      modifies this`calls
      ensures Valid()
      ensures calls == old(calls) + [Read(blockNo, offset)]
    {
      calls := calls + [Read(blockNo, offset)];
    }

    /** The backing store's `write_block` from the request buffer at `offset`. */
    method WriteBlock(blockNo: u32, offset: u32, quiet: bool, state: WriteState)
      requires Valid()
      modifies this`calls
      ensures Valid()
      ensures calls == old(calls) + [Write(blockNo, offset, quiet, state)]
    {
      calls := calls + [Write(blockNo, offset, quiet, state)];
    }

    /**
     * Stores the adapter's geometry, the handler and the context, then
     * reports INIT to the handler if there is one. Always succeeds.
     */
    method Init(handler: Address, context: Address) returns (r: RetCode)
      requires Valid()
      modifies this`work, this`events, this`deliveries
      ensures Valid() && Initialized()
      ensures r == NrfSuccess
      ensures work == WorkState(Uf2Geometry(numBlocks), handler, context)
      ensures events == old(events) + Notify(work, EvtInit, None)
      ensures deliveries == old(deliveries) + Stamp(work, |calls|)
    {
      work := work.(geometry := Geometry(BLOCK_SIZE, numBlocks), context := context, handler := handler);
      if work.handler != NULL {
        Deliver(Event(EvtInit, ResultSuccess, None, work.context));
      }
      r := NrfSuccess;
    }

    /**
     * Reports UNINIT, with the context held before clearing, to the handler
     * if there is one, then clears the whole working state. Always succeeds.
     */
    method Uninit() returns (r: RetCode)
      requires Valid()
      modifies this`work, this`events, this`deliveries
      ensures Valid() && !Initialized()
      ensures r == NrfSuccess
      ensures work == ZeroWork()
      ensures events == old(events) + Notify(old(work), EvtUninit, None)
      ensures deliveries == old(deliveries) + Stamp(old(work), |calls|)
      ensures old(work) == ZeroWork() ==> events == old(events) && deliveries == old(deliveries)
    {
      if work.handler != NULL {
        Deliver(Event(EvtUninit, ResultSuccess, None, work.context));
      }
      work := ZeroWork();
      r := NrfSuccess;
    }

    /**
     * Transfers the request's blocks one at a time in ascending order (reads
     * when `event` is READ_DONE, writes otherwise), then reports `event` to
     * the handler if there is one. Always succeeds; the working state is
     * left as it was.
     */
    method Req(req: Request, event: EventKind) returns (r: RetCode)
      requires Valid() && Initialized() && RequestFits(req, work.geometry)
      modifies this`calls, this`events, this`deliveries
      ensures Valid()
      ensures r == NrfSuccess
      ensures calls == old(calls) + ReqCalls(event, req, wrState, req.blkCount)
      ensures IsRequestTrace(calls[|old(calls)|..], event, req, wrState)
      ensures events == old(events) + Notify(work, event, Some(req))
      ensures deliveries == old(deliveries) + Stamp(work, |old(calls)| + req.blkCount)
    {
      if event == EvtBlkReadDone {
        var i: nat := 0;
        while i < req.blkCount
          invariant i <= req.blkCount
          invariant Valid()
          invariant calls == old(calls) + ReqCalls(event, req, wrState, i)
          invariant events == old(events) && deliveries == old(deliveries)
        {
          ReadBlock(BlockNo(req, i), Offset(i));
          i := i + 1;
        }
      } else {
        var i: nat := 0;
        while i < req.blkCount
          invariant i <= req.blkCount
          invariant Valid()
          invariant calls == old(calls) + ReqCalls(event, req, wrState, i)
          invariant events == old(events) && deliveries == old(deliveries)
        {
          WriteBlock(BlockNo(req, i), Offset(i), false, wrState);
          i := i + 1;
        }
      }
      assert calls[|old(calls)|..] == ReqCalls(event, req, wrState, req.blkCount);
      RequestTraceCorrect(event, req, wrState, work.geometry);

      if work.handler != NULL {
        Deliver(Event(event, ResultSuccess, Some(req), work.context));
      }
      r := NrfSuccess;
    }

    /** A read request: only `read_block` calls, then READ_DONE. */
    method ReadReq(req: Request) returns (r: RetCode)
      requires Valid() && Initialized() && RequestFits(req, work.geometry)
      modifies this`calls, this`events, this`deliveries
      ensures Valid()
      ensures r == NrfSuccess
      ensures calls == old(calls) + ReqCalls(EvtBlkReadDone, req, wrState, req.blkCount)
      ensures IsRequestTrace(calls[|old(calls)|..], EvtBlkReadDone, req, wrState)
      ensures events == old(events) + Notify(work, EvtBlkReadDone, Some(req))
      ensures deliveries == old(deliveries) + Stamp(work, |old(calls)| + req.blkCount)
    {
      r := Req(req, EvtBlkReadDone);
    }

    /** A write request: only non-quiet `write_block` calls through `wrState`, then WRITE_DONE. */
    method WriteReq(req: Request) returns (r: RetCode)
      requires Valid() && Initialized() && RequestFits(req, work.geometry)
      modifies this`calls, this`events, this`deliveries
      ensures Valid()
      ensures r == NrfSuccess
      ensures calls == old(calls) + ReqCalls(EvtBlkWriteDone, req, wrState, req.blkCount)
      ensures IsRequestTrace(calls[|old(calls)|..], EvtBlkWriteDone, req, wrState)
      ensures events == old(events) + Notify(work, EvtBlkWriteDone, Some(req))
      ensures deliveries == old(deliveries) + Stamp(work, |old(calls)| + req.blkCount)
    {
      r := Req(req, EvtBlkWriteDone);
    }

    /**
     * Control requests. `hasSlot` says whether `p_data` is non-NULL;
     * `written` is what ends up stored through it, if anything.
     */
    method Ioctl(req: IoctlReq, hasSlot: bool) returns (r: RetCode, written: Option<SlotValue>)
      ensures req == CacheFlush ==>
                r == NrfSuccess && written == (if hasSlot then Some(Flushing(false)) else None)
      ensures req == InfoStringsReq && !hasSlot ==> r == NrfErrorInvalidParam && written == None
      ensures req == InfoStringsReq && hasSlot ==> r == NrfSuccess && written == Some(StringsRef(infoStrings))
      ensures req.OtherReq? ==> r == NrfErrorNotSupported && written == None
      ensures r == NrfSuccess <==> req == CacheFlush || (req == InfoStringsReq && hasSlot)
      ensures written.Some? ==> hasSlot && r == NrfSuccess
    {
      match req
      case CacheFlush =>
        written := if hasSlot then Some(Flushing(false)) else None;
        r := NrfSuccess;
      case InfoStringsReq =>
        if !hasSlot {
          return NrfErrorInvalidParam, None;
        }
        written := Some(StringsRef(infoStrings));
        r := NrfSuccess;
      case OtherReq(_) =>
        written := None;
        r := NrfErrorNotSupported;
    }

    /** The stored geometry: the adapter's own once initialised, all zero before. */
    function CurrentGeometry(): (g: Geometry)
      reads this
      requires Valid()
      ensures Initialized() ==> g == Uf2Geometry(numBlocks) && g.blkSize == 512
      ensures !Initialized() ==> g == Geometry(0, 0)
    {
      work.geometry
    }
  }

  /**
   * Uninit is idempotent: a second call delivers nothing and the working
   * state stays cleared, whatever state the device started in.
   */
  method UninitTwice(d: Device) returns (r1: RetCode, r2: RetCode)
    requires d.Valid()
    modifies d
    ensures d.Valid() && !d.Initialized() && d.work == ZeroWork()
    ensures r1 == NrfSuccess && r2 == NrfSuccess
    ensures d.events == old(d.events) + Notify(old(d.work), EvtUninit, None)
    ensures d.deliveries == old(d.deliveries) + Stamp(old(d.work), |old(d.calls)|)
    ensures d.calls == old(d.calls)
  {
    r1 := d.Uninit();
    ghost var afterFirst := d.events;
    r2 := d.Uninit();
    assert d.events == afterFirst;
  }

  /**
   * A full session with a handler registered: init, write a run of blocks,
   * read the same run back, uninit. The handler sees exactly four events in
   * that order, each with the context given to init; each completion event
   * comes only after all of its request's block calls, and the backing store
   * sees the writes followed by the reads of the same blocks.
   */
  method Session(d: Device, handler: Address, context: Address, req: Request)
    requires d.Valid() && handler != NULL && RequestFits(req, Uf2Geometry(d.numBlocks))
    modifies d
    ensures d.Valid() && !d.Initialized()
    ensures d.events == old(d.events) + [
              Event(EvtInit, ResultSuccess, None, context),
              Event(EvtBlkWriteDone, ResultSuccess, Some(req), context),
              Event(EvtBlkReadDone, ResultSuccess, Some(req), context),
              Event(EvtUninit, ResultSuccess, None, context)]
    ensures d.calls == old(d.calls)
                       + ReqCalls(EvtBlkWriteDone, req, d.wrState, req.blkCount)
                       + ReqCalls(EvtBlkReadDone, req, d.wrState, req.blkCount)
    ensures d.deliveries == old(d.deliveries) + [
              Delivery(handler, |old(d.calls)|),
              Delivery(handler, |old(d.calls)| + req.blkCount),
              Delivery(handler, |old(d.calls)| + 2 * req.blkCount),
              Delivery(handler, |old(d.calls)| + 2 * req.blkCount)]
  {
    var r := d.Init(handler, context);
    r := d.WriteReq(req);
    r := d.ReadReq(req);
    r := d.Uninit();
  }
}
