/**
 * FrameWrapperBase<T>: the part of every frame wrapper (serializer) that is
 * not format specific: its identity, the FrameAvailableEvent registry, and
 * the choice between raising that event inline and queueing it for a
 * background delivery task.
 */
module FrameWrappers {
  import opened Runtime
  import opened Events

  /** The arguments of FrameAvailableEvent: the wrapper's ID and the decoded object. */
  datatype Frame<T> = Frame(id: Option<string>, payload: T)

  class FrameWrapperBase<T> {
    var frameAvailableEvent: seq<HandlerId>
    /** Declared and read, but assigned nowhere: it keeps its default, false. */
    var useThreadPool4Event: bool
    var id: Option<string>
    /** The BlockingQueue for queued delivery: null unless the constructor created it. */
    var fireQueue: Option<seq<T>>
    var fireTaskStarted: bool
    /** Every handler call FrameAvailableEvent has made, oldest first. */
    var calls: seq<Delivery<Frame<T>>>

    /**
     * What holds whatever the constructor was given: delivery is never queued,
     * so a queue that was created never receives an item.
     */
    ghost predicate Valid()
      reads this
    {
      !useThreadPool4Event && (fireQueue.Some? ==> fireQueue.value == [])
    }

    /**
     * FrameWrapperBase(_useThreadPool4Event): with true it creates the queue and
     * starts the delivery task, but it never stores the flag.
     */
    constructor (useThreadPool: bool)
      ensures Valid()
      ensures !useThreadPool4Event
      ensures fireQueue == (if useThreadPool then Some([]) else None)
      ensures fireTaskStarted == useThreadPool
      ensures id == None && frameAvailableEvent == [] && calls == []
    {
      frameAvailableEvent := [];
      useThreadPool4Event := false;
      id := None;
      fireQueue := None;
      fireTaskStarted := false;
      calls := [];
      new;
      if useThreadPool {
        fireQueue := Some([]);
        fireTaskStarted := true;
      }
    }

    method SetID(newId: Option<string>)
      modifies this`id
      ensures id == newId
    {
      id := newId;
    }

    /** `FrameAvailableEvent += h`. */
    method SubscribeFrameAvailable(h: HandlerId)
      modifies this`frameAvailableEvent
      ensures frameAvailableEvent == old(frameAvailableEvent) + [h]
    {
      frameAvailableEvent := frameAvailableEvent + [h];
    }

    /**
     * FireEvent(toFire): always takes the inline branch, calling every current
     * subscriber with (ID, toFire); the queue is never used.
     */
    method FireEvent(toFire: T)
      requires Valid()
      modifies this`calls
      ensures Valid()
      ensures calls == old(calls) + Notify(frameAvailableEvent, Frame(id, toFire))
    {
      if useThreadPool4Event {
        // fireQueue.Enqueue(toFire): unreachable, the flag is never set
        assert false;
      } else {
        calls := calls + Notify(frameAvailableEvent, Frame(id, toFire));
      }
    }

    method UnsubscribeEventHandlers()
      modifies this`frameAvailableEvent
      ensures frameAvailableEvent == []
    {
      frameAvailableEvent := UnsubscribeAll(frameAvailableEvent);
    }

    /** The base Data2BytesSync: throws NotImplementedException, so there are no bytes and no count. */
    method Data2BytesSync(data: T) returns (r: Result<(seq<Byte>, Int32), Fault>)
      ensures r == Failure(NotImplemented)
    {
      r := Failure(NotImplemented);
    }
  }
}
