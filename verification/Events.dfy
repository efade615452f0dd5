/** The data that travels through the relay: events, their headers, and the two
    forms an event takes (cached by a process, or a message between processes). */
module Events {

  type Bytes = seq<bv8>

  /** Nanoseconds since Go's zero time; a `time.Time` that was never set is 0. */
  type Time = int

  const ZERO_TIME: Time := 0

  const DELIVERY_ID_HEADER := "X-Github-Delivery"

  /** One cached header: its name and the first of its values. */
  datatype Header = Header(key: string, firstValue: string)

  /** The part of a cached event that never changes once the event is built. */
  datatype EventData = EventData(id: string, headers: seq<Header>, body: Bytes)

  /** An element of a message's header list is a pointer in the sender's memory,
      so it can be nil there. */
  datatype WireHeader = NilHeader | WireHeader(name: string, values: string)

  datatype Message = Message(eventId: string, body: Bytes, headers: seq<WireHeader>)

  /** The header multimap of an HTTP request. */
  type HttpHeaders = map<string, seq<string>>

  /** A cached event as the goroutines share it: by pointer, with two fields that
      are overwritten in place. */
  class CachedEvent {
    const data: EventData
    var isRelayed: bool
    var timeRelayed: Time

    constructor (data: EventData)
      ensures this.data == data && !isRelayed && timeRelayed == ZERO_TIME
    {
      this.data := data;
      isRelayed, timeRelayed := false, ZERO_TIME;
    }
  }

  /** A process's clock: every reading is at or after the one before it. */
  class Clock {
    var now: Time

    constructor (start: Time)
      ensures now == start
    {
      now := start;
    }

    method Now() returns (t: Time)
      modifies this
      ensures t == now >= old(now)
    {
      var elapsed :| elapsed >= 0;
      now := now + elapsed;
      t := now;
    }

    /** Waiting on a timer: at least the asked duration goes by. */
    method Wait(duration: nat)
      modifies this
      ensures now >= old(now) + duration
    {
      var elapsed :| elapsed >= 0;
      now := now + duration + elapsed;
    }
  }
}
