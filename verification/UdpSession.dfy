/** udpSession of transport/transport.go: datagrams queued by the demultiplexer, read as a byte stream. */
module UdpSession {
  import opened Bits
  import opened Bytes

  const QUEUE_CAPACITY: nat := 64

  datatype State = State(pending: bytes, queue: seq<bytes>, closed: bool)

  datatype ReadResult = Data(data: bytes) | EndOfFile | DeadlineExceeded

  const FRESH: State := State([], [], false)

  predicate Queues(st: State) { !st.closed && |st.queue| < QUEUE_CAPACITY }

  /** pushData: a full queue drops the datagram. */
  function Push(st: State, datagram: bytes): State {
    if Queues(st) then st.(queue := st.queue + [datagram]) else st
  }

  function Min(a: nat, b: nat): nat { if a < b then a else b }

  /** Read into a buffer of `size` bytes. With nothing queued the timer fires in the end; with something queued
      the select may still choose the timer if that has fired too, which is `timesOut`. */
  function Read(st: State, size: nat, deadline: bool, timesOut: bool): (ReadResult, State) {
    if size == 0 then (Data([]), st)
    else if st.closed then (EndOfFile, st)
    else if st.pending != [] then
      var n := Min(size, |st.pending|);
      (Data(st.pending[..n]), st.(pending := st.pending[n..]))
    else if st.queue == [] || timesOut then (if deadline then DeadlineExceeded else EndOfFile, st)
    else
      var n := Min(size, |st.queue[0]|);
      (Data(st.queue[0][..n]), st.(pending := st.queue[0][n..], queue := st.queue[1..]))
  }

  /** The queue takes a datagram exactly while the session is open and fewer than 64 are waiting. */
  lemma PushTakes(st: State, d: bytes)
    ensures var st' := Push(st, d);
            && st' == st.(queue := st'.queue)
            && st'.queue == if !st.closed && |st.queue| < 64 then st.queue + [d] else st.queue
  {}

  /** A read in time fills the buffer as far as the pending bytes, or else the next datagram, go. */
  lemma ReadFills(st: State, size: nat, deadline: bool, timesOut: bool)
    ensures var r, waits := Read(st, size, deadline, timesOut).0, st.pending == [] && (st.queue == [] || timesOut);
            && (r == EndOfFile <==> size > 0 && (st.closed || (waits && !deadline)))
            && (r == DeadlineExceeded <==> size > 0 && !st.closed && waits && deadline)
            && (r.Data? && size > 0 ==>
                  var source := if st.pending != [] then st.pending else st.queue[0];
                  r.data <= source && (|r.data| == size || r.data == source))
            && (r.Data? && size == 0 ==> r.data == [])
  {}

  datatype Event = Pushed(datagram: bytes) | Reads(size: nat, deadline: bool, timesOut: bool) | Closed

  function Step(st: State, e: Event): State {
    match e
    case Pushed(d) => Push(st, d)
    case Reads(size, deadline, timesOut) => Read(st, size, deadline, timesOut).1
    case Closed => st.(closed := true)
  }

  function Run(events: seq<Event>): State {
    if events == [] then FRESH else Step(Run(events[..|events| - 1]), events[|events| - 1])
  }

  /** All bytes of the datagrams the queue accepted, in order. */
  function Accepted(events: seq<Event>): bytes {
    if events == [] then [] else
    var before, e := events[..|events| - 1], events[|events| - 1];
    Accepted(before) + (if e.Pushed? && Queues(Run(before)) then e.datagram else [])
  }

  /** All bytes handed to readers, in order. */
  function Returned(events: seq<Event>): bytes {
    if events == [] then [] else
    var before, e := events[..|events| - 1], events[|events| - 1];
    Returned(before) +
      (if !e.Reads? then [] else
       match Read(Run(before), e.size, e.deadline, e.timesOut).0
       case Data(d) => d case EndOfFile => [] case DeadlineExceeded => [])
  }

  function Flatten(queue: seq<bytes>): bytes {
    if queue == [] then [] else queue[0] + Flatten(queue[1..])
  }

  lemma {:induction false} FlattenSnoc(queue: seq<bytes>, d: bytes)
    ensures Flatten(queue + [d]) == Flatten(queue) + d
  {
    if queue == [] {
      assert [d][1..] == [];
    } else {
      FlattenSnoc(queue[1..], d);
      assert (queue + [d])[1..] == queue[1..] + [d];
    }
  }

  /** Conservation: the bytes returned so far, then `pending`, then the queue, are the accepted bytes. */
  lemma {:induction false} Conservation(events: seq<Event>)
    ensures Returned(events) + Run(events).pending + Flatten(Run(events).queue) == Accepted(events)
    ensures |Run(events).queue| <= QUEUE_CAPACITY
  {
    if events != [] {
      var before, e := events[..|events| - 1], events[|events| - 1];
      Conservation(before);
      var st, earlier := Run(before), Returned(before);
      hide Flatten, Read, Push;
      match e
      case Pushed(d) => PushConserves(st, d, earlier);
      case Reads(size, deadline, timesOut) => ReadConserves(st, size, deadline, timesOut, earlier);
      case Closed =>
    }
  }

  lemma PushConserves(st: State, d: bytes, earlier: bytes)
    ensures earlier + [] == earlier
    ensures var st' := Push(st, d);
            earlier + st'.pending + Flatten(st'.queue)
              == earlier + st.pending + Flatten(st.queue) + (if Queues(st) then d else [])
    ensures |st.queue| <= QUEUE_CAPACITY ==> |Push(st, d).queue| <= QUEUE_CAPACITY
  {
    FlattenSnoc(st.queue, d);
    var read := earlier + st.pending;
    assert read + (Flatten(st.queue) + d) == read + Flatten(st.queue) + d;
  }

  lemma ReadConserves(st: State, size: nat, deadline: bool, timesOut: bool, earlier: bytes)
    ensures var (r, st') := Read(st, size, deadline, timesOut);
            earlier + (if r.Data? then r.data else []) + st'.pending + Flatten(st'.queue)
              == earlier + st.pending + Flatten(st.queue)
    ensures |Read(st, size, deadline, timesOut).1.queue| <= |st.queue|
  {
    if size > 0 && !st.closed && (st.pending != [] || st.queue != []) {
      var source := if st.pending != [] then st.pending else st.queue[0];
      var rest := if st.pending != [] then Flatten(st.queue) else Flatten(st.queue[1..]);
      SplitOff(earlier, source, rest, Min(size, |source|));
      assert earlier + [] == earlier;
      assert st.pending == [] ==> Flatten(st.queue) == source + rest;
    } else {
      assert earlier + [] == earlier;
    }
  }

  lemma SplitOff(earlier: bytes, source: bytes, rest: bytes, n: nat)
    requires n <= |source|
    ensures earlier + source[..n] + source[n..] + rest == earlier + source + rest == earlier + (source + rest)
  {
    assert source == source[..n] + source[n..];
  }

  /** A run that ends with nothing pending and nothing queued, however it got there, has returned every
      accepted byte. */
  lemma Drained(events: seq<Event>)
    requires Run(events).pending == [] && Run(events).queue == []
    ensures Returned(events) == Accepted(events)
  {
    Conservation(events);
    assert Returned(events) + [] + Flatten([]) == Returned(events);
  }

  /** Reads in time, into buffers of the given sizes. */
  function ReadsOf(sizes: seq<nat>): seq<Event> {
    seq(|sizes|, i requires 0 <= i < |sizes| => Reads(sizes[i], false, false))
  }

  /** What is left to read: the bytes and, as a datagram may be empty, the datagrams. */
  function Left(st: State): nat { |st.pending| + |Flatten(st.queue)| + |st.queue| }

  lemma ReadTakesOne(events: seq<Event>, size: nat)
    requires size > 0 && !Run(events).closed
    ensures var next := events + [Reads(size, false, false)];
            && !Run(next).closed && Accepted(next) == Accepted(events)
            && (Left(Run(next)) < Left(Run(events)) || Left(Run(next)) == 0)
  {
    var next, st := events + [Reads(size, false, false)], Run(events);
    assert next[..|next| - 1] == events;
    assert Run(next) == Read(st, size, false, false).1;
    assert Accepted(next) == Accepted(events) + [];
    hide Run, Accepted;
  }

  /** Draining: on an open session, enough reads in time, each into any buffer that is not empty, return every
      accepted byte. */
  lemma {:induction false} Drain(events: seq<Event>, sizes: seq<nat>)
    requires !Run(events).closed && forall k | 0 <= k < |sizes| :: sizes[k] > 0
    requires |sizes| >= Left(Run(events))
    ensures Returned(events + ReadsOf(sizes)) == Accepted(events)
    decreases |sizes|
  {
    hide Run, Accepted, Returned, Read, Flatten;
    if sizes == [] {
      Drained(events);
      assert events + ReadsOf(sizes) == events;
    } else {
      var next, rest := events + [Reads(sizes[0], false, false)], sizes[1..];
      hide Left;
      ReadTakesOne(events, sizes[0]);
      ReadsFollow(events, sizes);
      hide ReadsOf;
      Drain(next, rest);
    }
  }

  lemma ReadsFollow(events: seq<Event>, sizes: seq<nat>)
    requires sizes != []
    ensures events + ReadsOf(sizes) == events + [Reads(sizes[0], false, false)] + ReadsOf(sizes[1..])
  {
    assert ReadsOf(sizes) == [Reads(sizes[0], false, false)] + ReadsOf(sizes[1..]);
  }

  class Session {
    var pending: bytes
    var readChan: seq<bytes>
    var closed: bool

    ghost function Abstract(): State
      reads this
    {
      State(pending, readChan, closed)
    }

    constructor ()
      ensures Abstract() == FRESH
    {
      pending, readChan, closed := [], [], false;
    }

    method PushData(data: bytes)
      modifies this
      ensures Abstract() == Push(old(Abstract()), data)
    {
      if closed { return; }
      if |readChan| < QUEUE_CAPACITY {
        readChan := readChan + [data];
      }
    }

    /** Copies into the caller's buffer; returns the number of bytes copied. */
    method ReadInto(p: array<byte>, deadline: bool, timesOut: bool) returns (n: nat, r: ReadResult)
      modifies this, p
      ensures (r, Abstract()) == Read(old(Abstract()), p.Length, deadline, timesOut)
      ensures n == (if r.Data? then |r.data| else 0) <= p.Length
      ensures r.Data? ==> p[..n] == r.data
      ensures p[n..] == old(p[n..])
    {
      if p.Length == 0 { return 0, Data([]); }
      if closed { return 0, EndOfFile; }
      if |pending| > 0 {
        n := Min(p.Length, |pending|);
        forall i | 0 <= i < n { p[i] := pending[i]; }
        r := Data(pending[..n]);
        pending := pending[n..];
        return;
      }
      if |readChan| == 0 || timesOut {
        return 0, if deadline then DeadlineExceeded else EndOfFile;
      }
      var data := readChan[0];
      readChan := readChan[1..];
      n := Min(p.Length, |data|);
      forall i | 0 <= i < n { p[i] := data[i]; }
      r := Data(data[..n]);
      assert pending + data[n..] == data[n..];
      if n < |data| {
        pending := pending + data[n..];
      }
    }

    method Close()
      modifies this
      ensures Abstract() == old(Abstract()).(closed := true)
    {
      closed := true;
    }
  }
}
