/** How `apiclient exec` turns standard input into messages: `retry_read` filling a buffer from a
    reader that may deliver its bytes in any pieces, and the two reading loops on top of it.
    What the loops send depends on the bytes alone, never on how they were delivered. */
module StdinForwarding {
  import opened Wrappers
  import opened ExecProtocol

  const BUFFER_SIZE: nat := 4096

  /** What the operating system does on successive reads. */
  datatype Event = Bytes(data: Payload) | Interrupted | EndOfInput | Fault(code: nat)

  datatype ReadError = ReadInterrupted | ReadFault(code: nat)

  /** The bytes that reading to the end would deliver. */
  function Stream(events: seq<Event>): Payload {
    if events == [] then []
    else (if events[0].Bytes? then events[0].data else []) + Stream(events[1..])
  }

  /** No fault, and an end of input only at the end. */
  predicate Steady(events: seq<Event>) {
    forall e :: e in events ==> e.Interrupted? || (e.Bytes? && e.data != [])
  }

  /** How much a list of events can still cause. */
  function Weight(events: seq<Event>): nat { |events| + |Stream(events)| }

  function Min(a: nat, b: nat): nat { if a <= b then a else b }

  // ------------------------------------------------------------------------------- retry_read

  datatype Fill = Filled(data: Payload, rest: seq<Event>) | Lost(code: nat, data: Payload, rest: seq<Event>)
  {
    function After(before: Payload): Fill { this.(data := before + data) }
  }

  /** Reading until the buffer is full, the input ends or a read fails for good. */
  function Retry(events: seq<Event>, space: nat): (f: Fill)
    ensures f.data + Stream(f.rest) == Stream(events)
    ensures |f.data| <= space
    ensures f.Lost? ==> |f.data| < space
    ensures |f.rest| <= |events|
    decreases |events|
  {
    if space == 0 || events == [] then Filled([], events)
    else match events[0]
      case Interrupted => Retry(events[1..], space)
      case EndOfInput => Filled([], events[1..])
      case Fault(code) => Lost(code, [], events[1..])
      case Bytes(data) =>
        if data == [] then Filled([], events[1..])
        else if |data| <= space then
          var f := Retry(events[1..], space - |data|);
          Regroup(data, f.data, Stream(f.rest));
          f.After(data)
        else
          StreamCut(events, data, space);
          Filled(data[..space], [Bytes(data[space..])] + events[1..])
  }

  lemma Regroup(a: Payload, b: Payload, c: Payload)
    ensures a + b + c == a + (b + c)
  {
  }

  /** A chunk can be split in two. */
  lemma StreamCut(events: seq<Event>, data: Payload, n: nat)
    requires events != [] && events[0] == Bytes(data) && n <= |data|
    ensures data[..n] + Stream([Bytes(data[n..])] + events[1..]) == Stream(events)
  {
    assert ([Bytes(data[n..])] + events[1..])[1..] == events[1..];
    Regroup(data[..n], data[n..], Stream(events[1..]));
    assert data == data[..n] + data[n..];
  }

  /** What one `read` into a buffer from position `at` on does to events and buffer. */
  predicate ReadEffect(had: seq<Event>, events: seq<Event>, was: seq<byte>, now: seq<byte>, at: nat,
                       r: Result<nat, ReadError>)
    requires at < |was|
  {
    match r
    case Err(ReadInterrupted) => had != [] && had[0] == Interrupted && events == had[1..] && now == was
    case Err(ReadFault(code)) => had != [] && had[0] == Fault(code) && events == had[1..] && now == was
    case Ok(n) =>
      if had == [] then n == 0 && events == [] && now == was
      else if had[0].EndOfInput? then n == 0 && events == had[1..] && now == was
      else
        && had[0].Bytes?
        && var data := had[0].data;
        && n == Min(|data|, |was| - at)
        && now == was[..at] + data[..n] + was[at + n..]
        && events == (if n == |data| then [] else [Bytes(data[n..])]) + had[1..]
  }

  /** The first `count` bytes of the buffer are read, the others as they were, and reading on leads
      to the goal. */
  ghost predicate Filling(goal: Fill, original: seq<byte>, now: seq<byte>, count: nat, events: seq<Event>) {
    && count <= |now| == |original|
    && now[count..] == original[count..]
    && Retry(events, |now| - count).After(now[..count]) == goal
  }

  /** The goal is reached with `count` bytes read. */
  ghost predicate Reached(goal: Fill, original: seq<byte>, now: seq<byte>, count: nat, events: seq<Event>) {
    && count <= |now| == |original|
    && now[count..] == original[count..]
    && goal == Filled(now[..count], events)
  }

  /** Anything that implements `Read`. */
  class Source {
    var events: seq<Event>

    constructor (events: seq<Event>)
      ensures this.events == events
    {
      this.events := events;
    }

    /** One `read`. */
    method Read(buf: array<byte>, at: nat) returns (r: Result<nat, ReadError>)
      requires at < buf.Length
      modifies this, buf
      ensures ReadEffect(old(events), events, old(buf[..]), buf[..], at, r)
    {
      if events == [] {
        return Ok(0);
      }
      match events[0] {
        case Interrupted =>
          events := events[1..];
          return Err(ReadInterrupted);
        case EndOfInput =>
          events := events[1..];
          return Ok(0);
        case Fault(code) =>
          events := events[1..];
          return Err(ReadFault(code));
        case Bytes(data) =>
          var n := Min(|data|, buf.Length - at);
          forall i | 0 <= i < n {
            buf[at + i] := data[i];
          }
          events := (if n == |data| then [] else [Bytes(data[n..])]) + events[1..];
          return Ok(n);
      }
    }

    /** The filled part of the buffer holds the next bytes of the stream, the rest is as before. */
    method RetryRead(buf: array<byte>) returns (r: Result<nat, nat>)
      modifies this, buf
      ensures match Retry(old(events), buf.Length) {
          case Filled(data, rest) =>
            r == Ok(|data|) && Reached(Filled(data, rest), old(buf[..]), buf[..], |data|, events)
          case Lost(code, _, rest) => r == Err(code) && events == rest
        }
    {
      var count := 0;
      ghost var goal, original := Retry(events, buf.Length), buf[..];
      StartFilling(original, events);
      hide Retry, Filling, ReadEffect, Reached;
      while count < buf.Length
        invariant count <= buf.Length && |original| == buf.Length
        invariant Filling(goal, original, buf[..], count, events)
        decreases buf.Length - count, |events|
      {
        ghost var was, had := buf[..], events;
        var got := Read(buf, count);
        match got {
          case Ok(n) =>
            if n == 0 {
              InputEnds(goal, original, was, buf[..], count, had, events);
              return Ok(count);
            }
            BytesTaken(goal, original, was, buf[..], count, had, events, n);
            count := count + n;
          case Err(ReadInterrupted) =>
            InterruptIgnored(goal, original, was, buf[..], count, had, events);
          case Err(ReadFault(code)) =>
            FaultEnds(goal, original, was, buf[..], count, had, events, code);
            return Err(code);
        }
      }
      BufferFull(goal, original, buf[..], count, events);
      r := Ok(count);
    }
  }

  lemma StartFilling(buf: seq<byte>, events: seq<Event>)
    ensures Filling(Retry(events, |buf|), buf, buf, 0, events)
  {
    hide Retry;
    assert [] + Retry(events, |buf|).data == Retry(events, |buf|).data;
  }

  lemma InputEnds(goal: Fill, original: seq<byte>, was: seq<byte>, now: seq<byte>, count: nat,
                  had: seq<Event>, events: seq<Event>)
    requires Filling(goal, original, was, count, had) && count < |was|
    requires ReadEffect(had, events, was, now, count, Ok(0))
    ensures Reached(goal, original, now, count, events) && goal.Filled? && |goal.data| == count
  {
    assert Retry(had, |was| - count) == Filled([], events);
    assert now == was by { assert was == was[..count] + [] + was[count..]; }
    assert was[..count] + [] == was[..count];
  }

  lemma InterruptIgnored(goal: Fill, original: seq<byte>, was: seq<byte>, now: seq<byte>, count: nat,
                         had: seq<Event>, events: seq<Event>)
    requires Filling(goal, original, was, count, had) && count < |was|
    requires ReadEffect(had, events, was, now, count, Err(ReadInterrupted))
    ensures Filling(goal, original, now, count, events) && |events| < |had|
  {
  }

  lemma FaultEnds(goal: Fill, original: seq<byte>, was: seq<byte>, now: seq<byte>, count: nat,
                  had: seq<Event>, events: seq<Event>, code: nat)
    requires Filling(goal, original, was, count, had) && count < |was|
    requires ReadEffect(had, events, was, now, count, Err(ReadFault(code)))
    ensures goal.Lost? && goal.code == code && goal.rest == events
  {
  }

  lemma BufferFull(goal: Fill, original: seq<byte>, now: seq<byte>, count: nat, events: seq<Event>)
    requires Filling(goal, original, now, count, events) && count == |now|
    ensures Reached(goal, original, now, count, events) && goal.Filled? && |goal.data| == count
  {
    assert Retry(events, 0) == Filled([], events);
    assert now[..count] + [] == now[..count];
  }

  lemma BytesTaken(goal: Fill, original: seq<byte>, was: seq<byte>, now: seq<byte>, count: nat,
                   had: seq<Event>, events: seq<Event>, n: nat)
    requires Filling(goal, original, was, count, had) && count < |was| && n > 0
    requires ReadEffect(had, events, was, now, count, Ok(n))
    ensures count + n <= |now| && Filling(goal, original, now, count + n, events)
  {
    var data := had[0].data;
    Overlaid(original, was, now, count, data[..n]);
    BytesRetried(had, events, |was| - count, was[..count], n);
  }

  lemma Overlaid(original: seq<byte>, was: seq<byte>, now: seq<byte>, count: nat, data: seq<byte>)
    requires count + |data| <= |was| == |original| && was[count..] == original[count..]
    requires now == was[..count] + data + was[count + |data|..]
    ensures |now| == |was| && now[..count + |data|] == was[..count] + data
    ensures now[count + |data|..] == original[count + |data|..]
  {
    var end := count + |data|;
    assert was[end..] == was[count..][|data|..] && original[end..] == original[count..][|data|..];
  }

  lemma BytesRetried(had: seq<Event>, events: seq<Event>, space: nat, before: Payload, n: nat)
    requires had != [] && had[0].Bytes? && 0 < n <= space
    requires n == Min(|had[0].data|, space)
    requires events == (if n == |had[0].data| then [] else [Bytes(had[0].data[n..])]) + had[1..]
    ensures Retry(had, space).After(before) == Retry(events, space - n).After(before + had[0].data[..n])
  {
    var data := had[0].data;
    if n == |data| {
      assert events == had[1..] && data[..n] == data;
      var f := Retry(events, space - n);
      assert before + (data + f.data) == before + data + f.data;
    }
  }

  // --------------------------------------------------------------------------- waiting for credit

  datatype Awaited = Granted(views: seq<Capacity>) | Mismatch | Exhausted

  /** The polling loop over the values it loads one after the other; it is still waiting when
      they run out. */
  function Await(messagesRead: nat, views: seq<Capacity>): Awaited {
    if views == [] then Exhausted
    else match Check(messagesRead, views[0].maxMessagesOutstanding, views[0].messagesWritten)
      case Admit => Granted(views[1..])
      case ServerCount => Mismatch
      case Wait => Await(messagesRead, views[1..])
  }

  /** More messages are outstanding than allowed. */
  predicate Waits(messagesRead: nat, view: Capacity) {
    messagesRead > view.messagesWritten + view.maxMessagesOutstanding
  }

  /** The first look, if any, that does not make the reader wait is look i. */
  ghost predicate FirstAnswer(messagesRead: nat, views: seq<Capacity>, i: nat) {
    i < |views| && !Waits(messagesRead, views[i]) && forall j :: 0 <= j < i ==> Waits(messagesRead, views[j])
  }

  /** The first look that does not make it wait decides: a server that has written more than was
      read is an error, anything else lets the reader go on. */
  method WaitForCapacity(messagesRead: nat, views: seq<Capacity>) returns (r: Awaited)
    ensures r == Await(messagesRead, views)
    ensures r.Granted? <==>
            exists i: nat :: FirstAnswer(messagesRead, views, i) && views[i].messagesWritten <= messagesRead
    ensures r.Granted? ==> exists i: nat :: FirstAnswer(messagesRead, views, i) && r.views == views[i + 1..]
    ensures r.Mismatch? <==>
            exists i: nat :: FirstAnswer(messagesRead, views, i) && views[i].messagesWritten > messagesRead
    ensures r.Exhausted? <==> forall v :: v in views ==> Waits(messagesRead, v)
  {
    var i := 0;
    while i < |views|
      invariant i <= |views|
      invariant Await(messagesRead, views) == Await(messagesRead, views[i..])
      invariant forall j :: 0 <= j < i ==> Waits(messagesRead, views[j])
    {
      match Check(messagesRead, views[i].maxMessagesOutstanding, views[i].messagesWritten) {
        case ServerCount =>
          assert FirstAnswer(messagesRead, views, i);
          return Mismatch;
        case Admit =>
          assert FirstAnswer(messagesRead, views, i);
          return Granted(views[i + 1..]);
        case Wait =>
      }
      i := i + 1;
    }
    r := Exhausted;
  }

  // ------------------------------------------------------------------------------ the two loops

  datatype Message = Binary(payload: Payload) | ContentComplete

  datatype Ending = Completed | ReadFailed(code: nat) | CountMismatch | Stalled

  datatype Forwarded = Forwarded(messages: seq<Message>, ending: Ending, lost: Payload, rest: seq<Event>)

  /** The reading loop with a buffer of a given size: 4096 in bulk, 1 on a terminal. */
  function Forward(size: nat, events: seq<Event>, views: seq<Capacity>, messagesRead: nat): Forwarded
    requires size > 0
    decreases Weight(events)
  {
    match Await(messagesRead, views)
    case Exhausted => Forwarded([], Stalled, [], events)
    case Mismatch => Forwarded([], CountMismatch, [], events)
    case Granted(more) =>
      match Retry(events, size)
      case Lost(code, data, rest) => Forwarded([], ReadFailed(code), data, rest)
      case Filled(data, rest) =>
        if data == [] then Forwarded([ContentComplete], Completed, [], rest)
        else
          var f := Forward(size, rest, more, messagesRead + 1);
          f.(messages := [Binary(data)] + f.messages)
  }

  /** `read_stdin`: batches of up to 4096 bytes. */
  method ReadStdin(source: Source, views: seq<Capacity>) returns (messages: seq<Message>, ending: Ending)
    modifies source
    ensures var f := Forward(4096, old(source.events), views, 0);
            messages == f.messages && ending == f.ending && source.events == f.rest
  {
    messages, ending := ForwardLoop(source, views, BUFFER_SIZE);
  }

  /** `read_stdin_tty`: every byte at once. */
  method ReadStdinTty(source: Source, views: seq<Capacity>) returns (messages: seq<Message>, ending: Ending)
    modifies source
    ensures var f := Forward(1, old(source.events), views, 0);
            messages == f.messages && ending == f.ending && source.events == f.rest
  {
    messages, ending := ForwardLoop(source, views, 1);
  }

  /** What remains to be done leads to the goal. */
  ghost predicate Forwarding(goal: Forwarded, size: nat, events: seq<Event>, views: seq<Capacity>, read: nat,
                             messages: seq<Message>)
    requires size > 0
  {
    var f := Forward(size, events, views, read);
    goal == f.(messages := messages + f.messages)
  }

  lemma WaitingEnds(goal: Forwarded, size: nat, events: seq<Event>, views: seq<Capacity>, read: nat,
                    messages: seq<Message>)
    requires size > 0 && Forwarding(goal, size, events, views, read, messages) && !Await(read, views).Granted?
    ensures goal == Forwarded(messages, if Await(read, views).Mismatch? then CountMismatch else Stalled, [], events)
  {
    assert messages + [] == messages;
  }

  lemma FailureEnds(goal: Forwarded, size: nat, events: seq<Event>, views: seq<Capacity>, read: nat,
                    messages: seq<Message>, code: nat, lost: Payload, rest: seq<Event>)
    requires size > 0 && Forwarding(goal, size, events, views, read, messages) && Await(read, views).Granted?
    requires Retry(events, size) == Lost(code, lost, rest)
    ensures goal == Forwarded(messages, ReadFailed(code), lost, rest)
  {
    assert messages + [] == messages;
  }

  lemma ContentEnds(goal: Forwarded, size: nat, events: seq<Event>, views: seq<Capacity>, read: nat,
                    messages: seq<Message>, rest: seq<Event>)
    requires size > 0 && Forwarding(goal, size, events, views, read, messages) && Await(read, views).Granted?
    requires Retry(events, size) == Filled([], rest)
    ensures goal == Forwarded(messages + [ContentComplete], Completed, [], rest)
  {
  }

  lemma MessageForwarded(goal: Forwarded, size: nat, events: seq<Event>, views: seq<Capacity>, read: nat,
                         messages: seq<Message>, data: Payload, rest: seq<Event>)
    requires size > 0 && Forwarding(goal, size, events, views, read, messages) && Await(read, views).Granted?
    requires Retry(events, size) == Filled(data, rest) && data != []
    ensures Forwarding(goal, size, rest, Await(read, views).views, read + 1, messages + [Binary(data)])
    ensures Weight(rest) < Weight(events)
  {
    var f := Forward(size, rest, Await(read, views).views, read + 1);
    assert messages + ([Binary(data)] + f.messages) == messages + [Binary(data)] + f.messages;
  }

  lemma StartForwarding(size: nat, events: seq<Event>, views: seq<Capacity>)
    requires size > 0
    ensures Forwarding(Forward(size, events, views, 0), size, events, views, 0, [])
  {
    hide Forward;
    var f := Forward(size, events, views, 0);
    assert [] + f.messages == f.messages;
  }

  method ForwardLoop(source: Source, views: seq<Capacity>, size: nat)
    returns (messages: seq<Message>, ending: Ending)
    requires size > 0
    modifies source
    ensures var f := Forward(size, old(source.events), views, 0);
            messages == f.messages && ending == f.ending && source.events == f.rest
  {
    messages := [];
    var messagesRead, left := 0, views;
    ghost var goal := Forward(size, source.events, views, 0);
    StartForwarding(size, source.events, views);
    hide Forward, Retry, Await, Weight, Forwarding;
    while true
      invariant Forwarding(goal, size, source.events, left, messagesRead, messages)
      decreases Weight(source.events)
    {
      ghost var events, before := source.events, left;
      var awaited := WaitForCapacity(messagesRead, left);
      if !awaited.Granted? {
        WaitingEnds(goal, size, events, left, messagesRead, messages);
        ending := if awaited.Mismatch? then CountMismatch else Stalled;
        return;
      }
      left := awaited.views;
      var buf := new byte[size];
      var count := source.RetryRead(buf);
      ghost var fill := Retry(events, size);
      if count.Err? {
        FailureEnds(goal, size, events, before, messagesRead, messages, fill.code, fill.data, fill.rest);
        ending := ReadFailed(count.error);
        return;
      }
      if count.value == 0 {
        ContentEnds(goal, size, events, before, messagesRead, messages, fill.rest);
        messages := messages + [ContentComplete];
        ending := Completed;
        return;
      }
      MessageForwarded(goal, size, events, before, messagesRead, messages, fill.data, fill.rest);
      messagesRead := messagesRead + 1;
      messages := messages + [Binary(buf[..][..count.value])];
    }
  }

  // ------------------------------------------------------------------------------- what is sent

  /** The bytes of the Binary messages, in order. */
  function Payloads(messages: seq<Message>): Payload {
    if messages == [] then []
    else (if messages[0].Binary? then messages[0].payload else []) + Payloads(messages[1..])
  }

  /** Messages of 1 to `size` bytes, with ContentComplete only as a last message. */
  predicate WellFormed(size: nat, messages: seq<Message>) {
    forall i :: 0 <= i < |messages| ==>
      if messages[i].Binary? then 0 < |messages[i].payload| <= size else i == |messages| - 1
  }

  /** However reads are split, interrupted, ended or failed: every byte taken from the reader is
      in a message, in order, except for less than one buffer when a read fails. */
  lemma {:induction false} NoByteLostOrAdded(size: nat, events: seq<Event>, views: seq<Capacity>, read: nat)
    requires size > 0
    ensures var f := Forward(size, events, views, read);
            && Payloads(f.messages) + f.lost + Stream(f.rest) == Stream(events)
            && |f.lost| < size && (f.lost != [] ==> f.ending.ReadFailed?)
    decreases Weight(events)
  {
    var awaited := Await(read, views);
    if awaited.Granted? {
      var fill := Retry(events, size);
      if fill.Filled? && fill.data != [] {
        var f := Forward(size, fill.rest, awaited.views, read + 1);
        NoByteLostOrAdded(size, fill.rest, awaited.views, read + 1);
        PayloadsCons(fill.data, f.messages, f.lost, Stream(f.rest));
      } else if fill.Filled? {
        assert [ContentComplete][1..] == [];
      }
    }
  }

  lemma PayloadsCons(data: Payload, messages: seq<Message>, lost: Payload, unread: Payload)
    ensures Payloads([Binary(data)] + messages) + lost + unread == data + (Payloads(messages) + lost + unread)
  {
    assert ([Binary(data)] + messages)[1..] == messages;
  }

  // ------------------------------------------------------------------------------ what is lost

  /** The bytes that arrive after the last end of input before the first fault. */
  function SinceEnd(events: seq<Event>, held: Payload): Payload {
    if events == [] then held
    else match events[0]
      case Fault(_) => held
      case Interrupted => SinceEnd(events[1..], held)
      case EndOfInput => SinceEnd(events[1..], [])
      case Bytes(data) => SinceEnd(events[1..], if data == [] then [] else held + data)
  }

  /** Bytes held before an end of input do not matter, others stay in front. */
  lemma {:induction false} HeldInFront(events: seq<Event>, held: Payload, more: Payload)
    ensures SinceEnd(events, held + more) == held + SinceEnd(events, more)
         || SinceEnd(events, held + more) == SinceEnd(events, more)
  {
    if events != [] {
      match events[0] {
        case Fault(_) =>
        case Interrupted => HeldInFront(events[1..], held, more);
        case EndOfInput =>
        case Bytes(data) =>
          if data != [] {
            assert held + more + data == held + (more + data);
            HeldInFront(events[1..], held, more + data);
          }
      }
    }
  }

  /** What one fill of the buffer does to those bytes. */
  lemma {:induction false} FillSinceEnd(events: seq<Event>, space: nat, held: Payload)
    ensures FilledSince(Retry(events, space), events, space, held)
    decreases |events|
  {
    assert held + [] == held;
    if space > 0 && events != [] && events[0].Interrupted? {
      FillSinceEnd(events[1..], space, held);
    } else if space > 0 && events != [] && events[0].Bytes? && events[0].data != [] {
      var data := events[0].data;
      if |data| <= space {
        FillSinceEnd(events[1..], space - |data|, held + data);
        hide Retry;
        ChunkFilled(events, space, held, data, Retry(events[1..], space - |data|));
        RetryChunk(events, space, data);
      } else {
        CutSinceEnd(events, data, space, held);
      }
    }
  }

  /** How the bytes since the last end change when a buffer is filled. */
  ghost predicate FilledSince(f: Fill, events: seq<Event>, space: nat, held: Payload) {
    if f.Lost? then SinceEnd(events, held) == held + f.data
    else if |f.data| == space then SinceEnd(events, held) == SinceEnd(f.rest, held + f.data)
    else f.rest == [] || SinceEnd(events, held) == SinceEnd(f.rest, [])
  }

  lemma RetryChunk(events: seq<Event>, space: nat, data: Payload)
    requires events != [] && events[0] == Bytes(data) && 0 < |data| <= space
    ensures Retry(events, space) == Retry(events[1..], space - |data|).After(data)
  {
  }

  lemma ChunkFilled(events: seq<Event>, space: nat, held: Payload, data: Payload, f: Fill)
    requires events != [] && events[0] == Bytes(data) && 0 < |data| <= space
    requires FilledSince(f, events[1..], space - |data|, held + data)
    ensures FilledSince(f.After(data), events, space, held)
  {
    assert held + data + f.data == held + (data + f.data);
  }

  lemma CutSinceEnd(events: seq<Event>, data: Payload, n: nat, held: Payload)
    requires events != [] && events[0] == Bytes(data) && n < |data|
    ensures SinceEnd(events, held) == SinceEnd([Bytes(data[n..])] + events[1..], held + data[..n])
  {
    assert ([Bytes(data[n..])] + events[1..])[1..] == events[1..];
    assert held + data[..n] + data[n..] == held + data;
  }

  /** What is left of a run of bytes cut into full buffers. */
  function Remainder(size: nat, bytes: Payload): (r: Payload)
    requires size > 0
    ensures |r| < size && |r| <= |bytes| && r == bytes[|bytes| - |r|..]
    decreases |bytes|
  {
    if |bytes| < size then bytes else Remainder(size, bytes[size..])
  }

  lemma {:induction false} Multiples(p: nat, q: nat, d: nat)
    requires q < p
    ensures p * d >= q * d + d
  {
    if p == q + 1 {
      assert (q + 1) * d == q * d + d;
    } else {
      Multiples(p - 1, q, d);
      assert p * d == (p - 1) * d + d;
    }
  }

  lemma ModUnique(n: nat, d: nat, q: nat, r: nat)
    requires d > 0 && r < d && n == q * d + r
    ensures n % d == r
  {
    var p, m := n / d, n % d;
    assert n == p * d + m;
    SameQuotient(d, p, m, q, r);
  }

  lemma SameQuotient(d: nat, p: nat, m: nat, q: nat, r: nat)
    requires p * d + m == q * d + r && m < d && r < d
    ensures m == r
  {
    if q < p {
      Multiples(p, q, d);
    } else if p < q {
      Multiples(q, p, d);
    }
  }

  lemma ModStep(n: nat, d: nat)
    requires 0 < d <= n
    ensures n % d == (n - d) % d
  {
    var q, r := (n - d) / d, (n - d) % d;
    assert n - d == q * d + r;
    assert (q + 1) * d == q * d + d;
    ModUnique(n, d, q + 1, r);
  }

  lemma {:induction false} RemainderLength(size: nat, bytes: Payload)
    requires size > 0
    ensures |Remainder(size, bytes)| == |bytes| % size
    decreases |bytes|
  {
    if |bytes| < size {
      ModUnique(|bytes|, size, 0, |bytes|);
    } else {
      RemainderLength(size, bytes[size..]);
      ModStep(|bytes|, size);
    }
  }

  /** One turn of a loop that ends in a failed read. */
  lemma TurnBeforeFailure(size: nat, events: seq<Event>, views: seq<Capacity>, read: nat)
    requires size > 0 && Forward(size, events, views, read).ending.ReadFailed?
    ensures Await(read, views).Granted?
    ensures var f, fill := Forward(size, events, views, read), Retry(events, size);
            if fill.Lost? then f.lost == fill.data
            else
              var next := Forward(size, fill.rest, Await(read, views).views, read + 1);
              && fill.rest != [] && Weight(fill.rest) < Weight(events)
              && next.ending.ReadFailed? && f.lost == next.lost
  {
    assert Retry([], size) == Filled([], []);
  }

  /** A read that fails for good drops exactly the bytes since the last end of input that do not
      make up a full buffer. */
  lemma {:induction false} LostIsRemainder(size: nat, events: seq<Event>, views: seq<Capacity>, read: nat)
    requires size > 0
    requires Forward(size, events, views, read).ending.ReadFailed?
    ensures Forward(size, events, views, read).lost == Remainder(size, SinceEnd(events, []))
    decreases Weight(events)
  {
    hide Forward, Retry, Await, SinceEnd, Stream;
    var fill := Retry(events, size);
    TurnBeforeFailure(size, events, views, read);
    FillSinceEnd(events, size, []);
    assert [] + fill.data == fill.data;
    if fill.Filled? {
      LostIsRemainder(size, fill.rest, Await(read, views).views, read + 1);
      if |fill.data| == size {
        HeldInFront(fill.rest, fill.data, []);
        assert fill.data + [] == fill.data;
        FullBuffersGone(size, fill.data, SinceEnd(fill.rest, []));
      }
    }
  }

  lemma FullBuffersGone(size: nat, full: Payload, bytes: Payload)
    requires size > 0 && |full| == size
    ensures Remainder(size, full + bytes) == Remainder(size, bytes)
  {
    assert (full + bytes)[size..] == bytes;
  }

  /** So nothing is lost exactly when the bytes since the last end of input fill whole buffers. */
  lemma NothingLostIff(size: nat, events: seq<Event>, views: seq<Capacity>, read: nat)
    requires size > 0
    requires Forward(size, events, views, read).ending.ReadFailed?
    ensures |Forward(size, events, views, read).lost| == |SinceEnd(events, [])| % size
    ensures Forward(size, events, views, read).lost == [] <==> |SinceEnd(events, [])| % size == 0
  {
    LostIsRemainder(size, events, views, read);
    RemainderLength(size, SinceEnd(events, []));
  }

  lemma SinceEndStep(event: Event, more: seq<Event>, held: Payload)
    ensures SinceEnd([event] + more, held) ==
            match event {
              case Fault(_) => held
              case Interrupted => SinceEnd(more, held)
              case EndOfInput => SinceEnd(more, [])
              case Bytes(data) => SinceEnd(more, if data == [] then [] else held + data)
            }
  {
    assert ([event] + more)[1..] == more;
  }

  lemma {:induction false} SteadyUntilFault(pre: seq<Event>, code: nat, post: seq<Event>, held: Payload)
    requires Steady(pre)
    ensures SinceEnd(pre + [Fault(code)] + post, held) == held + Stream(pre)
  {
    hide SinceEnd;
    var all := pre + [Fault(code)] + post;
    if pre == [] {
      assert all == [Fault(code)] + post && held + [] == held;
      SinceEndStep(Fault(code), post, held);
    } else {
      var first, more := pre[0], pre[1..];
      var rest := more + [Fault(code)] + post;
      assert first in pre;
      assert all == [first] + rest;
      SinceEndStep(first, rest, held);
      SteadyUntilFault(more, code, post, if first.Bytes? then held + first.data else held);
      assert first.Bytes? ==> held + first.data + Stream(more) == held + (first.data + Stream(more));
    }
  }

  /** In particular, before a first fault on a steady reader. */
  lemma LossBeforeFault(size: nat, pre: seq<Event>, code: nat, post: seq<Event>, views: seq<Capacity>, read: nat)
    requires size > 0 && Steady(pre)
    requires Forward(size, pre + [Fault(code)] + post, views, read).ending.ReadFailed?
    ensures |Forward(size, pre + [Fault(code)] + post, views, read).lost| == |Stream(pre)| % size
  {
    SteadyUntilFault(pre, code, post, []);
    assert [] + Stream(pre) == Stream(pre);
    NothingLostIff(size, pre + [Fault(code)] + post, views, read);
  }

  /** One byte arrives and the next read fails: the byte is never sent. */
  lemma ByteLost(b: byte, code: nat)
    ensures Forward(BUFFER_SIZE, [Bytes([b]), Fault(code)], [Capacity(0, 0)], 0) ==
            Forwarded([], ReadFailed(code), [b], [])
  {
    var events := [Bytes([b]), Fault(code)];
    assert events[1..] == [Fault(code)] && [Fault(code)][1..] == [];
    assert Retry([Fault(code)], BUFFER_SIZE - 1) == Lost(code, [], []);
    assert [b] + [] == [b];
  }

  /** Each message has 1 to `size` bytes, and ContentComplete is sent exactly on completion, as
      the last message. */
  lemma {:induction false} MessagesWellFormed(size: nat, events: seq<Event>, views: seq<Capacity>, read: nat)
    requires size > 0
    ensures var f := Forward(size, events, views, read);
            && WellFormed(size, f.messages)
            && (ContentComplete in f.messages <==> f.ending.Completed?)
    decreases Weight(events)
  {
    var awaited := Await(read, views);
    if awaited.Granted? {
      var fill := Retry(events, size);
      if fill.Filled? && fill.data != [] {
        MessagesWellFormed(size, fill.rest, awaited.views, read + 1);
        var f := Forward(size, fill.rest, awaited.views, read + 1);
        var messages := [Binary(fill.data)] + f.messages;
        forall i | 0 <= i < |messages|
          ensures if messages[i].Binary? then 0 < |messages[i].payload| <= size else i == |messages| - 1
        {
          if i > 0 { assert messages[i] == f.messages[i - 1]; }
        }
      }
    }
  }

  /** The messages a stream of bytes calls for: full buffers, a last shorter one, the end mark. */
  function Ideal(size: nat, stream: Payload): seq<Message>
    requires size > 0
    decreases |stream|
  {
    if stream == [] then [ContentComplete]
    else if |stream| <= size then [Binary(stream), ContentComplete]
    else [Binary(stream[..size])] + Ideal(size, stream[size..])
  }

  lemma PayloadsFirst(message: Message, messages: seq<Message>)
    ensures Payloads([message] + messages) == (if message.Binary? then message.payload else []) + Payloads(messages)
  {
    assert ([message] + messages)[1..] == messages;
  }

  lemma {:induction false} IdealBytes(size: nat, stream: Payload)
    requires size > 0
    ensures Payloads(Ideal(size, stream)) == stream
    decreases |stream|
  {
    hide Payloads;
    NoPayloads();
    if |stream| > size {
      IdealBytes(size, stream[size..]);
      PayloadsFirst(Binary(stream[..size]), Ideal(size, stream[size..]));
      assert stream == stream[..size] + stream[size..];
    } else if stream != [] {
      PayloadsFirst(Binary(stream), [ContentComplete]);
      assert [Binary(stream)] + [ContentComplete] == Ideal(size, stream);
      assert stream + [] == stream;
    }
  }

  lemma NoPayloads()
    ensures Payloads([ContentComplete]) == []
  {
    assert [ContentComplete][1..] == [];
  }

  /** All messages but the last two are full buffers. */
  lemma {:induction false} IdealFull(size: nat, stream: Payload, i: nat)
    requires size > 0 && i + 2 < |Ideal(size, stream)|
    ensures Ideal(size, stream)[i].Binary? && |Ideal(size, stream)[i].payload| == size
    decreases |stream|
  {
    if i > 0 {
      IdealFull(size, stream[size..], i - 1);
    }
  }

  /** On a steady reader a buffer is filled with the next bytes of the stream, as far as it goes. */
  lemma {:induction false} RetrySteady(events: seq<Event>, space: nat)
    requires Steady(events)
    ensures var f := Retry(events, space);
            && f.Filled? && Steady(f.rest)
            && f.data == Stream(events)[..Min(space, |Stream(events)|)]
            && Stream(f.rest) == Stream(events)[Min(space, |Stream(events)|)..]
    decreases |events|
  {
    if space > 0 && events != [] {
      var head, tail := events[0], events[1..];
      assert head in events;
      assert Steady(tail);
      var f := Retry(events, space);
      match head {
        case Interrupted => RetrySteady(tail, space);
        case Bytes(data) =>
          if |data| <= space {
            RetrySteady(tail, space - |data|);
          } else {
            assert Steady([Bytes(data[space..])] + tail);
          }
      }
      assert f.data + Stream(f.rest) == Stream(events);
    }
  }

  /** On a steady reader the messages are those the bytes call for: all of them when the loop
      completes, a prefix while it still waits for credit.  How the bytes arrived plays no part. */
  lemma {:induction false} SteadyForwarding(size: nat, events: seq<Event>, views: seq<Capacity>, read: nat)
    requires size > 0 && Steady(events)
    ensures var f := Forward(size, events, views, read);
            && !f.ending.ReadFailed?
            && f.messages <= Ideal(size, Stream(events))
            && (f.ending.Completed? ==> f.messages == Ideal(size, Stream(events)))
    decreases Weight(events)
  {
    var awaited := Await(read, views);
    if awaited.Granted? {
      RetrySteady(events, size);
      var fill, stream := Retry(events, size), Stream(events);
      if fill.data != [] {
        SteadyForwarding(size, fill.rest, awaited.views, read + 1);
        if |stream| <= size {
          assert stream[..|stream|] == stream && Ideal(size, stream[|stream|..]) == [ContentComplete];
        }
        assert Ideal(size, stream) == [Binary(fill.data)] + Ideal(size, Stream(fill.rest));
      }
    }
  }

  /** Each look finds room for the message it is made for. */
  predicate Admitting(views: seq<Capacity>, read: nat) {
    forall i :: 0 <= i < |views| ==>
      Check(read + i, views[i].maxMessagesOutstanding, views[i].messagesWritten).Admit?
  }

  /** With room at every look and a look for every message the loop completes. */
  lemma {:induction false} CreditCompletes(size: nat, events: seq<Event>, views: seq<Capacity>, read: nat)
    requires size > 0 && Steady(events)
    requires Admitting(views, read) && |views| >= |Ideal(size, Stream(events))|
    ensures Forward(size, events, views, read).ending.Completed?
    ensures Forward(size, events, views, read).messages == Ideal(size, Stream(events))
    decreases Weight(events)
  {
    RetrySteady(events, size);
    SteadyForwarding(size, events, views, read);
    var fill, stream := Retry(events, size), Stream(events);
    assert Check(read + 0, views[0].maxMessagesOutstanding, views[0].messagesWritten).Admit?;
    if fill.data != [] {
      if |stream| <= size {
        assert stream[..|stream|] == stream && Ideal(size, stream[|stream|..]) == [ContentComplete];
      }
      assert Ideal(size, stream) == [Binary(fill.data)] + Ideal(size, Stream(fill.rest));
      assert Admitting(views[1..], read + 1) by {
        forall i | 0 <= i < |views[1..]|
          ensures Check(read + 1 + i, views[1..][i].maxMessagesOutstanding, views[1..][i].messagesWritten).Admit?
        {
          assert read + 1 + i == read + (i + 1) && views[1..][i] == views[i + 1];
        }
      }
      CreditCompletes(size, fill.rest, views[1..], read + 1);
    }
  }

  /** The bulk and the terminal loop deliver the same bytes. */
  lemma TerminalDeliversSameBytes(events: seq<Event>, bulk: seq<Capacity>, tty: seq<Capacity>)
    requires Steady(events)
    requires Forward(BUFFER_SIZE, events, bulk, 0).ending.Completed?
    requires Forward(1, events, tty, 0).ending.Completed?
    ensures Payloads(Forward(BUFFER_SIZE, events, bulk, 0).messages) == Stream(events)
    ensures Payloads(Forward(1, events, tty, 0).messages) == Stream(events)
  {
    SteadyForwarding(BUFFER_SIZE, events, bulk, 0);
    SteadyForwarding(1, events, tty, 0);
    IdealBytes(BUFFER_SIZE, Stream(events));
    IdealBytes(1, Stream(events));
  }
}
