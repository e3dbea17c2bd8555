/** The protocol and the reading loop brought together.  When the reader of the protocol fills its
    buffer before each message, a run of the protocol sends what the loop sends given the values
    loaded in that run, and all of it is what the input calls for. */
module ExecStreaming {
  import opened Wrappers
  import opened ExecProtocol
  import opened StdinForwarding

  // ------------------------------------------------------------------------ runs with full fills

  /** A message takes as much input as the buffer holds. */
  predicate Fills(size: nat, s: State, step: Step) {
    step.SendInput? ==> step.payload == s.unread[..Min(size, |s.unread|)]
  }

  ghost predicate LeadsFilling(size: nat, s: State, schedule: seq<Step>, t: State)
    decreases |schedule|
  {
    if schedule == [] then s == t
    else
      && Enabled(s, schedule[0]) && Fills(size, s, schedule[0])
      && LeadsFilling(size, Take(s, schedule[0]), schedule[1..], t)
  }

  /** Such runs are runs, so all that holds of every reachable state holds of theirs. */
  lemma {:induction false} FillingLeads(size: nat, s: State, schedule: seq<Step>, t: State)
    requires LeadsFilling(size, s, schedule, t)
    ensures Leads(s, schedule, t)
    decreases |schedule|
  {
    if schedule != [] {
      FillingLeads(size, Take(s, schedule[0]), schedule[1..], t);
    }
  }

  /** Payloads as the messages that carry them. */
  function Binaries(payloads: seq<Payload>): seq<Message> {
    seq(|payloads|, i requires 0 <= i < |payloads| => Binary(payloads[i]))
  }

  lemma BinariesSnoc(payloads: seq<Payload>, payload: Payload)
    ensures Binaries(payloads + [payload]) == Binaries(payloads) + [Binary(payload)]
  {
  }

  // ----------------------------------------------------------------------- what the input calls for

  lemma IdealNext(size: nat, stream: Payload)
    requires size > 0 && stream != []
    ensures var n := Min(size, |stream|);
            Ideal(size, stream) == [Binary(stream[..n])] + Ideal(size, stream[n..])
  {
    if |stream| <= size {
      assert stream[..|stream|] == stream && Ideal(size, stream[|stream|..]) == [ContentComplete];
    }
  }

  /** What was sent and what the unread input calls for make up what the input calls for. */
  ghost predicate OnTrack(size: nat, input: Payload, s: State)
    requires size > 0
  {
    Binaries(s.sent) + Ideal(size, s.unread) == Ideal(size, input)
  }

  lemma OnTrackKept(size: nat, input: Payload, s: State, step: Step)
    requires size > 0 && OnTrack(size, input, s) && Enabled(s, step) && Fills(size, s, step)
    ensures OnTrack(size, input, Take(s, step))
  {
    if step.SendInput? {
      hide Ideal, Binaries;
      var n := Min(size, |s.unread|);
      assert step.payload == s.unread[..n] && |step.payload| == n;
      IdealNext(size, s.unread);
      BinariesSnoc(s.sent, step.payload);
      var rest := Ideal(size, s.unread[n..]);
      assert Binaries(s.sent) + ([Binary(step.payload)] + rest) == Binaries(s.sent) + [Binary(step.payload)] + rest;
    }
  }

  lemma {:induction false} OnTrackAlong(size: nat, input: Payload, s: State, schedule: seq<Step>, t: State)
    requires size > 0 && OnTrack(size, input, s) && LeadsFilling(size, s, schedule, t)
    ensures OnTrack(size, input, t)
    decreases |schedule|
  {
    if schedule != [] {
      OnTrackKept(size, input, s, schedule[0]);
      OnTrackAlong(size, input, Take(s, schedule[0]), schedule[1..], t);
    }
  }

  /** In every state such a run reaches, the messages sent are the first of those the input calls
      for, and all but the end mark once the reader is done. */
  lemma SentIsIdealPrefix(size: nat, input: Payload, schedule: seq<Step>, s: State)
    requires size > 0 && LeadsFilling(size, Init(input), schedule, s)
    ensures Binaries(s.sent) + Ideal(size, s.unread) == Ideal(size, input)
    ensures Binaries(s.sent) <= Ideal(size, input)
    ensures s.reader.Finished? ==> Binaries(s.sent) + [ContentComplete] == Ideal(size, input)
  {
    assert Binaries([]) == [] && [] + Ideal(size, input) == Ideal(size, input);
    OnTrackAlong(size, input, Init(input), schedule, s);
    FillingLeads(size, Init(input), schedule, s);
    ReachableInvariants(input, s);
  }

  // --------------------------------------------------------------------- the loop in such a run

  /** The values compared in a run, one pair for each look. */
  function Views(s: State, schedule: seq<Step>): seq<Capacity>
    decreases |schedule|
  {
    if schedule == [] || !Enabled(s, schedule[0]) then []
    else
      (if schedule[0].CheckCapacity? then [Capacity(s.reader.max, s.messagesWritten)] else [])
      + Views(Take(s, schedule[0]), schedule[1..])
  }

  /** The loop from the point at which it may read. */
  function Admitted(size: nat, events: seq<Event>, views: seq<Capacity>, read: nat): Forwarded
    requires size > 0
  {
    match Retry(events, size)
    case Lost(code, data, rest) => Forwarded([], ReadFailed(code), data, rest)
    case Filled(data, rest) =>
      if data == [] then Forwarded([ContentComplete], Completed, [], rest)
      else
        var f := Forward(size, rest, views, read + 1);
        f.(messages := [Binary(data)] + f.messages)
  }

  /** The loop from where the reader stands. */
  function FromHere(size: nat, events: seq<Event>, views: seq<Capacity>, s: State): Forwarded
    requires size > 0
  {
    if s.reader.MayRead? then Admitted(size, events, views, |s.sent|) else Forward(size, events, views, |s.sent|)
  }

  lemma LookedAt(size: nat, events: seq<Event>, view: Capacity, views: seq<Capacity>, read: nat)
    requires size > 0
    ensures Forward(size, events, [view] + views, read) ==
            match Check(read, view.maxMessagesOutstanding, view.messagesWritten) {
              case Admit => Admitted(size, events, views, read)
              case Wait => Forward(size, events, views, read)
              case ServerCount => Forwarded([], CountMismatch, [], events)
            }
  {
    assert ([view] + views)[1..] == views;
  }

  predicate Active(reader: Reader) { reader.Looping? || reader.LoadedMax? || reader.MayRead? }

  /** A reader that has stopped sends nothing more. */
  lemma {:induction false} StoppedStays(size: nat, s: State, schedule: seq<Step>, t: State)
    requires LeadsFilling(size, s, schedule, t) && !Active(s.reader)
    ensures t.sent == s.sent && t.reader == s.reader && Views(s, schedule) == []
    decreases |schedule|
  {
    if schedule != [] {
      StoppedStays(size, Take(s, schedule[0]), schedule[1..], t);
    }
  }

  /** How the loop ends when the protocol's reader stands like this. */
  function EndingOf(reader: Reader): Ending {
    if reader.Finished? then Completed else if reader.Failed? then CountMismatch else Stalled
  }

  function EndMark(reader: Reader): seq<Message> { if reader.Finished? then [ContentComplete] else [] }

  /** The rest of a run, from s to t, does what the loop does from here on. */
  ghost predicate Agrees(size: nat, events: seq<Event>, views: seq<Capacity>, s: State, t: State)
    requires size > 0
  {
    var f := FromHere(size, events, views, s);
    && Binaries(t.sent) + EndMark(t.reader) == Binaries(s.sent) + f.messages
    && f.ending == EndingOf(t.reader)
  }

  lemma AgreesAtRest(size: nat, events: seq<Event>, s: State)
    requires size > 0 && (s.reader.Looping? || s.reader.LoadedMax?)
    ensures Agrees(size, events, [], s, s)
  {
  }

  /** The server's and the future's steps, and a load, change nothing the loop sees. */
  lemma AgreesQuietly(size: nat, events: seq<Event>, views: seq<Capacity>, s: State, step: Step, t: State)
    requires size > 0 && Enabled(s, step) && Active(s.reader)
    requires !step.CheckCapacity? && !step.SendInput? && !step.EndInput?
    requires Agrees(size, events, views, Take(s, step), t)
    ensures Agrees(size, events, views, s, t)
  {
    hide Forward, Retry, Binaries;
  }

  lemma AgreesAfterLook(size: nat, events: seq<Event>, views: seq<Capacity>, s: State, t: State)
    requires size > 0 && s.reader.LoadedMax?
    requires var next := Take(s, CheckCapacity);
             if Active(next.reader) then Agrees(size, events, views, next, t)
             else t.sent == next.sent && t.reader == next.reader
    ensures Agrees(size, events, [Capacity(s.reader.max, s.messagesWritten)] + views, s, t)
  {
    hide Forward, Retry, Binaries, Admitted;
    LookedAt(size, events, Capacity(s.reader.max, s.messagesWritten), views, |s.sent|);
    assert Binaries(s.sent) + [] == Binaries(s.sent);
  }

  lemma AgreesAfterSend(size: nat, events: seq<Event>, rest: seq<Event>, views: seq<Capacity>, s: State,
                        payload: Payload, t: State)
    requires size > 0 && Enabled(s, SendInput(payload)) && Retry(events, size) == Filled(payload, rest)
    requires Agrees(size, rest, views, Take(s, SendInput(payload)), t)
    ensures Agrees(size, events, views, s, t)
  {
    hide Forward, Retry, Binaries;
    BinariesSnoc(s.sent, payload);
    var f := Forward(size, rest, views, |s.sent| + 1);
    assert Binaries(s.sent) + ([Binary(payload)] + f.messages) == Binaries(s.sent) + [Binary(payload)] + f.messages;
  }

  lemma AgreesAtEnd(size: nat, events: seq<Event>, rest: seq<Event>, views: seq<Capacity>, s: State, t: State)
    requires size > 0 && Enabled(s, EndInput) && Retry(events, size) == Filled([], rest)
    requires t.sent == s.sent && t.reader.Finished?
    ensures Agrees(size, events, views, s, t)
  {
  }

  /** On a reader that delivers the unread input in any pieces. */
  lemma {:induction false} RunAgrees(size: nat, events: seq<Event>, s: State, schedule: seq<Step>, t: State)
    requires size > 0 && Steady(events) && Stream(events) == s.unread
    requires Active(s.reader) && !t.reader.MayRead? && LeadsFilling(size, s, schedule, t)
    ensures Agrees(size, events, Views(s, schedule), s, t)
    decreases |schedule|
  {
    hide Agrees, Forward, Retry, Stream;
    if schedule == [] {
      AgreesAtRest(size, events, s);
    } else {
      var step, more := schedule[0], schedule[1..];
      var next := Take(s, step);
      var views := Views(next, more);
      if step.CheckCapacity? {
        if Active(next.reader) {
          RunAgrees(size, events, next, more, t);
        } else {
          StoppedStays(size, next, more, t);
        }
        AgreesAfterLook(size, events, views, s, t);
      } else if step.SendInput? {
        RetrySteady(events, size);
        var rest := Retry(events, size).rest;
        RunAgrees(size, rest, next, more, t);
        assert [] + views == views;
        AgreesAfterSend(size, events, rest, views, s, step.payload, t);
      } else if step.EndInput? {
        RetrySteady(events, size);
        StoppedStays(size, next, more, t);
        assert [] + views == views;
        AgreesAtEnd(size, events, Retry(events, size).rest, views, s, t);
      } else {
        RunAgrees(size, events, next, more, t);
        assert [] + views == views;
        AgreesQuietly(size, events, views, s, step, t);
      }
    }
  }

  /** Every run of the protocol with full fills, seen at any moment at which the reader is not about
      to read, is a run of the reading loop: given the pairs of values compared in it, the loop sends
      the same messages and ends accordingly, however the input is delivered to it. */
  lemma ProtocolRunsLoop(size: nat, events: seq<Event>, schedule: seq<Step>, t: State)
    requires size > 0 && Steady(events)
    requires LeadsFilling(size, Init(Stream(events)), schedule, t) && !t.reader.MayRead?
    ensures var f := Forward(size, events, Views(Init(Stream(events)), schedule), 0);
            && f.messages == Binaries(t.sent) + EndMark(t.reader)
            && f.ending == EndingOf(t.reader)
  {
    var s := Init(Stream(events));
    RunAgrees(size, events, s, schedule, t);
    hide Forward, Stream, Views;
    assert Binaries([]) == [];
    var f := Forward(size, events, Views(s, schedule), 0);
    assert [] + f.messages == f.messages;
  }
}
