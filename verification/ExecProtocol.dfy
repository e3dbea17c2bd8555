/** Flow control of `apiclient exec`.  Three parties run interleaved: the thread that reads the
    user's input, the future that handles server messages, and the server.  They share two
    atomics, stored one after the other by the future and loaded one after the other by the
    reader, so a reader can see the maximum of one update with the count of another. */
module ExecProtocol {
  import opened Wrappers

  type byte = n: nat | n < 256
  type Payload = seq<byte>

  /** A capacity update as the server sends it. */
  datatype Capacity = Capacity(maxMessagesOutstanding: nat, messagesWritten: nat)

  // ------------------------------------------------------------------- one look at the atomics

  datatype Admission = Admit | Wait | ServerCount

  /** What a reader that has read `messagesRead` messages concludes from the two values. */
  function Check(messagesRead: nat, maxOutstanding: nat, messagesWritten: nat): Admission {
    if messagesRead < messagesWritten then ServerCount
    else if messagesRead - messagesWritten <= maxOutstanding then Admit
    else Wait
  }

  // --------------------------------------------------------------------------------- the state

  datatype Reader =
    | Looping                   // about to load the maximum
    | LoadedMax(max: nat)       // about to load the written count and compare
    | MayRead                   // wait_for_capacity returned Ok
    | Finished                  // end of input, ContentComplete sent
    | Failed                    // wait_for_capacity returned ServerCount

  datatype State = State(
    unread: Payload,            // what stdin still holds
    sent: seq<Payload>,         // Binary messages handed to the socket, all of them, in order
    reader: Reader,
    received: nat,              // how many of them the server has taken off the socket
    written: nat,               // how many of them the server has written to the process
    announced: seq<Capacity>,   // capacity updates the server has sent, all of them, in order
    delivered: nat,             // how many of them the future has taken off the socket
    pending: Option<nat>,       // a written count the future has yet to store
    maxOutstanding: nat,        // the first atomic
    messagesWritten: nat)       // the second atomic

  function Init(input: Payload): State {
    State(input, [], Looping, 0, 0, [], 0, None, 0, 0)
  }

  datatype Step =
    | LoadMax
    | CheckCapacity
    | SendInput(payload: Payload)
    | EndInput
    | Receive
    | Write
    | Announce(max: nat)
    | StoreMax
    | StoreWritten

  /** The steps that can be taken; the server's maximum is its own choice every time. */
  predicate Enabled(s: State, step: Step) {
    match step
    case LoadMax => s.reader.Looping?
    case CheckCapacity => s.reader.LoadedMax?
    case SendInput(payload) => s.reader.MayRead? && payload != [] && payload <= s.unread
    case EndInput => s.reader.MayRead? && s.unread == []
    case Receive => s.received < |s.sent|
    case Write => s.written < s.received
    case Announce(_) => true
    case StoreMax => s.pending.None? && s.delivered < |s.announced|
    case StoreWritten => s.pending.Some?
  }

  function Take(s: State, step: Step): State
    requires Enabled(s, step)
  {
    match step
    case LoadMax => s.(reader := LoadedMax(s.maxOutstanding))
    case CheckCapacity =>
      (match Check(|s.sent|, s.reader.max, s.messagesWritten)
       case ServerCount => s.(reader := Failed)
       case Admit => s.(reader := MayRead)
       case Wait => s.(reader := Looping))
    case SendInput(payload) =>
      s.(sent := s.sent + [payload], unread := s.unread[|payload|..], reader := Looping)
    case EndInput => s.(reader := Finished)
    case Receive => s.(received := s.received + 1)
    case Write => s.(written := s.written + 1)
    case Announce(max) => s.(announced := s.announced + [Capacity(max, s.written)])
    case StoreMax =>
      var update := s.announced[s.delivered];
      s.(delivered := s.delivered + 1, maxOutstanding := update.maxMessagesOutstanding,
         pending := Some(update.messagesWritten))
    case StoreWritten => s.(messagesWritten := s.pending.value, pending := None)
  }

  /** The state after a schedule of steps, as far as each is enabled. */
  ghost predicate Leads(s: State, schedule: seq<Step>, t: State)
    decreases |schedule|
  {
    if schedule == [] then s == t
    else Enabled(s, schedule[0]) && Leads(Take(s, schedule[0]), schedule[1..], t)
  }

  ghost predicate Reachable(input: Payload, s: State) {
    exists schedule :: Leads(Init(input), schedule, s)
  }

  // ------------------------------------------------------------------------------- invariants

  /** The largest maximum among some updates; 0 when there is none. */
  function Largest(updates: seq<Capacity>): (m: nat)
    ensures forall u :: u in updates ==> u.maxMessagesOutstanding <= m
    ensures m == 0 || exists u :: u in updates && u.maxMessagesOutstanding == m
  {
    if updates == [] then 0
    else
      var rest := Largest(updates[..|updates| - 1]);
      assert updates == updates[..|updates| - 1] + [updates[|updates| - 1]];
      var last := updates[|updates| - 1].maxMessagesOutstanding;
      if last > rest then last else rest
  }

  /** The updates the client has taken delivery of. */
  function Delivered(s: State): seq<Capacity>
    requires s.delivered <= |s.announced|
  {
    s.announced[..s.delivered]
  }

  function Outstanding(s: State): int { |s.sent| - s.written }

  function Flatten(payloads: seq<Payload>): Payload {
    if payloads == [] then [] else Flatten(payloads[..|payloads| - 1]) + payloads[|payloads| - 1]
  }

  /** Nothing is counted before it happened. */
  ghost predicate Causal(s: State) {
    && s.written <= s.received <= |s.sent|
    && s.delivered <= |s.announced|
    && (forall u :: u in s.announced ==> u.messagesWritten <= s.written)
    && s.messagesWritten <= s.written
    && (s.pending.Some? ==> s.pending.value <= s.written)
    && !s.reader.Failed?
  }

  /** The credit rule, with everything the reader remembers about the atomics. */
  ghost predicate Credit(s: State)
    requires s.delivered <= |s.announced|
  {
    var limit := Largest(Delivered(s));
    && s.maxOutstanding <= limit
    && (s.reader.LoadedMax? ==> s.reader.max <= limit)
    && (s.reader.MayRead? ==> Outstanding(s) <= limit)
    && Outstanding(s) <= limit + 1
  }

  /** Every byte is in a message or still unread, in order. */
  ghost predicate Conserving(s: State, input: Payload) {
    Flatten(s.sent) + s.unread == input && (s.reader.Finished? ==> s.unread == [])
  }

  lemma CausalKept(s: State, step: Step)
    requires Causal(s) && Enabled(s, step)
    ensures Causal(Take(s, step))
  {
    if step.StoreMax? {
      assert s.announced[s.delivered] in s.announced;
    }
  }

  lemma LargestGrows(updates: seq<Capacity>, more: seq<Capacity>)
    requires updates <= more
    ensures Largest(updates) <= Largest(more)
  {
    if Largest(updates) != 0 {
      var u :| u in updates && u.maxMessagesOutstanding == Largest(updates);
      assert u in more;
    }
  }

  lemma CreditKept(s: State, step: Step)
    requires Causal(s) && Credit(s) && Enabled(s, step)
    ensures Causal(Take(s, step)) && Credit(Take(s, step))
  {
    CausalKept(s, step);
    DeliveredGrows(s, step);
    hide Causal, Largest, Delivered;
    assert s.messagesWritten <= s.written && s.written <= |s.sent| by { Counted(s); }
  }

  lemma Counted(s: State)
    requires Causal(s)
    ensures s.messagesWritten <= s.written <= |s.sent|
  {
  }

  /** The largest delivered maximum never falls, and covers an update as it is delivered. */
  lemma DeliveredGrows(s: State, step: Step)
    requires s.delivered <= |s.announced| && Enabled(s, step)
    ensures var t := Take(s, step);
            && t.delivered <= |t.announced| && Largest(Delivered(s)) <= Largest(Delivered(t))
            && (step.StoreMax? ==> t.maxOutstanding <= Largest(Delivered(t)))
  {
    var t := Take(s, step);
    if step.Announce? {
      assert Delivered(t) == Delivered(s);
    } else if step.StoreMax? {
      LargestGrows(Delivered(s), Delivered(t));
      assert s.announced[s.delivered] == Delivered(t)[s.delivered];
    }
  }

  lemma ConservingKept(s: State, step: Step, input: Payload)
    requires Conserving(s, input) && Enabled(s, step)
    ensures Conserving(Take(s, step), input)
  {
    if step.SendInput? {
      var sent := s.sent + [step.payload];
      assert sent[..|sent| - 1] == s.sent;
      assert s.unread == step.payload + s.unread[|step.payload|..];
      assert Flatten(s.sent) + (step.payload + s.unread[|step.payload|..])
          == Flatten(s.sent) + step.payload + s.unread[|step.payload|..];
    }
  }

  lemma {:induction false} InvariantsAlong(s: State, schedule: seq<Step>, t: State, input: Payload)
    requires Causal(s) && Credit(s) && Conserving(s, input)
    requires Leads(s, schedule, t)
    ensures Causal(t) && Credit(t) && Conserving(t, input)
    decreases |schedule|
  {
    if schedule != [] {
      CreditKept(s, schedule[0]);
      ConservingKept(s, schedule[0], input);
      InvariantsAlong(Take(s, schedule[0]), schedule[1..], t, input);
    }
  }

  lemma ReachableInvariants(input: Payload, s: State)
    requires Reachable(input, s)
    ensures Causal(s) && Credit(s) && Conserving(s, input)
  {
    var schedule :| Leads(Init(input), schedule, s);
    InvariantsAlong(Init(input), schedule, s, input);
  }

  // ------------------------------------------------------------------------------ main results

  /** In every reachable state, however the loads and stores interleave: messages sent but not
      written exceed the largest maximum the client has been told by at most one, and the
      reader has never concluded that the server wrote more than it was sent. */
  lemma FlowControl(input: Payload, s: State)
    requires Reachable(input, s)
    ensures s.delivered <= |s.announced|
    ensures 0 <= Outstanding(s) <= Largest(Delivered(s)) + 1
    ensures s.delivered == 0 ==> Outstanding(s) <= 1
    ensures !s.reader.Failed?
  {
    ReachableInvariants(input, s);
  }

  /** In every reachable state the process has been given a prefix of the input, in order, and
      after the end of input everything has been sent. */
  lemma InOrderDelivery(input: Payload, s: State)
    requires Reachable(input, s)
    ensures s.written <= |s.sent|
    ensures Flatten(s.sent[..s.written]) <= input
    ensures s.reader.Finished? ==> Flatten(s.sent) == input
  {
    ReachableInvariants(input, s);
    FlattenPrefix(s.sent, s.written);
  }

  lemma {:induction false} FlattenPrefix(payloads: seq<Payload>, n: nat)
    requires n <= |payloads|
    ensures Flatten(payloads[..n]) <= Flatten(payloads)
  {
    if n == |payloads| {
      assert payloads[..n] == payloads;
    } else {
      assert payloads[..|payloads| - 1][..n] == payloads[..n];
      FlattenPrefix(payloads[..|payloads| - 1], n);
    }
  }

  // ------------------------------------------------------------------------ the bound is reached

  lemma {:induction false} LeadsJoin(s: State, first: seq<Step>, t: State, second: seq<Step>, u: State)
    requires Leads(s, first, t) && Leads(t, second, u)
    ensures Leads(s, first + second, u)
    decreases |first|
  {
    if first == [] {
      assert first + second == second;
    } else {
      assert (first + second)[1..] == first[1..] + second;
      LeadsJoin(Take(s, first[0]), first[1..], t, second, u);
    }
  }

  lemma LeadsOne(s: State, step: Step)
    requires Enabled(s, step)
    ensures Leads(s, [step], Take(s, step))
  {
    assert [step][1..] == [];
  }

  /** The state after k one-byte messages under one delivered maximum, none written. */
  function Filled(input: Payload, max: nat, k: nat): State
    requires k <= |input|
  {
    State(input[k..], seq(k, i requires 0 <= i < k <= |input| => [input[i]]), Looping, 0, 0,
          [Capacity(max, 0)], 1, None, max, 0)
  }

  lemma {:induction false} FillUp(input: Payload, max: nat, k: nat)
    requires k <= |input| && k <= max + 1
    ensures Reachable(input, Filled(input, max, k))
  {
    if k == 0 {
      var s0 := Init(input);
      var s1 := Take(s0, Announce(max));
      var s2 := Take(s1, StoreMax);
      LeadsOne(s0, Announce(max));
      LeadsOne(s1, StoreMax);
      LeadsOne(s2, StoreWritten);
      LeadsJoin(s1, [StoreMax], s2, [StoreWritten], Take(s2, StoreWritten));
      LeadsJoin(s0, [Announce(max)], s1, [StoreMax] + [StoreWritten], Take(s2, StoreWritten));
      assert Take(s2, StoreWritten) == Filled(input, max, 0);
    } else {
      FillUp(input, max, k - 1);
      var schedule :| Leads(Init(input), schedule, Filled(input, max, k - 1));
      var s0, payload := Filled(input, max, k - 1), [input[k - 1]];
      var s1 := Take(s0, LoadMax);
      var s2 := Take(s1, CheckCapacity);
      LeadsOne(s0, LoadMax);
      LeadsOne(s1, CheckCapacity);
      LeadsOne(s2, SendInput(payload));
      var s3 := Take(s2, SendInput(payload));
      LeadsJoin(s1, [CheckCapacity], s2, [SendInput(payload)], s3);
      LeadsJoin(s0, [LoadMax], s1, [CheckCapacity] + [SendInput(payload)], s3);
      LeadsJoin(Init(input), schedule, s0, [LoadMax] + ([CheckCapacity] + [SendInput(payload)]), s3);
      assert s3 == Filled(input, max, k);
    }
  }

  /** For every maximum, some run leaves one message more than the maximum outstanding: the
      comparison is made before a message is read. */
  lemma BoundReached(input: Payload, max: nat)
    requires |input| > max
    ensures exists s ::
              && Reachable(input, s) && s.delivered <= |s.announced|
              && Largest(Delivered(s)) == max && Outstanding(s) == max + 1
  {
    FillUp(input, max, max + 1);
    var s := Filled(input, max, max + 1);
    assert Delivered(s) == [Capacity(max, 0)];
  }

  /** A send oversteps the largest maximum exactly when that many messages were outstanding
      already. */
  lemma OverstepIff(input: Payload, s: State, payload: Payload)
    requires Reachable(input, s) && Enabled(s, SendInput(payload))
    ensures s.delivered <= |s.announced|
    ensures Outstanding(Take(s, SendInput(payload))) > Largest(Delivered(s))
            <==> Outstanding(s) == Largest(Delivered(s))
  {
    ReachableInvariants(input, s);
  }

  // ------------------------------------------------------------------------------- no deadlock

  /** Once everything sent is written and the client has the update that says so, the next
      comparison admits the reader, whatever maximum it holds. */
  lemma CaughtUpReaderProceeds(input: Payload, s: State)
    requires Reachable(input, s)
    requires s.written == |s.sent| && s.pending.None? && s.delivered == |s.announced| > 0
    requires s.announced[|s.announced| - 1].messagesWritten == s.written
    requires s.reader.LoadedMax?
    ensures Take(s, CheckCapacity).reader.MayRead?
  {
    ReachableInvariants(input, s);
    var schedule :| Leads(Init(input), schedule, s);
    StoredAlong(Init(input), schedule, s);
  }

  /** The atomics hold what was stored last. */
  ghost predicate Stored(s: State) {
    && s.delivered <= |s.announced|
    && (s.delivered == 0 ==> s.pending.None? && s.maxOutstanding == 0 && s.messagesWritten == 0)
    && (s.delivered > 0 ==>
          var last := s.announced[s.delivered - 1];
          && s.maxOutstanding == last.maxMessagesOutstanding
          && (if s.pending.Some? then s.pending.value else s.messagesWritten) == last.messagesWritten)
  }

  lemma {:induction false} StoredAlong(s: State, schedule: seq<Step>, t: State)
    requires Stored(s) && Leads(s, schedule, t)
    ensures Stored(t)
    decreases |schedule|
  {
    if schedule != [] {
      StoredAlong(Take(s, schedule[0]), schedule[1..], t);
    }
  }

  /** Some schedule of steps leads from s to t. */
  ghost predicate CanFollow(s: State, t: State) {
    exists schedule :: Leads(s, schedule, t)
  }

  lemma Follow(s: State, t: State, u: State)
    requires CanFollow(s, t) && CanFollow(t, u)
    ensures CanFollow(s, u)
  {
    var a :| Leads(s, a, t);
    var b :| Leads(t, b, u);
    LeadsJoin(s, a, t, b, u);
  }

  lemma FollowOne(s: State, step: Step)
    requires Enabled(s, step)
    ensures CanFollow(s, Take(s, step))
  {
    LeadsOne(s, step);
  }

  lemma Stay(s: State)
    ensures CanFollow(s, s)
  {
    assert Leads(s, [], s);
  }

  /** The server can take and write everything that was sent. */
  lemma {:induction false} CatchUp(s: State) returns (t: State)
    requires s.written <= s.received <= |s.sent|
    ensures CanFollow(s, t) && t == s.(received := |s.sent|, written := |s.sent|)
    decreases 2 * |s.sent| - s.received - s.written
  {
    if s.received < |s.sent| {
      FollowOne(s, Receive);
      t := CatchUp(Take(s, Receive));
      Follow(s, Take(s, Receive), t);
    } else if s.written < s.received {
      FollowOne(s, Write);
      t := CatchUp(Take(s, Write));
      Follow(s, Take(s, Write), t);
    } else {
      Stay(s);
      t := s;
    }
  }

  /** The future can store every update that was sent. */
  lemma {:induction false} StoreAll(s: State) returns (t: State)
    requires Stored(s)
    ensures CanFollow(s, t) && Stored(t) && t.pending.None? && t.delivered == |t.announced|
    ensures t.sent == s.sent && t.announced == s.announced && t.reader == s.reader
    decreases |s.announced| - s.delivered, if s.pending.Some? then 1 else 0
  {
    if s.pending.Some? {
      FollowOne(s, StoreWritten);
      t := StoreAll(Take(s, StoreWritten));
      Follow(s, Take(s, StoreWritten), t);
    } else if s.delivered < |s.announced| {
      FollowOne(s, StoreMax);
      t := StoreAll(Take(s, StoreMax));
      Follow(s, Take(s, StoreMax), t);
    } else {
      Stay(s);
      t := s;
    }
  }

  /** From every reachable state in which the reader is not done, it can come to read again
      without sending anything first: no interleaving leads to a deadlock. */
  lemma NoDeadlock(input: Payload, s: State) returns (t: State)
    requires Reachable(input, s) && !s.reader.Finished?
    ensures CanFollow(s, t) && t.reader.MayRead? && t.sent == s.sent
  {
    ReachableInvariants(input, s);
    var schedule :| Leads(Init(input), schedule, s);
    StoredAlong(Init(input), schedule, s);
    if s.reader.MayRead? {
      Stay(s);
      t := s;
    } else {
      var s1 := CatchUp(s);
      var s2 := Take(s1, Announce(0));
      FollowOne(s1, Announce(0));
      Follow(s, s1, s2);
      var s3 := StoreAll(s2);
      Follow(s, s2, s3);
      t := ReaderProceeds(s3);
      Follow(s, s3, t);
    }
  }

  lemma ReaderProceeds(s: State) returns (t: State)
    requires s.messagesWritten == |s.sent| && (s.reader.Looping? || s.reader.LoadedMax?)
    ensures CanFollow(s, t) && t.reader.MayRead? && t.sent == s.sent
  {
    var loaded := if s.reader.Looping? then Take(s, LoadMax) else s;
    if s.reader.Looping? {
      FollowOne(s, LoadMax);
    } else {
      Stay(s);
    }
    t := Take(loaded, CheckCapacity);
    FollowOne(loaded, CheckCapacity);
    Follow(s, loaded, t);
  }
}
