/** The connector cache of `HyperClient::http_connector`: double-checked locking over a
    read-write lock, for any number of threads calling any number of times. */
module ConnectorCache {
  import opened Wrappers

  datatype CacheKey = CacheKey(connectTimeout: Option<nat>, readTimeout: Option<nat>)

  /** What a caller passes: timeouts, which make up the key, and the sleep implementation of its
      runtime components, which does not. */
  datatype Call = Call(key: CacheKey, sleep: nat)

  /** A connector remembers what it was built with; its id tells it from every other one. */
  datatype Connector = Connector(id: nat, key: CacheKey, sleep: nat)

  datatype Pc =
    | Idle
    | WantRead(call: Call)
    | HoldRead(call: Call)
    | Missed(call: Call)                          // found nothing, read lock released
    | HoldWrite(call: Call)
    | Building(call: Call)                        // re-check found nothing, write lock held
    | Built(call: Call, connector: Connector)     // not yet inserted, write lock held
    | Fetching(call: Call)                        // about to get from the cache, write lock held
    | Panicked                                    // `expect` on None

  datatype Return = Return(call: Call, connector: Connector)

  datatype State = State(
    cache: map<CacheKey, Connector>,
    readers: set<nat>,
    writer: Option<nat>,
    threads: map<nat, Pc>,
    builds: seq<Connector>,                       // every connector ever built, in order
    completed: seq<Return>)                         // every completed call, in order
  {
    function At(t: nat): Pc { if t in threads then threads[t] else Idle }

    function Move(t: nat, pc: Pc): State { this.(threads := threads[t := pc]) }
  }

  const INIT: State := State(map[], {}, None, map[], [], [])

  datatype Step =
    | Begin(t: nat, call: Call)
    | LockRead(t: nat)
    | Lookup(t: nat)
    | LockWrite(t: nat)
    | Recheck(t: nat)
    | Build(t: nat)
    | Insert(t: nat)
    | Fetch(t: nat)

  predicate Enabled(s: State, step: Step) {
    match step
    case Begin(t, _) => s.At(t).Idle?
    case LockRead(t) => s.At(t).WantRead? && s.writer.None?
    case Lookup(t) => s.At(t).HoldRead?
    case LockWrite(t) => s.At(t).Missed? && s.writer.None? && s.readers == {}
    case Recheck(t) => s.At(t).HoldWrite?
    case Build(t) => s.At(t).Building?
    case Insert(t) => s.At(t).Built?
    case Fetch(t) => s.At(t).Fetching?
  }

  /** A completed call; None would make `expect` panic. */
  function Complete(s: State, t: nat, call: Call): State {
    if call.key in s.cache then s.Move(t, Idle).(completed := s.completed + [Return(call, s.cache[call.key])])
    else s.Move(t, Panicked)
  }

  function Take(s: State, step: Step): State
    requires Enabled(s, step)
  {
    match step
    case Begin(t, call) => s.Move(t, WantRead(call))
    case LockRead(t) => s.Move(t, HoldRead(s.At(t).call)).(readers := s.readers + {t})
    case Lookup(t) =>
      var call, released := s.At(t).call, s.(readers := s.readers - {t});
      if call.key in s.cache then Complete(released, t, call) else released.Move(t, Missed(call))
    case LockWrite(t) => s.Move(t, HoldWrite(s.At(t).call)).(writer := Some(t))
    case Recheck(t) =>
      var call := s.At(t).call;
      s.Move(t, if call.key in s.cache then Fetching(call) else Building(call))
    case Build(t) =>
      var call := s.At(t).call;
      var connector := Connector(|s.builds|, call.key, call.sleep);
      s.Move(t, Built(call, connector)).(builds := s.builds + [connector])
    case Insert(t) =>
      var call := s.At(t).call;
      s.Move(t, Fetching(call)).(cache := s.cache[call.key := s.At(t).connector])
    case Fetch(t) => Complete(s, t, s.At(t).call).(writer := None)
  }

  ghost predicate Leads(s: State, schedule: seq<Step>, t: State)
    decreases |schedule|
  {
    if schedule == [] then s == t
    else Enabled(s, schedule[0]) && Leads(Take(s, schedule[0]), schedule[1..], t)
  }

  ghost predicate Reachable(s: State) { exists schedule :: Leads(INIT, schedule, s) }

  // ------------------------------------------------------------------------------- invariants

  predicate Writing(pc: Pc) { pc.HoldWrite? || pc.Building? || pc.Built? || pc.Fetching? }

  /** The lock is held by whom it says. */
  ghost predicate Locked(s: State) {
    && (forall t: nat :: Writing(s.At(t)) <==> s.writer == Some(t))
    && (forall t: nat :: s.At(t).HoldRead? <==> t in s.readers)
    && (s.writer.Some? ==> s.readers == {})
  }

  /** What the writing thread knows about the cache. */
  predicate Informed(s: State, pc: Pc) {
    match pc
    case Building(call) => call.key !in s.cache
    case Built(call, c) => call.key !in s.cache && c in s.builds && c.key == call.key && c.sleep == call.sleep
    case Fetching(call) => call.key in s.cache
    case Panicked => false
    case _ => true
  }

  /** A connector that is built is cached under its key, unless its builder has yet to insert it. */
  ghost predicate Accounted(s: State, c: Connector) {
    || (c.key in s.cache && s.cache[c.key] == c)
    || (s.writer.Some? && s.At(s.writer.value).Built? && s.At(s.writer.value).connector == c)
  }

  ghost predicate Consistent(s: State) {
    && (forall t: nat :: Informed(s, s.At(t)))
    && (forall k :: k in s.cache ==> s.cache[k] in s.builds && s.cache[k].key == k)
    && (forall c :: c in s.builds ==> Accounted(s, c))
    && (forall i, j :: 0 <= i < j < |s.builds| ==> s.builds[i].key != s.builds[j].key)
    && (forall r :: r in s.completed ==> r.call.key in s.cache && s.cache[r.call.key] == r.connector)
  }

  /** The builder of a cached connector has returned it, or is about to. */
  ghost predicate BuilderSeen(s: State, k: CacheKey) {
    k in s.cache ==>
      || (exists r :: r in s.completed && r.call.key == k && r.call.sleep == s.cache[k].sleep)
      || (s.writer.Some? && s.At(s.writer.value).Fetching?
          && s.At(s.writer.value).call == Call(k, s.cache[k].sleep))
  }

  ghost predicate Attributed(s: State) { forall k :: BuilderSeen(s, k) }

  lemma LockedKept(s: State, step: Step)
    requires Locked(s) && Consistent(s) && Enabled(s, step)
    ensures Locked(Take(s, step))
  {
    var t := step.t;
    assert Informed(s, s.At(t));
    assert Writing(s.At(t)) <==> s.writer == Some(t);
    forall u: nat | u != t ensures Take(s, step).At(u) == s.At(u) {
    }
  }

  lemma OthersSame(s: State, step: Step, u: nat)
    requires Enabled(s, step) && u != step.t
    ensures Take(s, step).At(u) == s.At(u)
  {
  }

  /** A cached entry is never replaced or removed by a step. */
  lemma EntriesStay(s: State, step: Step, k: CacheKey)
    requires Consistent(s) && Enabled(s, step) && k in s.cache
    ensures k in Take(s, step).cache && Take(s, step).cache[k] == s.cache[k]
  {
    assert Informed(s, s.At(step.t));
  }

  lemma ConsistentKept(s: State, step: Step)
    requires Locked(s) && Consistent(s) && Enabled(s, step)
    ensures Consistent(Take(s, step))
  {
    var n, t := Take(s, step), step.t;
    assert Informed(s, s.At(t));
    assert Writing(s.At(t)) <==> s.writer == Some(t);
    forall u: nat ensures Informed(n, n.At(u)) {
      if u != t {
        OthersSame(s, step, u);
        assert Informed(s, s.At(u)) && (Writing(s.At(u)) <==> s.writer == Some(u));
      }
    }
    forall c | c in n.builds ensures Accounted(n, c) {
      if c in s.builds { assert Accounted(s, c); }
    }
    if step.Build? {
      var c := n.builds[|s.builds|];
      forall i | 0 <= i < |s.builds| ensures s.builds[i].key != c.key {
        assert s.builds[i] in s.builds && Accounted(s, s.builds[i]);
      }
    }
  }

  lemma AttributedKept(s: State, step: Step)
    requires Locked(s) && Consistent(s) && Attributed(s) && Enabled(s, step)
    ensures Attributed(Take(s, step))
  {
    var n, t := Take(s, step), step.t;
    assert Informed(s, s.At(t));
    assert Writing(s.At(t)) <==> s.writer == Some(t);
    forall k ensures BuilderSeen(n, k) {
      assert BuilderSeen(s, k);
      if k in s.cache {
        EntriesStay(s, step, k);
        if r :| r in s.completed && r.call.key == k && r.call.sleep == s.cache[k].sleep {
          assert r in n.completed;
        } else {
          var w := s.writer.value;
          if w != t {
            OthersSame(s, step, w);
          } else {
            assert Return(s.At(t).call, s.cache[k]) in n.completed;
          }
        }
      }
    }
  }

  lemma {:induction false} Along(s: State, schedule: seq<Step>, n: State)
    requires Locked(s) && Consistent(s) && Attributed(s) && Leads(s, schedule, n)
    ensures Locked(n) && Consistent(n) && Attributed(n)
    ensures forall k :: k in s.cache ==> k in n.cache && n.cache[k] == s.cache[k]
    decreases |schedule|
  {
    if schedule != [] {
      var step := schedule[0];
      LockedKept(s, step);
      ConsistentKept(s, step);
      AttributedKept(s, step);
      forall k | k in s.cache ensures k in Take(s, step).cache && Take(s, step).cache[k] == s.cache[k] {
        EntriesStay(s, step, k);
      }
      Along(Take(s, step), schedule[1..], n);
    }
  }

  lemma ReachableInvariants(s: State)
    requires Reachable(s)
    ensures Locked(s) && Consistent(s) && Attributed(s)
  {
    var schedule :| Leads(INIT, schedule, s);
    Along(INIT, schedule, s);
  }

  // ------------------------------------------------------------------------------ main results

  /** In every reachable state: at most one connector was ever built per key; calls with equal
      timeouts got the same connector, made with those timeouts; and no call hit `expect`. */
  lemma BuiltOnceSharedByAll(s: State)
    requires Reachable(s)
    ensures forall i, j :: 0 <= i < j < |s.builds| ==> s.builds[i].key != s.builds[j].key
    ensures forall r, q :: r in s.completed && q in s.completed && r.call.key == q.call.key ==> r.connector == q.connector
    ensures forall r :: r in s.completed ==> r.connector in s.builds && r.connector.key == r.call.key
    ensures forall t: nat :: !s.At(t).Panicked?
  {
    ReachableInvariants(s);
    forall t: nat ensures !s.At(t).Panicked? {
      assert Informed(s, s.At(t));
    }
  }

  // ------------------------------------------------------------------------------ calls return

  predicate InCall(pc: Pc) { !pc.Idle? && !pc.Panicked? }

  /** A thread's step keeps it in its call, or ends the call by returning what is cached under its
      key; nothing else is ever returned. */
  lemma StepOfCall(s: State, step: Step)
    requires Reachable(s) && Enabled(s, step) && InCall(s.At(step.t))
    ensures var n, call := Take(s, step), s.At(step.t).call;
            if n.At(step.t).Idle? then
              && call.key in s.cache && call.key in n.cache
              && n.completed == s.completed + [Return(call, n.cache[call.key])]
            else InCall(n.At(step.t)) && n.At(step.t).call == call && n.completed == s.completed
  {
    ReachableInvariants(s);
    assert Informed(s, s.At(step.t));
  }

  ghost predicate CanFollow(s: State, n: State) { exists schedule :: Leads(s, schedule, n) }

  lemma {:induction false} LeadsJoin(s: State, first: seq<Step>, m: State, second: seq<Step>, n: State)
    requires Leads(s, first, m) && Leads(m, second, n)
    ensures Leads(s, first + second, n)
    decreases |first|
  {
    if first == [] {
      assert first + second == second;
    } else {
      assert (first + second)[1..] == first[1..] + second;
      LeadsJoin(Take(s, first[0]), first[1..], m, second, n);
    }
  }

  lemma Stay(s: State)
    ensures CanFollow(s, s)
  {
    assert Leads(s, [], s);
  }

  /** One more step of a run. */
  lemma FollowStep(s: State, m: State, step: Step)
    requires Reachable(m) && CanFollow(s, m) && Enabled(m, step)
    ensures Reachable(Take(m, step)) && CanFollow(s, Take(m, step))
  {
    var schedule :| Leads(s, schedule, m);
    LeadsOneMore(s, schedule, m, step);
    ReachStep(m, step);
  }

  /** The next step of a thread whose lock is granted. */
  function NextStep(t: nat, pc: Pc): Step
    requires InCall(pc)
  {
    match pc
    case WantRead(_) => LockRead(t)
    case HoldRead(_) => Lookup(t)
    case Missed(_) => LockWrite(t)
    case HoldWrite(_) => Recheck(t)
    case Building(_) => Build(t)
    case Built(_, _) => Insert(t)
    case Fetching(_) => Fetch(t)
  }

  /** How far a call is from its end. */
  function StepsLeft(pc: Pc): nat {
    match pc
    case WantRead(_) => 7
    case HoldRead(_) => 6
    case Missed(_) => 5
    case HoldWrite(_) => 4
    case Building(_) => 3
    case Built(_, _) => 2
    case Fetching(_) => 1
    case _ => 0
  }

  /** No lock is in the thread's way. */
  predicate Unhindered(s: State, t: nat) {
    (s.writer.None? || s.writer == Some(t)) && s.readers <= {t}
  }

  lemma NextEnabled(s: State, t: nat)
    requires Locked(s) && Consistent(s) && InCall(s.At(t)) && Unhindered(s, t)
    ensures var step := NextStep(t, s.At(t));
            && step.t == t && Enabled(s, step) && Unhindered(Take(s, step), t)
            && StepsLeft(Take(s, step).At(t)) < StepsLeft(s.At(t))
  {
    assert Informed(s, s.At(t));
    assert (Writing(s.At(t)) <==> s.writer == Some(t)) && (s.At(t).HoldRead? <==> t in s.readers);
    if s.At(t).Missed? {
      assert s.readers == {};
    }
  }

  /** A thread that nobody hinders runs its call to the end. */
  lemma {:induction false} RunToEnd(s: State, m: State, t: nat) returns (last: State)
    requires Reachable(m) && CanFollow(s, m) && InCall(m.At(t)) && Unhindered(m, t)
    ensures Reachable(last) && CanFollow(s, last) && InCall(last.At(t)) && last.At(t).call == m.At(t).call
    ensures m.completed <= last.completed
    ensures var step := NextStep(t, last.At(t));
            Enabled(last, step) && Take(last, step).At(t).Idle? && Unhindered(Take(last, step), t)
    decreases StepsLeft(m.At(t))
  {
    ReachableInvariants(m);
    NextEnabled(m, t);
    var step := NextStep(t, m.At(t));
    StepOfCall(m, step);
    if Take(m, step).At(t).Idle? {
      last := m;
    } else {
      FollowStep(s, m, step);
      last := RunToEnd(s, Take(m, step), t);
    }
  }

  /** Whoever holds the write lock can be waited for. */
  lemma WriterLeaves(s: State, t: nat) returns (n: State)
    requires Reachable(s) && InCall(s.At(t))
    ensures Reachable(n) && CanFollow(s, n) && s.completed <= n.completed
    ensures n.writer.None? || n.writer == Some(t)
    ensures n.At(t) == s.At(t)
  {
    Stay(s);
    ReachableInvariants(s);
    if s.writer.None? || s.writer == Some(t) {
      n := s;
    } else {
      var w := s.writer.value;
      assert Writing(s.At(w));
      var last := RunsAlone(s, s, t, w);
      var step := NextStep(w, last.At(w));
      FollowStep(s, last, step);
      StepOfCall(last, step);
      OthersSame(last, step, t);
      n := Take(last, step);
      WriterGone(last, step, n);
    }
  }

  lemma WriterGone(s: State, step: Step, n: State)
    requires Reachable(s) && Enabled(s, step) && n == Take(s, step) && s.writer == Some(step.t) && n.At(step.t).Idle?
    ensures n.writer.None?
  {
    ReachableInvariants(s);
    ReachStep(s, step);
    ReachableInvariants(n);
    assert Writing(n.At(step.t)) <==> n.writer == Some(step.t);
  }

  /** A writer's own steps leave every other thread where it is. */
  lemma {:induction false} RunsAlone(s: State, m: State, t: nat, w: nat) returns (last: State)
    requires Reachable(m) && CanFollow(s, m) && w != t && m.writer == Some(w) && Writing(m.At(w))
    requires m.At(t) == s.At(t) && s.completed <= m.completed
    ensures Reachable(last) && CanFollow(s, last) && last.writer == Some(w) && Writing(last.At(w))
    ensures last.At(t) == s.At(t) && s.completed <= last.completed
    ensures var step := NextStep(w, last.At(w)); Enabled(last, step) && Take(last, step).At(w).Idle?
    decreases StepsLeft(m.At(w))
  {
    ReachableInvariants(m);
    assert m.readers <= {w};
    NextEnabled(m, w);
    var step := NextStep(w, m.At(w));
    StepOfCall(m, step);
    if Take(m, step).At(w).Idle? {
      last := m;
    } else {
      FollowStep(s, m, step);
      OthersSame(m, step, t);
      WriterStays(m, step);
      last := RunsAlone(s, Take(m, step), t, w);
    }
  }

  lemma WriterStays(s: State, step: Step)
    requires Reachable(s) && Enabled(s, step) && Writing(s.At(step.t)) && !Take(s, step).At(step.t).Idle?
    ensures Take(s, step).writer == Some(step.t) && Writing(Take(s, step).At(step.t))
  {
    ReachableInvariants(s);
    ReachStep(s, step);
    ReachableInvariants(Take(s, step));
    assert Informed(s, s.At(step.t));
    assert Writing(Take(s, step).At(step.t)) <==> Take(s, step).writer == Some(step.t);
  }

  /** And so can the readers. */
  lemma {:induction false} ReadersLeave(s: State, m: State, t: nat) returns (n: State)
    requires Reachable(m) && CanFollow(s, m) && InCall(m.At(t)) && s.completed <= m.completed
    requires m.writer.None? || m.writer == Some(t)
    ensures Reachable(n) && CanFollow(s, n) && Unhindered(n, t) && n.At(t) == m.At(t) && s.completed <= n.completed
    decreases |m.readers|
  {
    if m.readers <= {t} {
      n := m;
    } else {
      var r :| r in m.readers && r != t;
      ReachableInvariants(m);
      assert m.At(r).HoldRead?;
      FollowStep(s, m, Lookup(r));
      StepOfCall(m, Lookup(r));
      OthersSame(m, Lookup(r), t);
      assert Take(m, Lookup(r)).readers == m.readers - {r};
      n := ReadersLeave(s, Take(m, Lookup(r)), t);
    }
  }

  /** From every reachable state, whatever the others are doing, every call can come to its return:
      some run leads to a step of its thread that returns the connector cached under its key. */
  lemma CallReturns(s: State, t: nat) returns (last: State, step: Step)
    requires Reachable(s) && InCall(s.At(t))
    ensures CanFollow(s, last) && step.t == t && Enabled(last, step)
    ensures var n, call := Take(last, step), s.At(t).call;
            && n.At(t).Idle? && call.key in n.cache
            && s.completed <= last.completed && n.completed == last.completed + [Return(call, n.cache[call.key])]
  {
    var free := WriterLeaves(s, t);
    var clear := ReadersLeave(s, free, t);
    last := RunToEnd(s, clear, t);
    step := NextStep(t, last.At(t));
    StepOfCall(last, step);
  }

  /** Whatever happens later, an entry stays as it was. */
  lemma NeverReplaced(s: State, schedule: seq<Step>, later: State, k: CacheKey)
    requires Reachable(s) && Leads(s, schedule, later) && k in s.cache
    ensures k in later.cache && later.cache[k] == s.cache[k]
  {
    ReachableInvariants(s);
    Along(s, schedule, later);
  }

  /** The key leaves out the sleep implementation.  All calls so far got a connector that sleeps
      the way they asked exactly when calls with equal timeouts asked for the same way. */
  lemma SleepRespectedIff(s: State)
    requires Reachable(s)
    ensures (forall r :: r in s.completed ==> r.connector.sleep == r.call.sleep) <==>
            (forall r, q :: r in s.completed && q in s.completed && r.call.key == q.call.key ==>
               r.call.sleep == q.call.sleep)
  {
    ReachableInvariants(s);
    if forall r, q :: r in s.completed && q in s.completed && r.call.key == q.call.key ==> r.call.sleep == q.call.sleep {
      forall r | r in s.completed ensures r.connector.sleep == r.call.sleep {
        BuilderReturned(s, r);
      }
    }
  }

  /** When anyone has returned with a connector, so has its builder. */
  lemma BuilderReturned(s: State, r: Return)
    requires Reachable(s) && r in s.completed
    ensures exists q :: q in s.completed && q.call.key == r.call.key && q.call.sleep == r.connector.sleep
  {
    var schedule :| Leads(INIT, schedule, s);
    FirstReturnIsBuilders(INIT, schedule, s);
    assert BuilderFirst(s, r);
  }

  ghost predicate BuilderFirst(s: State, r: Return) {
    exists q :: q in s.completed && q.call.key == r.call.key && q.call.sleep == r.connector.sleep
  }

  lemma {:induction false} FirstReturnIsBuilders(s: State, schedule: seq<Step>, n: State)
    requires Locked(s) && Consistent(s) && Attributed(s) && Leads(s, schedule, n)
    requires forall r :: r in s.completed ==> BuilderFirst(s, r)
    ensures forall r :: r in n.completed ==> BuilderFirst(n, r)
    decreases |schedule|
  {
    if schedule != [] {
      var step := schedule[0];
      var m := Take(s, step);
      LockedKept(s, step);
      ConsistentKept(s, step);
      AttributedKept(s, step);
      forall r | r in m.completed ensures BuilderFirst(m, r) {
        ReturnAttributed(s, step, r);
      }
      FirstReturnIsBuilders(m, schedule[1..], n);
    }
  }

  lemma ReturnAttributed(s: State, step: Step, r: Return)
    requires Locked(s) && Consistent(s) && Attributed(s) && Enabled(s, step)
    requires forall q :: q in s.completed ==> BuilderFirst(s, q)
    requires r in Take(s, step).completed
    ensures BuilderFirst(Take(s, step), r)
  {
    var m, t := Take(s, step), step.t;
    assert Informed(s, s.At(t)) && (Writing(s.At(t)) <==> s.writer == Some(t)) && (s.At(t).HoldRead? <==> t in s.readers);
    if r in s.completed {
      assert BuilderFirst(s, r);
      var q :| q in s.completed && q.call.key == r.call.key && q.call.sleep == r.connector.sleep;
      assert q in m.completed;
    } else {
      assert r == Return(s.At(t).call, s.cache[s.At(t).call.key]);
      assert BuilderSeen(s, r.call.key);
      if q :| q in s.completed && q.call.key == r.call.key && q.call.sleep == s.cache[r.call.key].sleep {
        assert q in m.completed;
      } else {
        assert r in m.completed && r.call.sleep == r.connector.sleep;
      }
    }
  }

  lemma ReachStep(s: State, step: Step)
    requires Reachable(s) && Enabled(s, step)
    ensures Reachable(Take(s, step))
  {
    var schedule :| Leads(INIT, schedule, s);
    LeadsOneMore(INIT, schedule, s, step);
  }

  lemma {:induction false} LeadsOneMore(s: State, schedule: seq<Step>, n: State, step: Step)
    requires Leads(s, schedule, n) && Enabled(n, step)
    ensures Leads(s, schedule + [step], Take(n, step))
    decreases |schedule|
  {
    if schedule == [] {
      assert (schedule + [step])[1..] == [];
    } else {
      assert (schedule + [step])[1..] == schedule[1..] + [step];
      LeadsOneMore(Take(s, schedule[0]), schedule[1..], n, step);
    }
  }

  /** The first n threads hold the read lock, and nothing else has happened. */
  ghost predicate Looking(s: State, call: Call, n: nat) {
    && s.writer.None? && s.cache == map[]
    && (forall t: nat :: t in s.readers <==> t < n)
    && (forall t: nat :: s.At(t) == if t < n then HoldRead(call) else Idle)
  }

  /** Any number of threads may look at once. */
  lemma {:induction false} ReadersShare(call: Call, n: nat) returns (s: State)
    ensures Reachable(s) && Looking(s, call, n)
  {
    if n == 0 {
      s := INIT;
      assert Leads(INIT, [], s);
    } else {
      var before := ReadersShare(call, n - 1);
      assert before.At(n - 1).Idle?;
      var begun := Take(before, Begin(n - 1, call));
      ReachStep(before, Begin(n - 1, call));
      ReachStep(begun, LockRead(n - 1));
      s := Take(begun, LockRead(n - 1));
      OneMoreLooks(before, call, n - 1, begun, s);
    }
  }

  lemma OneMoreLooks(before: State, call: Call, n: nat, begun: State, s: State)
    requires Looking(before, call, n) && begun == Take(before, Begin(n, call)) && Enabled(begun, LockRead(n))
    requires Enabled(before, Begin(n, call)) && s == Take(begun, LockRead(n))
    ensures Looking(s, call, n + 1)
  {
    forall t: nat ensures s.At(t) == if t < n + 1 then HoldRead(call) else Idle {
      if t != n {
        OthersSame(before, Begin(n, call), t);
        OthersSame(begun, LockRead(n), t);
        assert before.At(t) == if t < n then HoldRead(call) else Idle;
      }
    }
  }

  lemma FirstMiss(call: Call) returns (s: State)
    ensures Reachable(s) && s == INIT.Move(0, Missed(call))
  {
    assert Leads(INIT, [], INIT);
    s := INIT;
    ReachStep(s, Begin(0, call));
    s := Take(s, Begin(0, call));
    ReachStep(s, LockRead(0));
    s := Take(s, LockRead(0));
    ReachStep(s, Lookup(0));
    s := Take(s, Lookup(0));
    assert s.threads == map[0 := Missed(call)];
  }

  lemma FirstBuild(call: Call) returns (s: State)
    ensures Reachable(s)
    ensures s == State(map[], {}, Some(0), map[0 := Built(call, Connector(0, call.key, call.sleep))],
                       [Connector(0, call.key, call.sleep)], [])
  {
    s := FirstMiss(call);
    ReachStep(s, LockWrite(0));
    s := Take(s, LockWrite(0));
    ReachStep(s, Recheck(0));
    s := Take(s, Recheck(0));
    ReachStep(s, Build(0));
    s := Take(s, Build(0));
    assert s.threads == map[0 := Built(call, Connector(0, call.key, call.sleep))];
  }

  /** A call alone in the client, with nothing cached under its key, builds its own connector. */
  lemma FirstCall(call: Call) returns (s: State)
    ensures Reachable(s) && s.completed == [Return(call, Connector(0, call.key, call.sleep))]
    ensures s.cache == map[call.key := Connector(0, call.key, call.sleep)]
    ensures s.writer.None? && s.readers == {} && s.threads == map[0 := Idle]
  {
    s := FirstBuild(call);
    ReachStep(s, Insert(0));
    s := Take(s, Insert(0));
    ReachStep(s, Fetch(0));
    s := Take(s, Fetch(0));
  }

  /** A later caller with equal timeouts and another sleep implementation gets the first one's. */
  lemma SleepIgnored(key: CacheKey)
    ensures exists s :: Reachable(s)
              && exists r :: r in s.completed && r.call.key == key && r.connector.sleep != r.call.sleep
  {
    var s := FirstCall(Call(key, 1));
    var late := Call(key, 2);
    ReachStep(s, Begin(1, late));
    s := Take(s, Begin(1, late));
    ReachStep(s, LockRead(1));
    s := Take(s, LockRead(1));
    ReachStep(s, Lookup(1));
    s := Take(s, Lookup(1));
    assert Return(late, Connector(0, key, 1)) in s.completed;
  }
}
