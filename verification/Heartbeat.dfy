/** The heartbeat of `apiclient exec`, in milliseconds: the loop looks every two seconds at the
    time of the last ping or pong (sections 5.5.2 and 5.5.3 of RFC 6455) and stops when that is
    more than ten seconds ago. */
module Heartbeat {

  const HEARTBEAT_INTERVAL: nat := 2000
  const SERVER_TIMEOUT: nat := 10000

  /** Arrival times of server frames, in order, none before the start. */
  predicate Timeline(start: nat, arrivals: seq<nat>) {
    && (forall i :: 0 <= i < |arrivals| ==> start <= arrivals[i])
    && (forall i, j :: 0 <= i < j < |arrivals| ==> arrivals[i] <= arrivals[j])
  }

  /** The instant the loop reads at time t. */
  function LastHeard(start: nat, arrivals: seq<nat>, t: nat): (last: nat)
    ensures last == start || (last in arrivals && last <= t)
  {
    if arrivals == [] then start
    else if arrivals[|arrivals| - 1] <= t then arrivals[|arrivals| - 1]
    else
      assert arrivals == arrivals[..|arrivals| - 1] + [arrivals[|arrivals| - 1]];
      LastHeard(start, arrivals[..|arrivals| - 1], t)
  }

  predicate Dead(start: nat, arrivals: seq<nat>, t: nat) {
    t > LastHeard(start, arrivals, t) + SERVER_TIMEOUT
  }

  /** The moment of the k-th look. */
  function Look(start: nat, k: nat): nat { start + k * HEARTBEAT_INTERVAL }

  function Final(start: nat, arrivals: seq<nat>): nat {
    if arrivals == [] then start else arrivals[|arrivals| - 1]
  }

  lemma NoLaterThanFinal(start: nat, arrivals: seq<nat>, t: nat)
    requires Timeline(start, arrivals)
    ensures LastHeard(start, arrivals, t) <= Final(start, arrivals)
  {
    var last := LastHeard(start, arrivals, t);
    if last in arrivals {
      var i :| 0 <= i < |arrivals| && arrivals[i] == last;
    } else if arrivals != [] {
      assert arrivals[|arrivals| - 1] >= start;
    }
  }

  /** The loop: it stops at the first look that finds the server dead. */
  method Beat(start: nat, arrivals: seq<nat>) returns (stop: nat, looks: nat)
    requires Timeline(start, arrivals)
    ensures looks > 0 && stop == Look(start, looks) && Dead(start, arrivals, stop)
    ensures AliveUntil(start, arrivals, looks)
  {
    stop, looks := start, 0;
    while true
      invariant stop == Look(start, looks)
      invariant forall k :: 0 < k <= looks ==> !Dead(start, arrivals, Look(start, k))
      invariant stop <= Final(start, arrivals) + SERVER_TIMEOUT
      decreases Final(start, arrivals) + SERVER_TIMEOUT - stop
    {
      stop, looks := stop + HEARTBEAT_INTERVAL, looks + 1;
      if stop > LastHeard(start, arrivals, stop) + SERVER_TIMEOUT {
        break;
      }
      NoLaterThanFinal(start, arrivals, stop);
    }
  }

  /** No silence longer than the timeout, from the start to the last frame. */
  predicate Lively(start: nat, arrivals: seq<nat>) {
    arrivals != [] ==>
      && arrivals[|arrivals| - 1] <= Final(start, arrivals[..|arrivals| - 1]) + SERVER_TIMEOUT
      && Lively(start, arrivals[..|arrivals| - 1])
  }

  lemma {:induction false} AliveWhileLively(start: nat, arrivals: seq<nat>, t: nat)
    requires Timeline(start, arrivals) && Lively(start, arrivals)
    requires t <= Final(start, arrivals) + SERVER_TIMEOUT
    ensures !Dead(start, arrivals, t)
  {
    if arrivals != [] && t < arrivals[|arrivals| - 1] {
      AliveWhileLively(start, arrivals[..|arrivals| - 1], t);
    }
  }

  /** A server that never falls silent for more than ten seconds is not given up while it lives;
      and after its last frame the loop stops within twelve. */
  lemma DetectionBound(start: nat, arrivals: seq<nat>, looks: nat)
    requires Timeline(start, arrivals) && Lively(start, arrivals)
    requires looks > 0 && Dead(start, arrivals, Look(start, looks))
    requires AliveUntil(start, arrivals, looks)
    ensures Final(start, arrivals) + 10000 < Look(start, looks) <= Final(start, arrivals) + 12000
  {
    var stop := Look(start, looks);
    if stop <= Final(start, arrivals) + SERVER_TIMEOUT {
      AliveWhileLively(start, arrivals, stop);
    }
    if looks > 1 {
      assert !Dead(start, arrivals, Look(start, looks - 1));
      NoLaterThanFinal(start, arrivals, Look(start, looks - 1));
    } else {
      NoLaterThanFinal(start, arrivals, start);
    }
  }

  /** No look before this one finds the server dead. */
  predicate AliveUntil(start: nat, arrivals: seq<nat>, looks: nat) {
    forall k :: 0 < k < looks ==> !Dead(start, arrivals, Look(start, k))
  }

  lemma DeadDuringSilence(start: nat, arrivals: seq<nat>, from: nat, t: nat)
    requires Timeline(start, arrivals) && start <= from && t > from + SERVER_TIMEOUT
    requires forall i :: 0 <= i < |arrivals| ==> arrivals[i] <= from || arrivals[i] > t
    ensures Dead(start, arrivals, t)
  {
    var last := LastHeard(start, arrivals, t);
    if last in arrivals {
      var i :| 0 <= i < |arrivals| && arrivals[i] == last;
    }
  }

  /** Without that assumption: a silence of twelve seconds, whenever it begins, is noticed while it
      lasts; a loop that has not stopped before stops then. */
  lemma SilenceNoticed(start: nat, arrivals: seq<nat>, from: nat) returns (k: nat)
    requires Timeline(start, arrivals) && start <= from
    requires forall i :: 0 <= i < |arrivals| ==>
               arrivals[i] <= from || arrivals[i] > from + SERVER_TIMEOUT + HEARTBEAT_INTERVAL
    ensures k > 0 && from + SERVER_TIMEOUT < Look(start, k) <= from + SERVER_TIMEOUT + HEARTBEAT_INTERVAL
    ensures Dead(start, arrivals, Look(start, k))
    ensures forall looks: nat :: AliveUntil(start, arrivals, looks) ==> looks <= k
  {
    k := (from + SERVER_TIMEOUT - start) / HEARTBEAT_INTERVAL + 1;
    DeadDuringSilence(start, arrivals, from, Look(start, k));
  }
}
