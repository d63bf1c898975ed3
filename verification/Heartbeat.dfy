/** Renewing the controller lease (`daemon/server.py`, `_renew_every` and `_heartbeat`): how long ownership
    lasts on a database that is sometimes too busy to take a renewal. Time is real. */
module Heartbeat {
  /** One turn of the loop: when its renewal reaches the database, and whether that is too busy to take it. */
  datatype Beat = Beat(at: real, busy: bool)

  /** When the lease was last taken or renewed, before beat *n*. */
  function LastRenewal(acquired: real, beats: seq<Beat>, n: nat): real
    requires n <= |beats|
  {
    if n == 0 then acquired
    else if beats[n - 1].busy then LastRenewal(acquired, beats, n - 1)
    else beats[n - 1].at
  }

  /** The database refuses to renew a lease that has expired. */
  predicate RefusedAt(ttl: real, acquired: real, beats: seq<Beat>, n: nat)
    requires n < |beats|
  {
    !beats[n].busy && beats[n].at >= LastRenewal(acquired, beats, n) + ttl
  }

  /** `_heartbeat`, over the turns it gets before it is cancelled. */
  class Renewer {
    const ttl: real
    const acquired: real
    var expires: real
    var lost: bool

    constructor (ttl: real, acquired: real)
      ensures this.ttl == ttl && this.acquired == acquired && expires == acquired + ttl && !lost
    {
      this.ttl, this.acquired := ttl, acquired;
      expires, lost := acquired + ttl, false;
    }

    method Run(beats: seq<Beat>) returns (turns: nat)
      requires expires == acquired + ttl && !lost
      modifies this
      ensures turns <= |beats| && (lost <==> exists n :: 0 <= n < |beats| && RefusedAt(ttl, acquired, beats, n))
      ensures lost ==> turns > 0 && RefusedAt(ttl, acquired, beats, turns - 1)
                       && forall n :: 0 <= n < turns - 1 ==> !RefusedAt(ttl, acquired, beats, n)
      ensures !lost ==> turns == |beats| && expires == LastRenewal(acquired, beats, turns) + ttl
    {
      turns := 0;
      while turns < |beats|
        invariant turns <= |beats| && !lost && expires == LastRenewal(acquired, beats, turns) + ttl
        invariant forall n :: 0 <= n < turns ==> !RefusedAt(ttl, acquired, beats, n)
      {
        var beat := beats[turns];
        turns := turns + 1;
        if !beat.busy {
          if beat.at >= expires {
            lost := true;
            assert RefusedAt(ttl, acquired, beats, turns - 1);
            return;
          }
          expires := beat.at + ttl;
        }
      }
    }
  }

  /** How much later than TTL/3 after the turn before it a turn comes. */
  function Delay(ttl: real, acquired: real, beats: seq<Beat>, n: nat): real
    requires n < |beats|
  {
    beats[n].at - (if n == 0 then acquired else beats[n - 1].at) - ttl / 3.0
  }

  /** The loop sleeps TTL/3, and any two turns in a row are late by less than TTL/3 together. */
  predicate OnTime(ttl: real, acquired: real, beats: seq<Beat>) {
    && (forall n :: 0 <= n < |beats| ==> 0.0 <= Delay(ttl, acquired, beats, n) < ttl / 3.0)
    && forall n :: 0 < n < |beats| ==> Delay(ttl, acquired, beats, n - 1) + Delay(ttl, acquired, beats, n) < ttl / 3.0
  }

  predicate BusyTwice(beats: seq<Beat>, n: nat)
    requires n < |beats|
  {
    n >= 2 && beats[n - 1].busy && beats[n - 2].busy
  }

  lemma {:induction false} RenewalIsBefore(ttl: real, acquired: real, beats: seq<Beat>, n: nat)
    requires ttl >= 0.0 && OnTime(ttl, acquired, beats) && n <= |beats|
    ensures LastRenewal(acquired, beats, n) <= (if n == 0 then acquired else beats[n - 1].at)
  {
    if n > 0 && beats[n - 1].busy {
      RenewalIsBefore(ttl, acquired, beats, n - 1);
      assert Delay(ttl, acquired, beats, n - 1) >= 0.0;
    }
  }

  /** Main result: renewing every TTL/3 carries the lease through exactly one failed renewal. At a turn the
      lease has expired if and only if the two turns before it both failed. */
  lemma SurvivesOneFailure(ttl: real, acquired: real, beats: seq<Beat>, n: nat)
    requires ttl > 0.0 && OnTime(ttl, acquired, beats) && n < |beats|
    ensures beats[n].at >= LastRenewal(acquired, beats, n) + ttl <==> BusyTwice(beats, n)
  {
    assert Delay(ttl, acquired, beats, n) >= 0.0;
    if n >= 1 {
      assert Delay(ttl, acquired, beats, n - 1) >= 0.0;
      assert Delay(ttl, acquired, beats, n - 1) + Delay(ttl, acquired, beats, n) < ttl / 3.0;
    }
    if BusyTwice(beats, n) {
      RenewalIsBefore(ttl, acquired, beats, n - 2);
      assert Delay(ttl, acquired, beats, n - 2) >= 0.0;
      assert LastRenewal(acquired, beats, n) == LastRenewal(acquired, beats, n - 2);
    }
  }

  /** So the lease is live at every moment up to the last turn, when no two renewals in a row fail. */
  lemma LiveThroughout(ttl: real, acquired: real, beats: seq<Beat>, n: nat, t: real)
    requires ttl > 0.0 && OnTime(ttl, acquired, beats) && n < |beats|
    requires forall m :: 0 <= m < |beats| ==> !BusyTwice(beats, m)
    requires (if n == 0 then acquired else beats[n - 1].at) <= t <= beats[n].at
    ensures LastRenewal(acquired, beats, n) <= t < LastRenewal(acquired, beats, n) + ttl
    ensures !RefusedAt(ttl, acquired, beats, n)
  {
    RenewalIsBefore(ttl, acquired, beats, n);
    SurvivesOneFailure(ttl, acquired, beats, n);
  }
}
