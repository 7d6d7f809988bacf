/** The barrier of a master thread and its slaves (lib/Synchroniser.cpp). Member 0 is the master. */
module Barrier {
  /** A member's clock, whether it waits at the barrier, its slave-wait flag and how many barriers it has passed. */
  datatype Member = Member(time: nat, waiting: bool, ssync: bool, passed: nat)

  datatype Result = Continue | Deschedule | Kill

  function Waiting(m: seq<Member>): nat {
    if m == [] then 0 else Waiting(m[..|m| - 1]) + if m[|m| - 1].waiting then 1 else 0
  }

  lemma {:induction false} WaitingBound(m: seq<Member>)
    ensures Waiting(m) <= |m| && (Waiting(m) == |m| <==> forall k | 0 <= k < |m| :: m[k].waiting)
    ensures (forall k | 0 <= k < |m| :: !m[k].waiting) ==> Waiting(m) == 0
  {
    if m != [] { WaitingBound(m[..|m| - 1]); }
  }

  lemma {:induction false} WaitingUpdate(m: seq<Member>, i: nat, e: Member)
    requires i < |m|
    ensures Waiting(m[i := e]) == Waiting(m) - (if m[i].waiting then 1 else 0) + (if e.waiting then 1 else 0)
  {
    var init := m[..|m| - 1];
    if i < |m| - 1 {
      WaitingUpdate(init, i, e);
      assert m[i := e][..|m| - 1] == init[i := e];
    } else {
      assert m[i := e][..|m| - 1] == init;
    }
  }

  /** With member i running, all others wait exactly if all but one do. */
  lemma LastToArrive(m: seq<Member>, i: nat)
    requires i < |m| && !m[i].waiting
    ensures Waiting(m) + 1 < |m| <==> exists k :: 0 <= k < |m| && k != i && !m[k].waiting
  {
    var e := m[i].(waiting := true);
    WaitingUpdate(m, i, e);
    WaitingBound(m[i := e]);
    if k :| 0 <= k < |m| && k != i && !m[k].waiting { assert !m[i := e][k].waiting; }
    if Waiting(m) + 1 < |m| {
      var k :| 0 <= k < |m| && !m[i := e][k].waiting;
      assert k != i && !m[k].waiting;
    }
  }

  predicate IsMax(m: seq<Member>, t: nat) {
    (forall k | 0 <= k < |m| :: m[k].time <= t) && exists k :: 0 <= k < |m| && m[k].time == t
  }

  /** All members pass together: each has passed as many barriers as any other. */
  predicate Lockstep(m: seq<Member>) { forall j, k | 0 <= j < |m| && 0 <= k < |m| :: m[j].passed == m[k].passed }

  class Synchroniser {
    var threads: seq<Member>
    var numPaused: nat
    var join: bool

    ghost predicate Valid()
      reads this
    {
      && threads != [] && numPaused == Waiting(threads) && Lockstep(threads)
      && forall k | 0 < k < |threads| && threads[k].waiting :: threads[k].ssync
    }

    /** `alloc` */
    constructor (master: Member)
      requires !master.waiting
      ensures Valid() && threads == [master] && !join
    {
      threads, numPaused, join := [master], 0, false;
    }

    /** `addChild`: a new slave counts as waiting until the master starts it. */
    method AddChild(time: nat)
      requires Valid()
      modifies this
      ensures Valid() && threads == old(threads) + [Member(time, true, true, old(threads[0].passed))]
        && join == old(join)
    {
      threads := threads + [Member(time, true, true, threads[0].passed)];
      assert threads[..|threads| - 1] == old(threads);
      numPaused := numPaused + 1;
    }

    method MaxThreadTime() returns (time: nat)
      requires threads != []
      ensures IsMax(threads, time)
    {
      time := threads[0].time;
      for i := 1 to |threads|
        invariant (forall k | 0 <= k < i :: threads[k].time <= time)
          && exists k :: 0 <= k < i && threads[k].time == time
      {
        if threads[i].time > time { time := threads[i].time; }
      }
    }

    /** A member arrives while others are still running: it waits, and nothing else changes. */
    method Pause(i: nat)
      requires Valid() && i < |threads| && !threads[i].waiting
      modifies this`threads, this`numPaused
      ensures Valid()
      ensures threads == old(threads)[i := old(threads[i]).(waiting := true, ssync := i != 0 || old(threads[i].ssync))]
    {
      WaitingUpdate(threads, i, threads[i].(waiting := true, ssync := i != 0 || threads[i].ssync));
      numPaused := numPaused + 1;
      ghost var arrived := threads[i].(waiting := true, ssync := i != 0 || threads[i].ssync);
      threads := threads[i := threads[i].(waiting := true)];
      if i != 0 { threads := threads[i := threads[i].(ssync := true)]; }
      assert threads == old(threads)[i := arrived];
    }

    /** Everybody has arrived: all go on, at the latest of their times. */
    method ReleaseAll(i: nat, newTime: nat)
      requires Valid() && i < |threads| && !threads[i].waiting && IsMax(threads, newTime)
      modifies this`threads, this`numPaused
      ensures Valid() && |threads| == old(|threads|)
      ensures forall k | 0 <= k < |threads| ::
        && !threads[k].waiting && threads[k].time == newTime && threads[k].passed == old(threads[k].passed) + 1
        && threads[k].ssync == ((k == 0 || k == i) && old(threads[k].ssync))
    {
      numPaused := 0;
      for k := 0 to |threads|
        invariant |threads| == old(|threads|) && numPaused == 0
        invariant forall j | k <= j < |threads| :: threads[j] == old(threads[j])
        invariant forall j | 0 <= j < k ::
          && !threads[j].waiting && threads[j].time == newTime && threads[j].passed == old(threads[j].passed) + 1
          && threads[j].ssync == ((j == 0 || j == i) && old(threads[j].ssync))
      {
        var t := threads[k].(time := newTime, passed := threads[k].passed + 1);
        if k != i {
          if k > 0 { t := t.(ssync := false); }
          t := t.(waiting := false);
        }
        threads := threads[k := t];
      }
      WaitingBound(threads);
      assert Lockstep(old(threads));
      forall j, k | 0 <= j < |threads| && 0 <= k < |threads| ensures threads[j].passed == threads[k].passed {
        assert old(threads)[j].passed == old(threads)[k].passed;
      }
    }

    /** The master joins its slaves: each is freed, once, by the loop or, if it is the one to arrive last, by being
        told to end itself. */
    method Join(i: nat, newTime: nat) returns (r: Result, freed: seq<nat>)
      requires Valid() && i < |threads| && !threads[i].waiting && IsMax(threads, newTime)
      modifies this
      ensures Valid() && |threads| == 1 && !join && !threads[0].waiting && threads[0].time == newTime
      ensures threads[0].passed == old(threads[0].passed) + 1
      ensures r == if i == 0 then Continue else Kill
      ensures (forall k | 0 <= k < |freed| :: 0 < freed[k] < old(|threads|))
      ensures forall c | 0 < c < old(|threads|) :: multiset(freed)[c] + (if r.Kill? && c == i then 1 else 0) == 1
    {
      freed := [];
      for k := 1 to |threads|
        invariant threads == old(threads)
        invariant forall c | 0 <= c < |freed| :: 0 < freed[c] < k
        invariant forall c | 0 < c < k :: multiset(freed)[c] == if c == i then 0 else 1
        invariant forall c | c >= k :: c !in multiset(freed)
      {
        if k != i { freed := freed + [k]; }
      }
      r := if i == 0 then Continue else Kill;
      threads := [threads[0].(time := newTime, waiting := false, passed := threads[0].passed + 1)];
      numPaused, join := 0, false;
    }

    /** `sync`: a member passes only when all have arrived. */
    method Sync(i: nat) returns (r: Result, freed: seq<nat>)
      requires Valid() && i < |threads| && !threads[i].waiting
      modifies this
      ensures Valid()
      ensures r.Deschedule? <==> exists k :: 0 <= k < old(|threads|) && k != i && !old(threads)[k].waiting
      ensures r.Deschedule? ==> freed == [] && join == old(join)
      ensures r.Deschedule? ==>
        threads == old(threads)[i := old(threads[i]).(waiting := true, ssync := i != 0 || old(threads[i].ssync))]
      ensures !r.Deschedule? ==> (r.Kill? <==> old(join) && i != 0) && !join
      ensures !r.Deschedule? ==> |threads| == (if old(join) then 1 else old(|threads|))
      ensures !r.Deschedule? ==> forall k | 0 <= k < |threads| ::
        !threads[k].waiting && IsMax(old(threads), threads[k].time) && threads[k].passed == old(threads[k].passed) + 1
      ensures !r.Deschedule? && !old(join) ==> freed == []
      ensures !r.Deschedule? && old(join) ==>
        forall c | 0 < c < old(|threads|) :: multiset(freed)[c] + (if r.Kill? && c == i then 1 else 0) == 1
    {
      LastToArrive(threads, i);
      freed := [];
      if numPaused + 1 < |threads| {
        Pause(i);
        return Deschedule, freed;
      }
      var newTime := MaxThreadTime();
      if join {
        r, freed := Join(i, newTime);
      } else {
        ReleaseAll(i, newTime);
        r := Continue;
      }
    }

    /** `mjoin`: the master passes only when all slaves have arrived, and then each has been freed once. */
    method MJoin() returns (r: Result, freed: seq<nat>)
      requires Valid() && !threads[0].waiting
      modifies this
      ensures Valid()
      ensures r.Deschedule? <==> exists k :: 0 < k < old(|threads|) && !old(threads)[k].waiting
      ensures r.Deschedule? ==> join && freed == [] && threads == old(threads)[0 := old(threads[0]).(waiting := true)]
      ensures !r.Deschedule? ==> r == Continue && !join && |threads| == 1 && IsMax(old(threads), threads[0].time)
      ensures !r.Deschedule? ==> forall c | 0 < c < old(|threads|) :: multiset(freed)[c] == 1
    {
      join := true;
      r, freed := Sync(0);
    }

    /** `cancel`: a waiting member is taken away by an event. */
    method Cancel(i: nat)
      requires Valid() && i < |threads| && threads[i].waiting
      modifies this`threads, this`numPaused
      ensures Valid() && threads == old(threads)[i := old(threads[i]).(waiting := false)]
    {
      WaitingUpdate(threads, i, threads[i].(waiting := false));
      WaitingBound(threads[i := threads[i].(waiting := false)]);
      numPaused := numPaused - 1;
      threads := threads[i := threads[i].(waiting := false)];
    }
  }
}
