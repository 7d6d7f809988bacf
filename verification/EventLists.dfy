/** The event and interrupt lists as mutable state (lib/Resource.cpp, lib/Thread.h). */
module EventLists {
  import opened Options
  import opened EventState
  import opened EventLinks
  import opened EventOwners

  class Events {
    var res: seq<Resource>
    var heads: seq<Option<nat>>
    ghost var lists: seq<seq<nat>>

    ghost function S(): State
      reads this
    {
      State(res, heads, lists)
    }

    constructor (resources: nat, threads: nat)
      ensures Inv(S()) && |res| == resources && |lists| == 2 * threads && forall l | 0 <= l < |lists| :: lists[l] == []
      ensures forall r | 0 <= r < resources :: !res[r].inUse
    {
      res := seq(resources, _ => Resource(false, false, false, None, None, None));
      heads := seq(2 * threads, _ => None);
      lists := seq(2 * threads, _ => []);
    }

    /** `EventableResourceList::add` on list l. */
    method AddTo(l: nat, r: nat)
      requires Placed(S(), r, None) && l < |lists|
      modifies this
      ensures Placed(S(), r, Some(l)) && SameFlags(old(S()), S()) && lists == old(lists)[l := [r] + old(lists[l])]
      ensures AllOwned(old(S())) ==> AllOwned(S())
    {
      ghost var s := S();
      EnterPlaced(s, l, r);
      res := res[r := res[r].(next := heads[l], prev := None)];
      if heads[l].Some? { res := res[heads[l].value := res[heads[l].value].(prev := Some(r))]; }
      heads := heads[l := Some(r)];
      lists := lists[l := [r] + lists[l]];
      assert S() == Add(s, l, r);
    }

    /** `EventableResourceList::remove` on list l. */
    method RemoveFrom(l: nat, r: nat)
      requires Placed(S(), r, Some(l)) && l < |lists|
      modifies this
      ensures Placed(S(), r, None) && SameFlags(old(S()), S()) && lists == old(lists)[l := Minus(old(lists[l]), r)]
      ensures res[r] == old(res[r])
      ensures AllOwned(old(S())) ==> AllOwned(S())
    {
      ghost var s := S();
      LeavePlaced(s, l, r);
      ghost var k := Index(lists[l], r);
      assert Chain(s, l) && Node(s, l, k) && (k > 0 ==> Node(s, l, k - 1))
        && (k + 1 < |lists[l]| ==> Node(s, l, k + 1));
      var node := res[r];
      if node.prev.Some? {
        res := res[node.prev.value := res[node.prev.value].(next := node.next)];
      } else {
        heads := heads[l := node.next];
      }
      if node.next.Some? { res := res[node.next.value := res[node.next.value].(prev := node.prev)]; }
      lists := lists[l := lists[l][..k] + lists[l][k + 1..]];
      assert S() == Leave(s, l, r);
    }

    method SetFlags(r: nat, inUse: bool, enabled: bool, interrupt: bool, owner: Option<nat>, ghost where_: Option<nat>)
      requires Placed(S(), r, where_)
      modifies this`res
      ensures Placed(S(), r, where_)
      ensures res == old(res)[r := old(res[r]).(inUse := inUse, eventsEnabled := enabled,
          interruptMode := interrupt, owner := owner)]
    {
      SetPlaced(S(), r, where_, inUse, enabled, interrupt, owner);
      res := res[r := res[r].(inUse := inUse, eventsEnabled := enabled, interruptMode := interrupt, owner := owner)];
    }

    /** `updateOwner` */
    method UpdateOwner(r: nat, t: nat)
      requires Inv(S()) && r < |res| && res[r].inUse && ListOf(t, true) < |lists|
      modifies this
      ensures Became(old(S()), S(), r, true, old(res[r].eventsEnabled), old(res[r].interruptMode), Some(t))
    {
      ghost var s := S();
      InvIsPlaced(s, r);
      if res[r].owner == Some(t) { return; }
      assert Owned(s, res[r]);
      if res[r].eventsEnabled {
        RemoveFrom(ListOf(res[r].owner.value, res[r].interruptMode), r);
        AddTo(ListOf(t, res[r].interruptMode), r);
      }
      ghost var h := if res[r].eventsEnabled then Some(ListOf(t, res[r].interruptMode)) else None;
      SetFlags(r, true, res[r].eventsEnabled, res[r].interruptMode, Some(t), h);
      InvIsPlaced(S(), r);
    }

    /** Unlink r if it is linked: the first half of several transitions. */
    method Unlink(r: nat)
      requires Inv(S()) && r < |res| && res[r].inUse
      modifies this
      ensures Placed(S(), r, None) && AllOwned(S()) && SameFlags(old(S()), S()) && res[r] == old(res[r])
      ensures lists == Moved(old(lists), r, old(Home(res[r])), None)
    {
      ghost var s := S();
      InvIsPlaced(s, r);
      assert Owned(s, res[r]);
      if res[r].eventsEnabled {
        RemoveFrom(ListOf(res[r].owner.value, res[r].interruptMode), r);
      }
    }

    /** `eventDisable` */
    method EventDisable(r: nat, t: nat)
      requires Inv(S()) && r < |res| && res[r].inUse && ListOf(t, true) < |lists|
      modifies this
      ensures Became(old(S()), S(), r, true, false, old(res[r].interruptMode), Some(t))
      ensures res[r].next == old(res[r].next)
    {
      Unlink(r);
      SetFlags(r, true, false, res[r].interruptMode, Some(t), None);
      InvIsPlaced(S(), r);
    }

    /** `eventEnable`, before any event is raised. */
    method EventEnable(r: nat, t: nat)
      requires Inv(S()) && r < |res| && res[r].inUse && ListOf(t, true) < |lists|
      modifies this
      ensures Became(old(S()), S(), r, true, true, old(res[r].interruptMode), Some(t))
    {
      ghost var s := S();
      UpdateOwner(r, t);
      if !res[r].eventsEnabled {
        InvIsPlaced(S(), r);
        AddTo(ListOf(t, res[r].interruptMode), r);
        SetFlags(r, true, true, res[r].interruptMode, Some(t), Some(ListOf(t, res[r].interruptMode)));
        InvIsPlaced(S(), r);
      }
    }

    /** `setInterruptMode` of a resource that has been given its new owner. */
    method SwitchMode(r: nat, enable: bool)
      requires Inv(S()) && r < |res| && res[r].inUse && res[r].interruptMode != enable
      modifies this
      ensures Became(old(S()), S(), r, true, old(res[r].eventsEnabled), enable, old(res[r].owner))
    {
      assert Owned(S(), res[r]);
      var t := res[r].owner.value;
      Unlink(r);
      if res[r].eventsEnabled { AddTo(ListOf(t, enable), r); }
      SetFlags(r, true, res[r].eventsEnabled, enable, Some(t),
        if res[r].eventsEnabled then Some(ListOf(t, enable)) else None);
      InvIsPlaced(S(), r);
    }

    /** `setInterruptMode`, before any event is raised. */
    method SetInterruptMode(r: nat, t: nat, enable: bool)
      requires Inv(S()) && r < |res| && res[r].inUse && ListOf(t, true) < |lists|
      modifies this
      ensures Became(old(S()), S(), r, true, old(res[r].eventsEnabled), enable, Some(t))
    {
      ghost var s := S();
      UpdateOwner(r, t);
      if enable == res[r].interruptMode { return; }
      ghost var m := S();
      SwitchMode(r, enable);
      BecameTwice(s, m, S(), r, s.res[r].eventsEnabled, enable, t);
    }

    /** `eventableSetInUseOn` */
    method SetInUseOn(r: nat, t: nat)
      requires Inv(S()) && r < |res| && ListOf(t, true) < |lists|
      modifies this
      ensures Became(old(S()), S(), r, true, false, false, Some(t))
    {
      ghost var s := S();
      InvIsPlaced(s, r);
      if res[r].inUse { Unlink(r); }
      SetFlags(r, true, false, false, Some(t), None);
      InvIsPlaced(S(), r);
    }

    /** `eventableSetInUseOff`: the flags other than the owner are left as they are. */
    method SetInUseOff(r: nat)
      requires Inv(S()) && r < |res|
      modifies this
      ensures Became(old(S()), S(), r, false, old(res[r].eventsEnabled), old(res[r].interruptMode),
                     if old(res[r].inUse) then None else old(res[r].owner))
    {
      if !res[r].inUse { return; }
      Unlink(r);
      SetFlags(r, false, res[r].eventsEnabled, res[r].interruptMode, None, None);
      InvIsPlaced(S(), r);
    }

    /** One turn of the loop of `clre`: the node that is unlinked keeps its link to the next one. */
    method DisableFirst(t: nat, r: nat)
      requires Inv(S()) && ListOf(t, true) < |lists| && lists[ListOf(t, false)] != [] && r == lists[ListOf(t, false)][0]
      modifies this
      ensures Inv(S()) && Disabled(old(res), res, [r])
      ensures lists == old(lists)[ListOf(t, false) := old(lists[ListOf(t, false)])[1..]]
      ensures r < |res| && res[r].next == At(lists[ListOf(t, false)], 0)
    {
      ghost var l := ListOf(t, false);
      First(S(), l);
      assert Minus(lists[l], r) == lists[l][1..];
      EventDisable(r, t);
    }

    /** The loop of `clre`: disable every resource on the event list of t. */
    method Clre(t: nat)
      requires Inv(S()) && ListOf(t, true) < |lists|
      modifies this
      ensures Inv(S()) && Disabled(old(res), res, old(lists[ListOf(t, false)]))
      ensures lists == old(lists)[ListOf(t, false) := []]
    {
      var l := ListOf(t, false);
      ghost var q, k: nat := lists[l], 0;
      First(S(), l);
      var p := heads[l];
      while p.Some?
        invariant Inv(S()) && k <= |q| && Disabled(old(res), res, q[..k])
        invariant lists == old(lists)[l := q[k..]] && p == At(q, k)
        decreases |q| - k
      {
        ghost var before := res;
        assert q[k..][1..] == q[k + 1..];
        DisableFirst(t, p.value);
        DisabledTwice(old(res), before, res, q, k);
        p := res[p.value].next;
        k := k + 1;
      }
    }
  }
}
