/** Ownership, mode, enable, disable and in-use transitions keep each resource in exactly the list it belongs in. */
module EventOwners {
  import opened Sequences
  import opened Options
  import opened EventState
  import opened EventLinks

  /** Every resource is linked where it belongs, except that r is linked in `where`. */
  predicate Belongs(s: State, r: nat, where_: Option<nat>, x: nat, l: nat)
    requires l < |s.lists| && x < |s.res|
  {
    x in s.lists[l] <==> (if x == r then where_ else Home(s.res[x])) == Some(l)
  }

  ghost predicate Placed(s: State, r: nat, where_: Option<nat>) {
    Linked(s) && r < |s.res| && forall x, l | 0 <= x < |s.res| && 0 <= l < |s.lists| :: Belongs(s, r, where_, x, l)
  }

  predicate Owned(s: State, r: Resource) {
    (r.owner.Some? ==> ListOf(r.owner.value, true) < |s.lists|) && (r.inUse ==> r.owner.Some?)
  }

  /** An in-use resource is linked, exactly once, in its owner's list for its mode iff its events are enabled. */
  ghost predicate Inv(s: State) {
    && Linked(s)
    && (forall x, l | 0 <= x < |s.res| && 0 <= l < |s.lists| :: x in s.lists[l] <==> Home(s.res[x]) == Some(l))
    && (forall x | 0 <= x < |s.res| :: Owned(s, s.res[x]))
  }

  ghost predicate AllOwned(s: State) { forall x | 0 <= x < |s.res| :: Owned(s, s.res[x]) }

  lemma InvIsPlaced(s: State, r: nat)
    requires r < |s.res|
    ensures Inv(s) <==> Placed(s, r, Home(s.res[r])) && AllOwned(s)
  {
    if Inv(s) {
      forall x, l | 0 <= x < |s.res| && 0 <= l < |s.lists| ensures Belongs(s, r, Home(s.res[r]), x, l) {}
    }
    if Placed(s, r, Home(s.res[r])) && AllOwned(s) {
      forall x, l | 0 <= x < |s.res| && 0 <= l < |s.lists| ensures x in s.lists[l] <==> Home(s.res[x]) == Some(l) {
        assert Belongs(s, r, Home(s.res[r]), x, l);
      }
    }
  }

  function Index(q: seq<nat>, r: nat): (k: nat)
    requires r in q
    ensures k < |q| && q[k] == r
  {
    if q[0] == r then 0 else 1 + Index(q[1..], r)
  }

  /** Unlink r from list l, or link it there. */
  function Leave(s: State, l: nat, r: nat): State
    requires l < |s.lists| == |s.heads| && Chain(s, l) && r in s.lists[l]
  {
    Remove(s, l, Index(s.lists[l], r))
  }

  lemma LeavePlaced(s: State, l: nat, r: nat)
    requires Placed(s, r, Some(l)) && l < |s.lists|
    ensures r in s.lists[l] && Placed(Leave(s, l, r), r, None) && SameFlags(s, Leave(s, l, r))
    ensures AllOwned(s) ==> AllOwned(Leave(s, l, r))
  {
    assert Belongs(s, r, Some(l), r, l);
    var k := Index(s.lists[l], r);
    RemoveLinks(s, l, k);
    assert Chain(s, l);
    Removed(s.lists[l], k);
    var t := Leave(s, l, r);
    forall x, m | 0 <= x < |t.res| && 0 <= m < |t.lists| ensures Belongs(t, r, None, x, m) {
      assert Belongs(s, r, Some(l), x, m);
    }
  }

  lemma EnterPlaced(s: State, l: nat, r: nat)
    requires Placed(s, r, None) && l < |s.lists|
    ensures (s.heads[l].Some? ==> s.heads[l].value < |s.res|)
    ensures Placed(Add(s, l, r), r, Some(l)) && SameFlags(s, Add(s, l, r))
    ensures AllOwned(s) ==> AllOwned(Add(s, l, r))
  {
    forall m | 0 <= m < |s.lists| ensures r !in s.lists[m] { assert Belongs(s, r, None, r, m); }
    AddLinks(s, l, r);
    var t := Add(s, l, r);
    forall x, m | 0 <= x < |t.res| && 0 <= m < |t.lists| ensures Belongs(t, r, Some(l), x, m) {
      assert Belongs(s, r, None, x, m);
    }
  }

  /** Change flags of r that no link depends on. */
  function Set(s: State, r: nat, inUse: bool, enabled: bool, interrupt: bool, owner: Option<nat>): State
    requires r < |s.res|
  {
    s.(res := s.res[r := s.res[r].(inUse := inUse, eventsEnabled := enabled,
      interruptMode := interrupt, owner := owner)])
  }

  lemma SetPlaced(s: State, r: nat, where_: Option<nat>, inUse: bool, enabled: bool,
      interrupt: bool, owner: Option<nat>)
    requires Placed(s, r, where_)
    ensures Placed(Set(s, r, inUse, enabled, interrupt, owner), r, where_)
  {
    var t := Set(s, r, inUse, enabled, interrupt, owner);
    forall l | 0 <= l < |s.lists| ensures Chain(t, l) { assert Chain(s, l); ChainFrame(s, t, l); }
    forall l, m | 0 <= l < |s.lists| && 0 <= m < |s.lists| ensures Apart(t, l, m) { assert Apart(s, l, m); }
    forall x, l | 0 <= x < |t.res| && 0 <= l < |t.lists| ensures Belongs(t, r, where_, x, l) {
      assert Belongs(s, r, where_, x, l);
    }
  }

  function Minus(q: seq<nat>, r: nat): seq<nat> {
    if r in q then q[..Index(q, r)] + q[Index(q, r) + 1..] else q
  }

  /** The lists without r in one of them, and with r at the front of one of them. */
  function Out(lists: seq<seq<nat>>, r: nat, from: Option<nat>): seq<seq<nat>> {
    if from.Some? && from.value < |lists| then lists[from.value := Minus(lists[from.value], r)] else lists
  }

  function Into(lists: seq<seq<nat>>, r: nat, to: Option<nat>): seq<seq<nat>> {
    if to.Some? && to.value < |lists| then lists[to.value := [r] + lists[to.value]] else lists
  }

  /** The lists after r moves from one list to the front of another. */
  function Moved(lists: seq<seq<nat>>, r: nat, from: Option<nat>, to: Option<nat>): seq<seq<nat>> {
    if from == to then lists else Into(Out(lists, r, from), r, to)
  }

  /** Every resource but r has its old flags. */
  predicate SameOthers(s: State, t: State, r: nat) {
    |t.res| == |s.res| && forall x | 0 <= x < |s.res| && x != r ::
      t.res[x].(next := s.res[x].next, prev := s.res[x].prev) == s.res[x]
  }

  lemma SameOthersTwice(s: State, m: State, t: State, r: nat)
    requires SameOthers(s, m, r) && SameOthers(m, t, r)
    ensures SameOthers(s, t, r)
  {
  }

  /** Resource r has the given flags, every other resource its old ones, and r has moved accordingly. */
  ghost predicate Became(s: State, t: State, r: nat, inUse: bool, enabled: bool, interrupt: bool, owner: Option<nat>)
    requires r < |s.res|
  {
    && Inv(t) && |t.res| == |s.res| && t.res[r].inUse == inUse && t.res[r].eventsEnabled == enabled
    && t.res[r].interruptMode == interrupt && t.res[r].owner == owner
    && SameOthers(s, t, r) && t.lists == Moved(s.lists, r, Home(s.res[r]), Home(t.res[r]))
  }

  /** The first resource on a list: where the list starts, and where it goes on. */
  lemma First(s: State, l: nat)
    requires Inv(s) && l < |s.lists|
    ensures s.heads[l] == At(s.lists[l], 0)
    ensures s.lists[l] != [] ==>
      var r := s.lists[l][0];
      r < |s.res| && Home(s.res[r]) == Some(l) && s.res[r].next == At(s.lists[l], 1)
  {
    assert Chain(s, l) && (s.lists[l] != [] ==> Node(s, l, 0));
  }

  /** The same resources, but for events disabled on some. */
  predicate Disabled(before: seq<Resource>, after: seq<Resource>, off: seq<nat>) {
    |after| == |before| && forall x | 0 <= x < |before| ::
      && after[x].eventsEnabled == (before[x].eventsEnabled && x !in off)
      && after[x].inUse == before[x].inUse && after[x].interruptMode == before[x].interruptMode
      && after[x].owner == before[x].owner
  }

  lemma DisabledTwice(a: seq<Resource>, b: seq<Resource>, c: seq<Resource>, q: seq<nat>, k: nat)
    requires k < |q| && Disabled(a, b, q[..k]) && Disabled(b, c, [q[k]])
    ensures Disabled(a, c, q[..k + 1])
  {
    assert q[..k + 1] == q[..k] + [q[k]];
  }

  lemma MovedMinus(lists: seq<seq<nat>>, r: nat, from: Option<nat>, to: Option<nat>, l: nat)
    requires l < |lists| && Distinct(lists[l]) && (r in lists[l] ==> from == Some(l))
    ensures |Moved(lists, r, from, to)| == |lists| && Minus(Moved(lists, r, from, to)[l], r) == Minus(lists[l], r)
  {
    if from != to {
      var a := Out(lists, r, from);
      assert a[l] == (if from == Some(l) then Minus(lists[l], r) else lists[l]);
      assert Into(a, r, to)[l] == (if to == Some(l) then [r] + a[l] else a[l]);
      MinusTwice(lists[l], r);
      assert r !in a[l];
      MinusFront(a[l], r);
    }
  }

  /** What moving means: r is then in its new list alone, and every other resource stays where it was, in order. */
  lemma MovedAlone(s: State, t: State, r: nat, inUse: bool, enabled: bool, interrupt: bool, owner: Option<nat>, l: nat)
    requires Inv(s) && r < |s.res| && Became(s, t, r, inUse, enabled, interrupt, owner) && l < |s.lists|
    ensures |t.lists| == |s.lists|
    ensures r in t.lists[l] <==> inUse && enabled && owner.Some? && l == ListOf(owner.value, interrupt)
    ensures Minus(t.lists[l], r) == Minus(s.lists[l], r)
  {
    assert Chain(s, l);
    MovedMinus(s.lists, r, Home(s.res[r]), Home(t.res[r]), l);
  }

  lemma OutInto(lists: seq<seq<nat>>, r: nat, l: nat)
    requires l < |lists| && r !in lists[l]
    ensures Out(Into(lists, r, Some(l)), r, Some(l)) == lists
  {
    MinusFront(lists[l], r);
  }

  lemma MovedTwice(lists: seq<seq<nat>>, r: nat, from: Option<nat>, mid: Option<nat>, to: Option<nat>)
    requires (mid.Some? ==> mid.value < |lists| && (r in lists[mid.value] ==> from == mid))
    requires from != to || mid == from
    ensures Moved(Moved(lists, r, from, mid), r, mid, to) == Moved(lists, r, from, to)
  {
    if mid.Some? && mid != from { OutInto(Out(lists, r, from), r, mid.value); }
  }

  /** A change of owner followed by a change of mode is one move. */
  lemma BecameTwice(s: State, m: State, t: State, r: nat, enabled: bool, interrupt: bool, owner: nat)
    requires Inv(s) && r < |s.res| && s.res[r].inUse && s.res[r].interruptMode != interrupt
    requires Became(s, m, r, true, enabled, s.res[r].interruptMode, Some(owner)) && enabled == s.res[r].eventsEnabled
    requires Became(m, t, r, true, enabled, interrupt, Some(owner))
    ensures Became(s, t, r, true, enabled, interrupt, Some(owner))
  {
    SameOthersTwice(s, m, t, r);
    assert Owned(s, s.res[r]);
    HomesDiffer(s.res[r], m.res[r], t.res[r]);
    MovedSize(s.lists, r, Home(s.res[r]), Home(m.res[r]));
    ListsTwice(s, m, r, Home(t.res[r]));
  }

  lemma MovedSize(lists: seq<seq<nat>>, r: nat, from: Option<nat>, to: Option<nat>)
    ensures |Moved(lists, r, from, to)| == |lists|
  {
  }

  /** Another mode is another list, if it is a list at all. */
  lemma HomesDiffer(x: Resource, y: Resource, z: Resource)
    requires x.inUse == y.inUse == z.inUse && x.eventsEnabled == y.eventsEnabled == z.eventsEnabled
    requires x.interruptMode != z.interruptMode && (x.inUse ==> x.owner.Some?) && y.owner.Some? && z.owner.Some?
    ensures Home(x) != Home(z) || Home(y) == Home(x)
  {
    if Home(x).Some? { assert Home(x).value % 2 != Home(z).value % 2; }
  }

  /** Moving on from where r has just moved to is moving there from where it was. */
  lemma ListsTwice(s: State, m: State, r: nat, to: Option<nat>)
    requires Inv(s) && Inv(m) && r < |s.res| && r < |m.res| && |m.lists| == |s.lists|
    requires m.lists == Moved(s.lists, r, Home(s.res[r]), Home(m.res[r]))
    requires Home(s.res[r]) != to || Home(m.res[r]) == Home(s.res[r])
    ensures Moved(m.lists, r, Home(m.res[r]), to) == Moved(s.lists, r, Home(s.res[r]), to)
  {
    HomeIsList(m, r);
    if Home(m.res[r]).Some? { LinkedAtHome(s, r, Home(m.res[r]).value); }
    MovedTwice(s.lists, r, Home(s.res[r]), Home(m.res[r]), to);
  }

  lemma HomeIsList(m: State, r: nat)
    requires Inv(m) && r < |m.res|
    ensures Home(m.res[r]).Some? ==> Home(m.res[r]).value < |m.lists|
  {
    assert Owned(m, m.res[r]);
  }

  lemma LinkedAtHome(s: State, r: nat, l: nat)
    requires Inv(s) && r < |s.res| && l < |s.lists|
    ensures r in s.lists[l] <==> Home(s.res[r]) == Some(l)
  {
  }

  lemma MinusFront(q: seq<nat>, r: nat)
    requires r !in q
    ensures Minus([r] + q, r) == q
  {
    assert Index([r] + q, r) == 0;
  }

  lemma MinusTwice(q: seq<nat>, r: nat)
    requires Distinct(q)
    ensures r !in Minus(q, r) && Minus(Minus(q, r), r) == Minus(q, r)
  {
    if r in q { Removed(q, Index(q, r)); }
  }
}
