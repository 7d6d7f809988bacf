/** Resources that can raise events and the intrusive lists that thread them to their owners (lib/Resource.cpp,
    lib/Thread.h), as values: resources and threads are indices, thread t having an event list 2t and an interrupt
    list 2t + 1. `lists` spells out what the links stand for. */
module EventState {
  import opened Sequences
  import opened Options

  datatype Resource = Resource(inUse: bool, eventsEnabled: bool, interruptMode: bool, owner: Option<nat>,
                               next: Option<nat>, prev: Option<nat>)

  datatype State = State(res: seq<Resource>, heads: seq<Option<nat>>, lists: seq<seq<nat>>)

  function ListOf(thread: nat, interrupt: bool): nat { 2 * thread + if interrupt then 1 else 0 }

  /** The list a resource belongs in. */
  function Home(r: Resource): Option<nat> {
    if r.inUse && r.eventsEnabled && r.owner.Some? then Some(ListOf(r.owner.value, r.interruptMode)) else None
  }

  // ---- The links ----

  function At(q: seq<nat>, k: int): Option<nat> { if 0 <= k < |q| then Some(q[k]) else None }

  predicate Node(s: State, l: nat, k: nat)
    requires l < |s.lists| && k < |s.lists[l]|
  {
    var r := s.lists[l][k];
    r < |s.res| && s.res[r].prev == At(s.lists[l], k - 1) && s.res[r].next == At(s.lists[l], k + 1)
  }

  /** The links of list l spell out lists[l]. */
  predicate Chain(s: State, l: nat)
    requires l < |s.lists| == |s.heads|
  {
    Distinct(s.lists[l]) && s.heads[l] == At(s.lists[l], 0) && forall k | 0 <= k < |s.lists[l]| :: Node(s, l, k)
  }

  predicate Apart(s: State, l: nat, m: nat)
    requires l < |s.lists| && m < |s.lists|
  {
    l == m || forall k | 0 <= k < |s.lists[l]| :: s.lists[l][k] !in s.lists[m]
  }

  ghost predicate Linked(s: State) {
    && |s.heads| == |s.lists|
    && (forall l | 0 <= l < |s.lists| :: Chain(s, l))
    && (forall l, m | 0 <= l < |s.lists| && 0 <= m < |s.lists| :: Apart(s, l, m))
  }

  /** `EventableResourceList::add`: at the front. */
  function Add(s: State, l: nat, r: nat): State
    requires l < |s.lists| == |s.heads| && r < |s.res| && (s.heads[l].Some? ==> s.heads[l].value < |s.res|)
  {
    var res := s.res[r := s.res[r].(next := s.heads[l], prev := None)];
    s.(res := if s.heads[l].Some? then res[s.heads[l].value := res[s.heads[l].value].(prev := Some(r))] else res,
       heads := s.heads[l := Some(r)], lists := s.lists[l := [r] + s.lists[l]])
  }

  /** `EventableResourceList::remove`, of the k-th node: its own links stay as they were. */
  function Remove(s: State, l: nat, k: nat): State
    requires l < |s.lists| == |s.heads| && Chain(s, l) && k < |s.lists[l]|
  {
    assert Node(s, l, k);
    var r := s.res[s.lists[l][k]];
    assert r.prev.Some? ==> Node(s, l, k - 1);
    var res := if r.prev.Some? then s.res[r.prev.value := s.res[r.prev.value].(next := r.next)] else s.res;
    assert r.next.Some? ==> Node(s, l, k + 1);
    s.(res := if r.next.Some? then res[r.next.value := res[r.next.value].(prev := r.prev)] else res,
       heads := if r.prev.Some? then s.heads else s.heads[l := r.next],
       lists := s.lists[l := s.lists[l][..k] + s.lists[l][k + 1..]])
  }
}
