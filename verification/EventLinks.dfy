/** Adding and removing keep every list well linked and the lists apart. */
module EventLinks {
  import opened Sequences
  import opened EventState

  /** The state differs at most in links. */
  predicate SameFlags(s: State, t: State) {
    |t.res| == |s.res| &&
    forall r | 0 <= r < |s.res| :: t.res[r].(next := s.res[r].next, prev := s.res[r].prev) == s.res[r]
  }

  lemma Removed(q: seq<nat>, k: nat)
    requires Distinct(q) && k < |q|
    ensures Distinct(q[..k] + q[k + 1..])
    ensures forall x: nat :: x in q[..k] + q[k + 1..] <==> x in q && x != q[k]
  {
    DistinctWithout(q, k);
    var t := q[..k] + q[k + 1..];
    assert forall i | 0 <= i < |t| :: t[i] == q[if i < k then i else i + 1];
    forall x: nat | x in q && x != q[k] ensures x in t {
      var i :| 0 <= i < |q| && q[i] == x;
      assert t[if i < k then i else i - 1] == x;
    }
  }

  /** A list whose nodes keep their links is still well linked. */
  lemma ChainFrame(s: State, t: State, l: nat)
    requires l < |s.lists| == |s.heads| == |t.lists| == |t.heads| && |t.res| == |s.res|
    requires Chain(s, l) && t.lists[l] == s.lists[l] && t.heads[l] == s.heads[l]
    requires forall k | 0 <= k < |s.lists[l]| && s.lists[l][k] < |s.res| ::
               var x := s.lists[l][k]; t.res[x].next == s.res[x].next && t.res[x].prev == s.res[x].prev
    ensures Chain(t, l)
  {
    forall k | 0 <= k < |t.lists[l]| ensures Node(t, l, k) { assert Node(s, l, k); }
  }

  /** The writes of a removal. */
  lemma RemoveWrites(s: State, l: nat, k: nat, x: nat)
    requires l < |s.lists| == |s.heads| && Chain(s, l) && k < |s.lists[l]| && x < |s.res|
    ensures var t := Remove(s, l, k); var q := s.lists[l];
      && |t.res| == |s.res|
      && t.res[x].next == (if k > 0 && x == q[k - 1] then At(q, k + 1) else s.res[x].next)
      && t.res[x].prev == (if k + 1 < |q| && x == q[k + 1] then At(q, k - 1) else s.res[x].prev)
      && t.res[x].(next := s.res[x].next, prev := s.res[x].prev) == s.res[x]
  {
    assert Node(s, l, k) && (k > 0 ==> Node(s, l, k - 1)) && (k + 1 < |s.lists[l]| ==> Node(s, l, k + 1));
  }

  lemma RemoveNode(s: State, l: nat, k: nat, i: nat)
    requires l < |s.lists| == |s.heads| && Chain(s, l) && k < |s.lists[l]| && i + 1 < |s.lists[l]|
    ensures Node(Remove(s, l, k), l, i)
  {
    var q := s.lists[l];
    var j := if i < k then i else i + 1;
    assert Node(s, l, j);
    RemoveWrites(s, l, k, q[j]);
    var p := Remove(s, l, k).lists[l];
    assert p[i] == q[j];
    assert At(p, i + 1) == if i + 1 < k then At(q, i + 1) else At(q, i + 2);
    assert At(p, i - 1) == if i - 1 < k then At(q, i - 1) else At(q, i);
  }

  lemma RemoveChain(s: State, l: nat, k: nat)
    requires l < |s.lists| == |s.heads| && Chain(s, l) && k < |s.lists[l]|
    ensures Chain(Remove(s, l, k), l)
  {
    var t := Remove(s, l, k);
    Removed(s.lists[l], k);
    assert Node(s, l, k) && Node(s, l, 0);
    forall i | 0 <= i < |t.lists[l]| ensures Node(t, l, i) { RemoveNode(s, l, k, i); }
  }

  lemma AddChain(s: State, l: nat, r: nat)
    requires l < |s.lists| == |s.heads| && Chain(s, l) && r < |s.res| && r !in s.lists[l]
    ensures (s.heads[l].Some? ==> s.heads[l].value < |s.res|) && Chain(Add(s, l, r), l)
  {
    assert s.lists[l] != [] ==> Node(s, l, 0);
    var t := Add(s, l, r);
    forall i | 0 <= i < |t.lists[l]| ensures Node(t, l, i) {
      if i > 0 { assert t.lists[l][i] == s.lists[l][i - 1] && Node(s, l, i - 1); }
    }
  }

  lemma RemoveLinks(s: State, l: nat, k: nat)
    requires Linked(s) && l < |s.lists| && k < |s.lists[l]|
    ensures Linked(Remove(s, l, k)) && SameFlags(s, Remove(s, l, k))
  {
    var t := Remove(s, l, k);
    RemoveChain(s, l, k);
    forall x: nat | x < |s.res|
      ensures |t.res| == |s.res| && t.res[x].(next := s.res[x].next, prev := s.res[x].prev) == s.res[x]
      ensures x !in s.lists[l] ==> t.res[x] == s.res[x]
    {
      RemoveWrites(s, l, k, x);
    }
    assert Node(s, l, k);
    RemoveWrites(s, l, k, s.lists[l][k]);
    Removed(s.lists[l], k);
    forall m | 0 <= m < |s.lists| ensures Chain(t, m) {
      if m != l {
        assert Apart(s, m, l);
        ChainFrame(s, t, m);
      }
    }
    forall a, b | 0 <= a < |s.lists| && 0 <= b < |s.lists| ensures Apart(t, a, b) {
      assert Apart(s, a, b) && Apart(s, b, a);
      if a != b {
        forall i | 0 <= i < |t.lists[a]| ensures t.lists[a][i] !in t.lists[b] {
          assert t.lists[a][i] in t.lists[a];
        }
      }
    }
  }

  lemma AddLinks(s: State, l: nat, r: nat)
    requires Linked(s) && l < |s.lists| && r < |s.res| && forall m | 0 <= m < |s.lists| :: r !in s.lists[m]
    ensures (s.heads[l].Some? ==> s.heads[l].value < |s.res|)
    ensures Linked(Add(s, l, r)) && SameFlags(s, Add(s, l, r))
  {
    AddChain(s, l, r);
    var t := Add(s, l, r);
    forall m | 0 <= m < |s.lists| ensures Chain(t, m) {
      if m != l {
        assert Apart(s, m, l);
        ChainFrame(s, t, m);
      }
    }
    forall a, b | 0 <= a < |s.lists| && 0 <= b < |s.lists| ensures Apart(t, a, b) {
      assert Apart(s, a, b) && Apart(s, b, a);
      if a != b {
        forall i | 0 <= i < |t.lists[a]| ensures t.lists[a][i] !in t.lists[b] {
          assert t.lists[a][i] in t.lists[a];
        }
      }
    }
  }
}
