/** When four shards merge, counted in clients. */
module Merging {
  import opened Trees
  import opened TreeSurgery
  import opened Spatial
  import opened SpatialInvariant

  /** A node whose four children are shards of their own. */
  ghost predicate FourLeaves(n: Tree) {
    n.Node? && n.nw.Leaf? && n.ne.Leaf? && n.sw.Leaf? && n.se.Leaf?
  }

  /** The clients recorded in one of the children. */
  ghost function ClientsIn(primary: map<nat, nat>, n: Tree): set<nat>
    requires FourLeaves(n)
  {
    set c | c in primary && primary[c] in {n.nw.id, n.ne.id, n.sw.id, n.se.id}
  }

  lemma {:induction false} PopulationCounts(primary: map<nat, nat>, id: nat)
    ensures Population(Populations(primary), id) == |ClientsAt(primary, id)|
  {
    if id !in primary.Values {
      assert ClientsAt(primary, id) == {};
    }
  }

  lemma {:induction false} UniqueChildren(n: Tree)
    requires Unique(n) && FourLeaves(n)
    ensures n.nw.id != n.ne.id && n.nw.id != n.sw.id && n.nw.id != n.se.id
    ensures n.ne.id != n.sw.id && n.ne.id != n.se.id && n.sw.id != n.se.id
  {
    assert n.nw.id in Ids(n.nw) && n.ne.id in Ids(n.ne) && n.sw.id in Ids(n.sw) && n.se.id in Ids(n.se);
  }

  lemma {:induction false} GroupCount(primary: map<nat, nat>, n: Tree)
    requires Unique(n) && FourLeaves(n)
    ensures |ClientsIn(primary, n)| ==
            |ClientsAt(primary, n.nw.id)| + |ClientsAt(primary, n.ne.id)| + |ClientsAt(primary, n.sw.id)|
                + |ClientsAt(primary, n.se.id)|
  {
    UniqueChildren(n);
    var a, b, c, d := ClientsAt(primary, n.nw.id), ClientsAt(primary, n.ne.id), ClientsAt(primary, n.sw.id),
        ClientsAt(primary, n.se.id);
    assert ClientsIn(primary, n) == a + b + c + d;
    assert a !! b && (a + b) !! c && (a + b + c) !! d;
  }

  /** A group may merge exactly when at most one client is left in it. */
  lemma {:induction false} EligibleCounts(primary: map<nat, nat>, n: Tree)
    requires Unique(n)
    ensures Eligible(n, Populations(primary), MIN_POPULATION) <==> FourLeaves(n) && |ClientsIn(primary, n)| <= 1
  {
    hide ClientsIn, ClientsAt, Populations, Unique;
    if FourLeaves(n) {
      GroupCount(primary, n);
      PopulationCounts(primary, n.nw.id);
      PopulationCounts(primary, n.ne.id);
      PopulationCounts(primary, n.sw.id);
      PopulationCounts(primary, n.se.id);
    }
  }

  lemma {:induction false} PostOrderUnique(t: Tree, n: Tree)
    requires Unique(t) && n in PostOrder(t)
    ensures Unique(n)
  {
    if n != t {
      if n in PostOrder(t.nw) { PostOrderUnique(t.nw, n); }
      else if n in PostOrder(t.ne) { PostOrderUnique(t.ne, n); }
      else if n in PostOrder(t.sw) { PostOrderUnique(t.sw, n); }
      else { assert n in PostOrder(t.se); PostOrderUnique(t.se, n); }
    }
  }

  lemma {:induction false} ClientsListed(primary: map<nat, nat>, n: Tree)
    requires FourLeaves(n)
    ensures ClientsIn(primary, n) == set c | c in primary && primary[c] in [n.nw.id, n.ne.id, n.sw.id, n.se.id]
  {
  }

  /**
   * `check_merges` in numbers of clients: it does nothing if and only if every four sibling leaves hold
   * two clients or more between them, and otherwise it merges one group that holds at most one.
   */
  lemma {:induction false} MergesExactly(s: Service)
    requires Unique(s.tree)
    ensures var actions := CheckMerges(s).actions;
            && (actions == [] <==>
                  forall n :: n in PostOrder(s.tree) && FourLeaves(n) ==> |ClientsIn(s.primary, n)| >= 2)
            && (actions != [] ==>
                  exists n :: n in PostOrder(s.tree) && FourLeaves(n) && |ClientsIn(s.primary, n)| <= 1
                      && actions == [ScaleDown(n.id, [n.nw.id, n.ne.id, n.sw.id, n.se.id])])
            && (forall p, ks :: ScaleDown(p, ks) in actions ==> |set c | c in s.primary && s.primary[c] in ks| <= 1)
  {
    hide TryMerge, Eligible, PostOrder, Unique, Populations, ClientsIn, FirstEligible;
    var pop := Populations(s.primary);
    TryMergeIsFirstEligible(s.tree, pop, MIN_POPULATION);
    FirstEligibleExact(PostOrder(s.tree), pop, MIN_POPULATION);
    forall n | n in PostOrder(s.tree)
      ensures Eligible(n, pop, MIN_POPULATION) <==> FourLeaves(n) && |ClientsIn(s.primary, n)| <= 1
    {
      PostOrderUnique(s.tree, n);
      EligibleCounts(s.primary, n);
    }
    var f := FirstEligible(PostOrder(s.tree), pop, MIN_POPULATION);
    if f.Some? {
      ClientsListed(s.primary, f.value);
    }
  }

  lemma {:induction false} ForgottenClients(s: Service, c: nat, n: Tree)
    requires FourLeaves(n)
    ensures ClientsIn(Forget(s, c).primary, n) == ClientsIn(s.primary, n) - {c} && Forget(s, c).tree == s.tree
  {
  }

  lemma {:induction false} TreeUnique(w: World, s: Server)
    requires Inv(w, s)
    ensures Unique(s.svc.tree)
  {
    hide Unique, Shaped, Numbered;
  }

  /**
   * In every run, a departure merges shards if and only if some four sibling leaves hold at most one
   * client besides the one that leaves.
   */
  lemma {:induction false} DepartureMergesExactly(w: World, events: seq<Event>, c: nat, actions: seq<SpatialAction>)
    requires Sound(w) && Emits(After(w, events), Disconnect(c), actions)
    ensures var s := After(w, events).svc;
            && (actions == [] <==>
                  forall n :: n in PostOrder(s.tree) && FourLeaves(n) ==> |ClientsIn(s.primary, n) - {c}| >= 2)
            && (actions != [] ==>
                  exists n :: n in PostOrder(s.tree) && FourLeaves(n) && |ClientsIn(s.primary, n) - {c}| <= 1
                      && actions == [ScaleDown(n.id, [n.nw.id, n.ne.id, n.sw.id, n.se.id])])
  {
    hide After, Inv, CheckMerges, PostOrder, ClientsIn, Unique;
    ReachableInv(w, events);
    var s := After(w, events);
    TreeUnique(w, s);
    MergesExactly(Forget(s.svc, c));
    forall n | n in PostOrder(s.svc.tree) && FourLeaves(n)
      ensures ClientsIn(Forget(s.svc, c).primary, n) == ClientsIn(s.svc.primary, n) - {c}
    {
      ForgottenClients(s.svc, c, n);
    }
  }
}
