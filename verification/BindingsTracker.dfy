/** The bindings index as the object it is: bucket maps changed in place by the build, the
    delta hooks and the widening of the navigated set. */
module BindingsTrackers {
  import opened ListInterest
  import opened BindingsIndex

  /** The relation a bucket map holds. */
  function Pairs<K>(m: map<K, set<BindingID>>): set<(K, BindingID)> {
    set k, id | k in m && id in m[k] :: (k, id)
  }

  function Members<K>(m: map<K, set<BindingID>>, k: K): set<BindingID> {
    if k in m then m[k] else {}
  }

  function Put<K>(m: map<K, set<BindingID>>, k: K, id: BindingID): map<K, set<BindingID>> {
    m[k := Members(m, k) + {id}]
  }

  lemma PairsPut<K>(m: map<K, set<BindingID>>, k: K, id: BindingID)
    ensures Pairs(Put(m, k, id)) == Pairs(m) + {(k, id)}
  {
  }

  /** Every bucket without one id. */
  function Without<K>(m: map<K, set<BindingID>>, id: BindingID): map<K, set<BindingID>> {
    map k | k in m :: m[k] - {id}
  }

  lemma PairsWithout<K>(m: map<K, set<BindingID>>, id: BindingID)
    ensures Pairs(Without(m, id)) == set p | p in Pairs(m) && p.1 != id
  {
  }

  method DropFromAll(m: map<GroupResource, set<BindingID>>, id: BindingID) returns (r: map<GroupResource, set<BindingID>>)
    ensures r == Without(m, id)
  {
    r := m;
    var todo := m.Keys;
    while todo != {}
      invariant todo <= m.Keys == r.Keys
      invariant forall k | k in m :: r[k] == if k in todo then m[k] else m[k] - {id}
      decreases todo
    {
      var k :| k in todo;
      todo := todo - {k};
      r := r[k := r[k] - {id}];
    }
  }

  method AddGranted(m: map<GroupResource, set<BindingID>>, navigated: set<GroupResource>, rules: seq<Rule>, id: BindingID)
    returns (r: map<GroupResource, set<BindingID>>)
    ensures Pairs(r) == Pairs(m) + GrantedPairs(navigated, rules, id)
  {
    r := m;
    var todo := navigated;
    assert GrantedPairs({}, rules, id) == {};
    while todo != {}
      invariant todo <= navigated
      invariant Pairs(r) == Pairs(m) + GrantedPairs(navigated - todo, rules, id)
      decreases todo
    {
      var gr :| gr in todo;
      GrantedOne(navigated - todo, rules, id, gr);
      assert navigated - (todo - {gr}) == navigated - todo + {gr};
      todo := todo - {gr};
      if GrantGetList(rules, gr) {
        PairsPut(r, gr, id);
        r := Put(r, gr, id);
      }
    }
    assert navigated - todo == navigated;
  }

  lemma GrantedOne(done: set<GroupResource>, rules: seq<Rule>, id: BindingID, gr: GroupResource)
    ensures GrantedPairs(done + {gr}, rules, id) ==
              GrantedPairs(done, rules, id) + if GrantGetList(rules, gr) then {(gr, id)} else {}
  {
  }

  /** Visiting one more binding takes the expected index one step further. */
  ghost predicate Visits(visited: set<BindingID> -> Index, snap: Snapshot, done: set<BindingID>, id: BindingID) {
    id in snap.bindings && id !in done ==>
      visited(done + {id}) == BuiltMore(visited(done), snap, id) && id !in visited(done).entries
  }

  /** Every id is filed under one role at most. */
  ghost predicate OneRole(byRole: set<(string, BindingID)>) {
    forall rk1, rk2, id | (rk1, id) in byRole && (rk2, id) in byRole :: rk1 == rk2
  }

  class BindingsTracker {
    var byGVR: map<GroupResource, set<BindingID>>
    var wildcard: set<BindingID>
    var byRole: map<string, set<BindingID>>
    var entries: map<BindingID, seq<Subject>>
    var unresolved: set<BindingID>
    var navigated: set<GroupResource>
    var built: bool

    constructor ()
      ensures View() == EMPTY_INDEX
    {
      byGVR, wildcard, byRole, entries := map[], {}, map[], map[];
      unresolved, navigated, built := {}, {}, false;
    }

    function View(): Index
      reads this
    {
      Index(Pairs(byGVR), wildcard, Pairs(byRole), entries, unresolved, navigated, built)
    }

    /** Files the binding under its role, then buckets it by its rules. */
    method EnrolLocked(id: BindingID, subjects: seq<Subject>, rules: seq<Rule>, rk: string)
      modifies this
      ensures View() == old(Enrolled(View(), id, subjects, rules, rk))
    {
      FileLocked(id, subjects, rk);
      if GrantWildcard(rules) {
        wildcard := wildcard + {id};
        return;
      }
      byGVR := AddGranted(byGVR, navigated, rules, id);
    }

    method FileLocked(id: BindingID, subjects: seq<Subject>, rk: string)
      modifies `entries, `byRole
      ensures View() == old(Filed(View(), id, subjects, rk))
    {
      entries := entries[id := subjects];
      if rk != "" {
        PairsPut(byRole, rk, id);
        byRole := Put(byRole, rk, id);
      }
    }

    method UnrolLocked(id: BindingID, rk: string)
      modifies this
      ensures rk != "" || (rk, id) !in old(View()).byRole ==> View() == old(Unrolled(View(), id, rk))
    {
      wildcard := wildcard - {id};
      PairsWithout(byGVR, id);
      byGVR := DropFromAll(byGVR, id);
      if rk != "" && rk in byRole {
        byRole := byRole[rk := byRole[rk] - {id}];
      }
      entries := entries - {id};
      assert Pairs(byRole) == old(Pairs(byRole)) - (if rk != "" then {(rk, id)} else {});
    }

    method ApplyBindingAdd(snap: Snapshot, id: BindingID, b: Binding)
      modifies this
      ensures View() == old(Added(View(), snap, id, b))
    {
      var rules := RulesFor(snap, b.namespace, b.ref);
      var rk := RoleKey(b.namespace, b.ref);
      if rules.None? {
        FileLocked(id, b.subjects, rk);
        return;
      }
      EnrolLocked(id, b.subjects, rules.value, rk);
    }

    method RebucketLocked(id: BindingID, rules: seq<Rule>)
      modifies `wildcard, `byGVR
      ensures View() == old(Bucketed(Unbucketed(View(), id), id, rules))
    {
      wildcard := wildcard - {id};
      PairsWithout(byGVR, id);
      byGVR := DropFromAll(byGVR, id);
      if GrantWildcard(rules) {
        wildcard := wildcard + {id};
        return;
      }
      byGVR := AddGranted(byGVR, navigated, rules, id);
    }

    /** Re-buckets every binding filed under a role, by the rules of the role event. */
    method OnRoleRulesChanged(rk: string, rules: seq<Rule>)
      requires built
      modifies `wildcard, `byGVR
      ensures View() == old(Rerouted(View(), Referencing(View(), rk), rules))
    {
      ghost var before := View();
      var ids := if rk in byRole then byRole[rk] else {};
      ReferencingMembers(before, byRole, rk);
      var todo := ids;
      ghost var done: set<BindingID> := {};
      RerouteNone(before, rules);
      while todo != {}
        invariant todo <= ids && done == set id | id in ids - todo && id in entries
        invariant View() == Rerouted(before, done, rules)
        decreases todo
      {
        var id :| id in todo;
        todo := todo - {id};
        if id in entries {
          RerouteOneMore(before, done, rules, id);
          RebucketLocked(id, rules);
          done := done + {id};
        }
      }
      assert done == set id | id in ids && id in entries;
    }

    /** Resets the index and enrols every binding whose role resolves; the others are noted. */
    method BuildBindingsByGVRIndex(snap: Snapshot, navigatedGVRs: set<GroupResource>) returns (enrolled: nat)
      modifies this
      ensures View() == Build(snap, navigatedGVRs)
      ensures enrolled == |View().entries|
    {
      ResetFor(navigatedGVRs);
      ghost var visited := (ids: set<BindingID>) => Build(Only(snap, ids), navigatedGVRs);
      BuildNone(snap, navigatedGVRs);
      forall done, id ensures Visits(visited, snap, done, id) {
        if id in snap.bindings && id !in done { BuildOneMore(snap, done, navigatedGVRs, id); }
      }
      enrolled := EnrolAll(snap, visited);
      OnlyAll(snap, snap.bindings.Keys);
    }

    /** The build loop, against what the index should be once some bindings are visited. */
    method EnrolAll(snap: Snapshot, ghost visited: set<BindingID> -> Index) returns (enrolled: nat)
      requires View() == visited({}) && |View().entries| == 0
      requires forall done, id :: Visits(visited, snap, done, id)
      modifies this
      ensures View() == visited(snap.bindings.Keys)
      ensures enrolled == |View().entries|
    {
      enrolled := 0;
      var todo := snap.bindings.Keys;
      ghost var done: set<BindingID> := {};
      while todo != {}
        invariant done + todo == snap.bindings.Keys && done !! todo
        invariant View() == visited(done) && enrolled == |visited(done).entries|
        decreases todo
      {
        var id :| id in todo;
        todo := todo - {id};
        assert Visits(visited, snap, done, id);
        enrolled := EnrolNext(snap, id, done, visited, enrolled);
        done := done + {id};
      }
      assert done == snap.bindings.Keys;
    }

    method EnrolNext(snap: Snapshot, id: BindingID, ghost done: set<BindingID>, ghost visited: set<BindingID> -> Index, count: nat)
      returns (enrolled: nat)
      requires id in snap.bindings && id !in done && View() == visited(done)
      requires Visits(visited, snap, done, id)
      modifies this
      ensures View() == visited(done + {id})
      ensures enrolled - count == |visited(done + {id}).entries| - |visited(done).entries|
    {
      var added := BuildOne(snap, id);
      enrolled := count + if added then 1 else 0;
    }

    method ResetFor(navigatedGVRs: set<GroupResource>)
      modifies this
      ensures View() == EMPTY_INDEX.(navigated := navigatedGVRs, built := true)
    {
      byGVR, wildcard, byRole, entries := map[], {}, map[], map[];
      navigated, unresolved := navigatedGVRs, {};
      built := true;
    }

    method BuildOne(snap: Snapshot, id: BindingID) returns (added: bool)
      requires id in snap.bindings && id !in View().entries
      modifies this
      ensures View() == BuiltMore(old(View()), snap, id)
      ensures |View().entries| == |old(View()).entries| + if added then 1 else 0
    {
      var b := snap.bindings[id];
      var rules := RulesFor(snap, b.namespace, b.ref);
      if rules.None? {
        unresolved := unresolved + {id};
        return false;
      }
      EnrolLocked(id, b.subjects, rules.value, RoleKey(b.namespace, b.ref));
      added := true;
    }

    /** Widens the navigated set by one resource and enrols every known binding that grants it. */
    method AddNavigatedGVR(snap: Snapshot, gr: GroupResource)
      requires OneRole(View().byRole)
      modifies this
      ensures View() == old(Navigated(View(), snap, gr))
    {
      if gr in navigated {
        return;
      }
      EnrolKnown(snap, gr);
      navigated := navigated + {gr};
    }

    /** Widening during a run: the run's index files every binding under one role, so the
        search the widening rests on finds the role. */
    method AddNavigatedInRun(published: Snapshot, gr: GroupResource, ghost start: Snapshot, ghost ops: seq<Op>)
      requires GoodSnapshot(start) && AgreedSinceBuild(start, ops)
      requires View() == Run(start, ops).idx && published == Run(start, ops).pub
      modifies this
      ensures View() == Run(start, ops + [AddNavigated(gr)]).idx
    {
      RunAccurate(start, ops);
      AccurateOneRole(Run(start, ops));
      RunMore(start, ops, AddNavigated(gr));
      AddNavigatedGVR(published, gr);
    }

    /** Walks the known bindings once. */
    method EnrolKnown(snap: Snapshot, gr: GroupResource)
      requires OneRole(Pairs(byRole))
      modifies `byGVR
      ensures Pairs(byGVR) == old(Pairs(byGVR)) + NavigatedPairs(old(View()), snap, entries.Keys, gr)
    {
      ghost var before := View();
      var todo := entries.Keys;
      ghost var done: set<BindingID> := {};
      while todo != {}
        invariant done + todo == entries.Keys && done !! todo
        invariant Pairs(byGVR) == before.byGVR + NavigatedPairs(before, snap, done, gr)
        decreases todo
      {
        var id :| id in todo;
        todo := todo - {id};
        NavigatedOneMore(before, snap, done, gr, id);
        done := done + {id};
        EnrolNavigated(snap, gr, id);
      }
      assert done == entries.Keys;
    }

    method EnrolNavigated(snap: Snapshot, gr: GroupResource, id: BindingID)
      requires OneRole(Pairs(byRole))
      modifies `byGVR
      ensures Pairs(byGVR) == old(Pairs(byGVR)) +
                if id !in wildcard && EntryGrants(Pairs(byRole), snap, id, gr) then {(gr, id)} else {}
    {
      if id in wildcard {
        return;
      }
      var rules := RulesForEntryLocked(snap, id);
      if rules.Some? && GrantGetList(rules.value, gr) {
        PairsPut(byGVR, gr, id);
        byGVR := Put(byGVR, gr, id);
      }
    }

    /** Finds the role an id is filed under and resolves it. */
    method RulesForEntryLocked(snap: Snapshot, id: BindingID) returns (rules: Option<seq<Rule>>)
      requires OneRole(Pairs(byRole))
      ensures rules == EntryRules(Pairs(byRole), snap, id)
    {
      var todo := byRole.Keys;
      while todo != {}
        invariant todo <= byRole.Keys
        invariant forall rk | rk in byRole && rk !in todo :: id !in byRole[rk]
        decreases todo
      {
        var rk :| rk in todo;
        todo := todo - {rk};
        if id in byRole[rk] {
          assert (rk, id) in Pairs(byRole);
          var (ns, ref) := ParseRoleKey(rk);
          return RulesFor(snap, ns, ref);
        }
      }
      return None;
    }
  }

  /** An index that is right files every binding under one role at most. */
  lemma AccurateOneRole(w: World)
    requires Accurate(w)
    ensures OneRole(w.idx.byRole)
  {
    forall rk1, rk2, id | (rk1, id) in w.idx.byRole && (rk2, id) in w.idx.byRole ensures rk1 == rk2 {
      assert AccurateFor(w.idx, w.snap, id);
    }
  }

  lemma ReferencingMembers(idx: Index, byRole: map<string, set<BindingID>>, rk: string)
    requires idx.byRole == Pairs(byRole)
    ensures Referencing(idx, rk) == set id | id in Members(byRole, rk) && id in idx.entries
  {
    forall id ensures id in Referencing(idx, rk) <==> id in Members(byRole, rk) && id in idx.entries {
      if id in Members(byRole, rk) && id in idx.entries {
        assert (rk, id) in idx.byRole;
      }
    }
  }

  lemma RerouteOneMore(idx: Index, done: set<BindingID>, rules: seq<Rule>, id: BindingID)
    requires id !in done
    ensures Rerouted(idx, done + {id}, rules) == Bucketed(Unbucketed(Rerouted(idx, done, rules), id), id, rules)
  {
    var was, now := Rerouted(idx, done, rules), Rerouted(idx, done + {id}, rules);
    var next := Bucketed(Unbucketed(was, id), id, rules);
    assert now.wildcard == next.wildcard;
    assert now.byGVR == next.byGVR;
  }

  lemma RerouteNone(idx: Index, rules: seq<Rule>)
    ensures Rerouted(idx, {}, rules) == idx
  {
    var now := Rerouted(idx, {}, rules);
    assert now.wildcard == idx.wildcard && now.byGVR == idx.byGVR;
  }

  lemma NavigatedOneMore(idx: Index, snap: Snapshot, done: set<BindingID>, gr: GroupResource, id: BindingID)
    ensures NavigatedPairs(idx, snap, done + {id}, gr) ==
              NavigatedPairs(idx, snap, done, gr)
              + if id !in idx.wildcard && EntryGrants(idx.byRole, snap, id, gr) then {(gr, id)} else {}
  {
  }

  /** The snapshot with some of its bindings only. */
  function Only(snap: Snapshot, ids: set<BindingID>): Snapshot {
    snap.(bindings := map id | id in snap.bindings && id in ids :: snap.bindings[id])
  }

  lemma BuildNone(snap: Snapshot, navigated: set<GroupResource>)
    ensures Build(Only(snap, {}), navigated) == EMPTY_INDEX.(navigated := navigated, built := true)
  {
  }

  function BuiltMore(was: Index, snap: Snapshot, id: BindingID): Index
    requires id in snap.bindings
  {
    var b := snap.bindings[id];
    match RulesOf(snap, b)
    case None => was.(unresolved := was.unresolved + {id})
    case Some(rules) => Enrolled(was, id, b.subjects, rules, KeyOf(b))
  }

  lemma OnlyAll(snap: Snapshot, done: set<BindingID>)
    requires done == snap.bindings.Keys
    ensures Only(snap, done) == snap
  {
    assert Only(snap, done).bindings == snap.bindings;
  }

  lemma OnlyMore(snap: Snapshot, done: set<BindingID>, id: BindingID)
    requires id in snap.bindings
    ensures Only(snap, done + {id}) == Only(snap, done).(bindings := Only(snap, done).bindings[id := snap.bindings[id]])
  {
    assert Only(snap, done + {id}).bindings == Only(snap, done).bindings[id := snap.bindings[id]];
  }

  predicate OneMore(snap: Snapshot, next: Snapshot, id: BindingID, b: Binding) {
    id !in snap.bindings && next == snap.(bindings := snap.bindings[id := b])
  }

  /** What the roles of a snapshot say does not depend on its bindings. */
  lemma RulesKept(snap: Snapshot, next: Snapshot, b: Binding)
    requires next.roles == snap.roles && next.clusterRoles == snap.clusterRoles
    ensures RulesOf(next, b) == RulesOf(snap, b)
  {
  }

  lemma BuildGVRGrows(snap: Snapshot, next: Snapshot, navigated: set<GroupResource>, id: BindingID, b: Binding, rules: Option<seq<Rule>>)
    requires OneMore(snap, next, id, b) && rules == RulesOf(snap, b)
    ensures BuildGVR(next, navigated) == BuildGVR(snap, navigated) +
              if rules.Some? && !GrantWildcard(rules.value) then GrantedPairs(navigated, rules.value, id) else {}
  {
    forall x ensures RulesOf(next, x) == RulesOf(snap, x) { RulesKept(snap, next, x); }
    var more := if rules.Some? && !GrantWildcard(rules.value) then GrantedPairs(navigated, rules.value, id) else {};
    forall gr, x ensures (gr, x) in BuildGVR(next, navigated) <==> (gr, x) in BuildGVR(snap, navigated) + more {
      if x == id { assert (gr, x) in more <==> gr in navigated && InBucket(rules, gr); }
    }
  }

  lemma BuildSetsGrow(snap: Snapshot, next: Snapshot, id: BindingID, b: Binding, rules: Option<seq<Rule>>)
    requires OneMore(snap, next, id, b) && rules == RulesOf(snap, b)
    ensures BuildWildcard(next) == BuildWildcard(snap) + if InWildcard(rules) then {id} else {}
    ensures BuildUnresolved(next) == BuildUnresolved(snap) + if rules.None? then {id} else {}
  {
    forall x ensures RulesOf(next, x) == RulesOf(snap, x) { RulesKept(snap, next, x); }
  }

  lemma InBuildRoles(snap: Snapshot, rk: string, id: BindingID)
    ensures (rk, id) in BuildRoles(snap) <==>
              id in snap.bindings && Resolvable(snap, id) && rk != "" && rk == KeyOf(snap.bindings[id])
  {
  }

  lemma BuildRolesGrow(snap: Snapshot, next: Snapshot, id: BindingID, b: Binding, rules: Option<seq<Rule>>)
    requires OneMore(snap, next, id, b) && rules == RulesOf(snap, b)
    ensures BuildRoles(next) == BuildRoles(snap) + if rules.Some? && KeyOf(b) != "" then {(KeyOf(b), id)} else {}
  {
    forall x ensures RulesOf(next, x) == RulesOf(snap, x) { RulesKept(snap, next, x); }
    var more := if rules.Some? && KeyOf(b) != "" then {(KeyOf(b), id)} else {};
    forall rk, x ensures (rk, x) in BuildRoles(next) <==> (rk, x) in BuildRoles(snap) + more {
      InBuildRoles(snap, rk, x);
      InBuildRoles(next, rk, x);
    }
  }

  lemma BuildEntriesGrow(snap: Snapshot, next: Snapshot, id: BindingID, b: Binding, rules: Option<seq<Rule>>)
    requires OneMore(snap, next, id, b) && rules == RulesOf(snap, b)
    ensures BuildEntries(next) == if rules.Some? then BuildEntries(snap)[id := b.subjects] else BuildEntries(snap)
  {
    forall x ensures RulesOf(next, x) == RulesOf(snap, x) { RulesKept(snap, next, x); }
  }

  /** One more binding in the snapshot changes the build by enrolling it, or by noting it. */
  lemma BuildGrows(snap: Snapshot, next: Snapshot, navigated: set<GroupResource>, id: BindingID, b: Binding)
    requires OneMore(snap, next, id, b)
    ensures Build(next, navigated) ==
              match RulesOf(snap, b)
              case None => Build(snap, navigated).(unresolved := BuildUnresolved(snap) + {id})
              case Some(rules) => Enrolled(Build(snap, navigated), id, b.subjects, rules, KeyOf(b))
  {
    var rules := RulesOf(snap, b);
    BuildGVRGrows(snap, next, navigated, id, b, rules);
    BuildSetsGrow(snap, next, id, b, rules);
    BuildRolesGrow(snap, next, id, b, rules);
    BuildEntriesGrow(snap, next, id, b, rules);
  }

  lemma BuildOneMore(snap: Snapshot, done: set<BindingID>, navigated: set<GroupResource>, id: BindingID)
    requires id in snap.bindings && id !in done
    ensures Build(Only(snap, done + {id}), navigated) == BuiltMore(Build(Only(snap, done), navigated), snap, id)
    ensures id !in Build(Only(snap, done), navigated).entries
  {
    OnlyMore(snap, done, id);
    RulesKept(snap, Only(snap, done), snap.bindings[id]);
    BuildGrows(Only(snap, done), Only(snap, done + {id}), navigated, id, snap.bindings[id]);
  }
}
