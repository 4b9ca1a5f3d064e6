/** The reverse index from resources to the RBAC bindings that may read them: rules and role
    references, the incremental operations, and exactly when the index agrees with the
    definition after a run of binding and role events, with the published snapshot the
    operations resolve against lagging behind the objects themselves. */
module BindingsIndex {
  import opened ListInterest

  type BindingID = string

  datatype GroupResource = GroupResource(group: string, resource: string)

  datatype RoleRef = RoleRef(kind: string, name: string)

  datatype Rule = Rule(verbs: seq<string>, apiGroups: seq<string>, resources: seq<string>, resourceNames: seq<string>)

  datatype Subject = Subject(kind: string, name: string, namespace: string)

  /** A binding; a cluster role binding has the empty namespace. */
  datatype Binding = Binding(namespace: string, ref: RoleRef, subjects: seq<Subject>)

  /** Roles by name, and the bindings: what is current, or what was last published. */
  datatype Snapshot = Snapshot(
    clusterRoles: map<string, seq<Rule>>,
    roles: map<string, seq<Rule>>,  // keyed "<namespace>/<name>"
    bindings: map<BindingID, Binding>)

  // ---- rules ---------------------------------------------------------------------------

  const STAR := "*"

  predicate WildcardMatches(allowed: seq<string>, want: string) {
    exists a | a in allowed :: a == STAR || a == want
  }

  predicate ReadVerb(rule: Rule) {
    WildcardMatches(rule.verbs, "get") || WildcardMatches(rule.verbs, "list")
  }

  /** The rule lets an unnamed request get or list a resource. */
  predicate RuleGrants(rule: Rule, gr: GroupResource) {
    rule.resourceNames == [] && ReadVerb(rule)
    && WildcardMatches(rule.apiGroups, gr.group) && WildcardMatches(rule.resources, gr.resource)
  }

  predicate RuleIsWildcard(rule: Rule) {
    rule.resourceNames == [] && ReadVerb(rule) && STAR in rule.apiGroups && STAR in rule.resources
  }

  predicate GrantGetList(rules: seq<Rule>, gr: GroupResource) {
    exists rule | rule in rules :: RuleGrants(rule, gr)
  }

  predicate GrantWildcard(rules: seq<Rule>) {
    exists rule | rule in rules :: RuleIsWildcard(rule)
  }

  /** What the two grants are. A rule counts only when it is not limited to named objects, and
      then a verb, a group and a resource of it must each be the one asked for or the star. */
  lemma GrantMeaning(rules: seq<Rule>, gr: GroupResource)
    ensures GrantGetList(rules, gr) <==>
              exists rule, verb, group, resource |
                rule in rules && verb in rule.verbs && group in rule.apiGroups && resource in rule.resources ::
                rule.resourceNames == [] && verb in {"get", "list", "*"} && group in {gr.group, "*"} && resource in {gr.resource, "*"}
    ensures GrantWildcard(rules) <==>
              exists rule, verb | rule in rules && verb in rule.verbs ::
                rule.resourceNames == [] && verb in {"get", "list", "*"} && "*" in rule.apiGroups && "*" in rule.resources
  {
    forall rule | rule in rules
      ensures ReadVerb(rule) <==> exists verb | verb in rule.verbs :: verb in {"get", "list", "*"}
    {
    }
    if GrantGetList(rules, gr) {
      var rule :| rule in rules && RuleGrants(rule, gr);
      var verb :| verb in rule.verbs && verb in {"get", "list", "*"};
      var group :| group in rule.apiGroups && group in {gr.group, "*"};
      var resource :| resource in rule.resources && resource in {gr.resource, "*"};
    }
    if rule, verb, group, resource :|
      rule in rules && verb in rule.verbs && group in rule.apiGroups && resource in rule.resources
      && rule.resourceNames == [] && verb in {"get", "list", "*"} && group in {gr.group, "*"} && resource in {gr.resource, "*"}
    {
      assert RuleGrants(rule, gr);
    }
    if rule, verb :| rule in rules && verb in rule.verbs
                     && rule.resourceNames == [] && verb in {"get", "list", "*"} && "*" in rule.apiGroups && "*" in rule.resources
    {
      assert RuleIsWildcard(rule);
    }
  }

  /** A binding in the wildcard bucket belongs to the cohort of every resource. */
  lemma WildcardGrantsAll(rules: seq<Rule>, gr: GroupResource)
    requires GrantWildcard(rules)
    ensures GrantGetList(rules, gr)
  {
    var rule :| rule in rules && RuleIsWildcard(rule);
    assert RuleGrants(rule, gr) by {
      assert WildcardMatches(rule.apiGroups, gr.group) && WildcardMatches(rule.resources, gr.resource);
    }
  }

  // ---- role references -----------------------------------------------------------------

  /** The key a role reference is filed under; empty when it can refer to no role. */
  function RoleKey(ns: string, ref: RoleRef): string {
    if ref.kind == "ClusterRole" then "C/" + ref.name
    else if ref.kind == "Role" then "R/" + ns + "/" + ref.name
    else ""
  }

  /** The position of the first slash; the length when there is none. */
  function FirstSlash(s: string): (i: nat)
    ensures i <= |s| && '/' !in s[..i] && (i < |s| ==> s[i] == '/')
  {
    if s == [] || s[0] == '/' then 0 else
      var i := 1 + FirstSlash(s[1..]);
      assert s[..i] == [s[0]] + s[1..][..i - 1];
      i
  }

  function ParseRoleKey(rk: string): (string, RoleRef) {
    if |rk| > 2 && rk[..2] == "C/" then ("", RoleRef("ClusterRole", rk[2..]))
    else if |rk| > 2 && rk[..2] == "R/" && FirstSlash(rk[2..]) < |rk| - 2 then
      (rk[2..][..FirstSlash(rk[2..])], RoleRef("Role", rk[2..][FirstSlash(rk[2..]) + 1..]))
    else ("", RoleRef("", ""))
  }

  lemma FirstSlashUnique(a: string, b: string)
    requires '/' !in a
    ensures FirstSlash(a + "/" + b) == |a|
  {
    var s := a + "/" + b;
    var i := FirstSlash(s);
    assert s[|a|] == '/';
  }

  /** Parsing a role key gives the reference back; a cluster role loses the binding's
      namespace, which its resolution ignores. */
  lemma ParseInvertsKey(ns: string, ref: RoleRef)
    requires '/' !in ns && ref.name != ""
    ensures ref.kind == "ClusterRole" ==> ParseRoleKey(RoleKey(ns, ref)) == ("", ref)
    ensures ref.kind == "Role" ==> ParseRoleKey(RoleKey(ns, ref)) == (ns, ref)
  {
    var rk := RoleKey(ns, ref);
    if ref.kind == "ClusterRole" {
      assert rk[..2] == "C/" && rk[2..] == ref.name;
    } else if ref.kind == "Role" {
      FirstSlashUnique(ns, ref.name);
      assert rk[..2] == "R/" && rk[2..] == ns + "/" + ref.name;
      assert rk[2..][..|ns|] == ns && rk[2..][|ns| + 1..] == ref.name;
    }
  }

  /** The rules a role reference resolves to in a namespace. */
  function RulesFor(snap: Snapshot, ns: string, ref: RoleRef): Option<seq<Rule>> {
    if ref.kind == "ClusterRole" then
      if ref.name in snap.clusterRoles then Some(snap.clusterRoles[ref.name]) else None
    else if ref.kind == "Role" then
      if ns != "" && ns + "/" + ref.name in snap.roles then Some(snap.roles[ns + "/" + ref.name]) else None
    else None
  }

  function RulesOf(snap: Snapshot, b: Binding): Option<seq<Rule>> {
    RulesFor(snap, b.namespace, b.ref)
  }

  function KeyOf(b: Binding): string { RoleKey(b.namespace, b.ref) }

  lemma KeyResolves(snap: Snapshot, b: Binding)
    requires GoodBinding(b) && KeyOf(b) != ""
    ensures var (ns, ref) := ParseRoleKey(KeyOf(b)); RulesFor(snap, ns, ref) == RulesOf(snap, b)
  {
    ParseInvertsKey(b.namespace, b.ref);
  }

  // ---- the index -----------------------------------------------------------------------

  /** The index as a value: buckets as relations, so that an absent and an empty bucket are
      the same. */
  datatype Index = Index(
    byGVR: set<(GroupResource, BindingID)>,
    wildcard: set<BindingID>,
    byRole: set<(string, BindingID)>,
    entries: map<BindingID, seq<Subject>>,
    unresolved: set<BindingID>,  // skipped by the last build
    navigated: set<GroupResource>,
    built: bool)

  const EMPTY_INDEX := Index({}, {}, {}, map[], {}, {}, false)

  function GrantedPairs(navigated: set<GroupResource>, rules: seq<Rule>, id: BindingID): set<(GroupResource, BindingID)> {
    set gr | gr in navigated && GrantGetList(rules, gr) :: (gr, id)
  }

  function Filed(idx: Index, id: BindingID, subjects: seq<Subject>, rk: string): Index {
    idx.(entries := idx.entries[id := subjects], byRole := idx.byRole + if rk != "" then {(rk, id)} else {})
  }

  function Bucketed(idx: Index, id: BindingID, rules: seq<Rule>): Index {
    if GrantWildcard(rules) then idx.(wildcard := idx.wildcard + {id})
    else idx.(byGVR := idx.byGVR + GrantedPairs(idx.navigated, rules, id))
  }

  function Enrolled(idx: Index, id: BindingID, subjects: seq<Subject>, rules: seq<Rule>, rk: string): Index {
    Bucketed(Filed(idx, id, subjects, rk), id, rules)
  }

  function Unbucketed(idx: Index, id: BindingID): Index {
    idx.(wildcard := idx.wildcard - {id}, byGVR := set p | p in idx.byGVR && p.1 != id)
  }

  function Unrolled(idx: Index, id: BindingID, rk: string): Index {
    Unbucketed(idx, id).(byRole := idx.byRole - {(rk, id)}, entries := idx.entries - {id})
  }

  /** A binding whose role is not in the snapshot is filed, and bucketed when the role comes. */
  function Added(idx: Index, snap: Snapshot, id: BindingID, b: Binding): Index {
    match RulesOf(snap, b)
    case None => Filed(idx, id, b.subjects, KeyOf(b))
    case Some(rules) => Enrolled(idx, id, b.subjects, rules, KeyOf(b))
  }

  /** The ids a role event re-routes. */
  function Referencing(idx: Index, rk: string): set<BindingID> {
    set p | p in idx.byRole && p.0 == rk && p.1 in idx.entries :: p.1
  }

  /** Every binding of a role re-bucketed under the role's new rules. */
  function Rerouted(idx: Index, ids: set<BindingID>, rules: seq<Rule>): Index {
    idx.(wildcard := idx.wildcard - ids + if GrantWildcard(rules) then ids else {},
         byGVR := (set p | p in idx.byGVR && p.1 !in ids)
                  + if GrantWildcard(rules) then {}
                    else set gr, id | gr in idx.navigated && GrantGetList(rules, gr) && id in ids :: (gr, id))
  }

  /** The rules of the role an id is filed under. */
  ghost function EntryRules(byRole: set<(string, BindingID)>, snap: Snapshot, id: BindingID): Option<seq<Rule>> {
    if rk: string :| (rk, id) in byRole then
      var (ns, ref) := ParseRoleKey(rk);
      RulesFor(snap, ns, ref)
    else None
  }

  ghost predicate EntryGrants(byRole: set<(string, BindingID)>, snap: Snapshot, id: BindingID, gr: GroupResource) {
    var rules := EntryRules(byRole, snap, id);
    rules.Some? && GrantGetList(rules.value, gr)
  }

  /** What widening to a resource adds for some of the entries. */
  ghost function NavigatedPairs(idx: Index, snap: Snapshot, ids: set<BindingID>, gr: GroupResource): set<(GroupResource, BindingID)> {
    set id | id in ids && id !in idx.wildcard && EntryGrants(idx.byRole, snap, id, gr) :: (gr, id)
  }

  ghost function Navigated(idx: Index, snap: Snapshot, gr: GroupResource): Index {
    if gr in idx.navigated then idx
    else idx.(navigated := idx.navigated + {gr}, byGVR := idx.byGVR + NavigatedPairs(idx, snap, idx.entries.Keys, gr))
  }

  predicate Resolvable(snap: Snapshot, id: BindingID) {
    id in snap.bindings && RulesOf(snap, snap.bindings[id]).Some?
  }

  predicate InWildcard(rules: Option<seq<Rule>>) { rules.Some? && GrantWildcard(rules.value) }

  predicate InBucket(rules: Option<seq<Rule>>, gr: GroupResource) {
    rules.Some? && !GrantWildcard(rules.value) && GrantGetList(rules.value, gr)
  }

  function BuildGVR(snap: Snapshot, navigated: set<GroupResource>): set<(GroupResource, BindingID)> {
    set gr, id | gr in navigated && id in snap.bindings && InBucket(RulesOf(snap, snap.bindings[id]), gr) :: (gr, id)
  }

  function BuildWildcard(snap: Snapshot): set<BindingID> {
    set id | id in snap.bindings && InWildcard(RulesOf(snap, snap.bindings[id]))
  }

  function BuildRoles(snap: Snapshot): set<(string, BindingID)> {
    set id | id in snap.bindings && Resolvable(snap, id) && KeyOf(snap.bindings[id]) != "" :: (KeyOf(snap.bindings[id]), id)
  }

  function BuildEntries(snap: Snapshot): map<BindingID, seq<Subject>> {
    map id | id in snap.bindings && Resolvable(snap, id) :: snap.bindings[id].subjects
  }

  function BuildUnresolved(snap: Snapshot): set<BindingID> {
    set id | id in snap.bindings && !Resolvable(snap, id)
  }

  /** A build enrols every binding whose role resolves and notes the others. */
  function Build(snap: Snapshot, navigated: set<GroupResource>): Index {
    Index(BuildGVR(snap, navigated), BuildWildcard(snap), BuildRoles(snap), BuildEntries(snap), BuildUnresolved(snap), navigated, true)
  }

  // ---- runs ----------------------------------------------------------------------------

  datatype Op =
    | BuildIndex(navigated: set<GroupResource>)
    | BindingAdd(id: BindingID, b: Binding)
    | BindingUpdate(oldId: BindingID, id: BindingID, b: Binding)
    | BindingDelete(id: BindingID)
    | ClusterRoleRules(name: string, rules: seq<Rule>)
    | ClusterRoleGone(name: string)
    | RoleRules(ns: string, name: string, rules: seq<Rule>)
    | RoleGone(ns: string, name: string)
    | AddNavigated(gr: GroupResource)
    | Publish(published: Snapshot)  // a rebuild finishes, with what it saw

  /** Namespaces hold no slash and references name a role, as the API server enforces. */
  predicate GoodBinding(b: Binding) {
    '/' !in b.namespace && b.ref.name != ""
  }

  /** What the informers deliver: an id is added once or re-delivered unchanged, updates and
      deletes are of objects that exist. */
  predicate Delivered(snap: Snapshot, op: Op) {
    match op
    case BindingAdd(id, b) => GoodBinding(b) && (id in snap.bindings ==> snap.bindings[id] == b)
    case BindingUpdate(oldId, id, b) => GoodBinding(b) && oldId in snap.bindings && (id == oldId || id !in snap.bindings)
    case BindingDelete(id) => id in snap.bindings
    case RoleRules(ns, _, _) => ns != "" && '/' !in ns
    case ClusterRoleGone(name) => name in snap.clusterRoles
    case RoleGone(ns, name) => ns != "" && '/' !in ns && ns + "/" + name in snap.roles
    case _ => true
  }

  function SnapshotAfter(snap: Snapshot, op: Op): Snapshot {
    match op
    case BindingAdd(id, b) => snap.(bindings := snap.bindings[id := b])
    case BindingUpdate(oldId, id, b) => snap.(bindings := (snap.bindings - {oldId})[id := b])
    case BindingDelete(id) => snap.(bindings := snap.bindings - {id})
    case ClusterRoleRules(name, rules) => snap.(clusterRoles := snap.clusterRoles[name := rules])
    case ClusterRoleGone(name) => snap.(clusterRoles := snap.clusterRoles - {name})
    case RoleRules(ns, name, rules) => snap.(roles := snap.roles[ns + "/" + name := rules])
    case RoleGone(ns, name) => snap.(roles := snap.roles - {ns + "/" + name})
    case _ => snap
  }

  predicate RoleEvent(op: Op) { op.ClusterRoleRules? || op.RoleRules? || op.ClusterRoleGone? || op.RoleGone? }

  function RoleEventKey(op: Op): string
    requires RoleEvent(op)
  {
    if op.ClusterRoleRules? || op.ClusterRoleGone? then "C/" + op.name else "R/" + op.ns + "/" + op.name
  }

  /** The rules a role event carries: a deleted role comes with its last known ones. */
  function EventRules(snap: Snapshot, op: Op): seq<Rule>
    requires RoleEvent(op) && Delivered(snap, op)
  {
    match op
    case ClusterRoleGone(name) => snap.clusterRoles[name]
    case RoleGone(ns, name) => snap.roles[ns + "/" + name]
    case _ => op.rules
  }

  /** What the event leaves the role with. */
  function RulesLeft(op: Op): Option<seq<Rule>>
    requires RoleEvent(op)
  {
    if op.ClusterRoleRules? || op.RoleRules? then Some(op.rules) else None
  }

  /** The current objects, the snapshot published last, and the index. */
  datatype World = World(idx: Index, snap: Snapshot, pub: Snapshot)

  /** The index operation an event runs. Role events carry their rules, everything else
      resolves against the published snapshot. Before the first build the delta hooks do
      nothing. */
  ghost function IndexAfter(w: World, op: Op): Index
    requires Delivered(w.snap, op)
  {
    match op
    case BuildIndex(navigated) => Build(w.pub, navigated)
    case AddNavigated(gr) => Navigated(w.idx, w.pub, gr)
    case Publish(_) => w.idx
    case _ => if w.idx.built then Delta(w, op) else w.idx
  }

  /** The delta hooks. */
  function Delta(w: World, op: Op): Index
    requires Delivered(w.snap, op)
  {
    if op.BindingAdd? then Added(w.idx, w.pub, op.id, op.b)
    else if op.BindingUpdate? then Added(Unrolled(w.idx, op.oldId, KeyOf(w.snap.bindings[op.oldId])), w.pub, op.id, op.b)
    else if op.BindingDelete? then Unrolled(w.idx, op.id, KeyOf(w.snap.bindings[op.id]))
    else if RoleEvent(op) then Rerouted(w.idx, Referencing(w.idx, RoleEventKey(op)), EventRules(w.snap, op))
    else w.idx
  }

  ghost function Step(w: World, op: Op): World {
    if Delivered(w.snap, op) then
      World(IndexAfter(w, op), SnapshotAfter(w.snap, op), if op.Publish? then op.published else w.pub)
    else w
  }

  ghost function Run(start: Snapshot, ops: seq<Op>): World {
    if ops == [] then World(EMPTY_INDEX, start, start) else Step(Run(start, ops[..|ops| - 1]), ops[|ops| - 1])
  }

  lemma RunMore(start: Snapshot, ops: seq<Op>, op: Op)
    ensures Run(start, ops + [op]) == Step(Run(start, ops), op)
  {
    assert (ops + [op])[..|ops|] == ops;
  }

  // ---- agreement -----------------------------------------------------------------------

  predicate GoodSnapshot(snap: Snapshot) {
    forall id | id in snap.bindings :: GoodBinding(snap.bindings[id])
  }

  /** The rules a tracked binding is bucketed under; none while its role is missing. */
  function TrackedRules(idx: Index, snap: Snapshot, id: BindingID): Option<seq<Rule>> {
    if id in idx.entries && id in snap.bindings then RulesOf(snap, snap.bindings[id]) else None
  }

  /** The index is right about where a binding is filed. */
  ghost predicate FiledFor(idx: Index, snap: Snapshot, id: BindingID) {
    && (id in idx.entries ==> id in snap.bindings && idx.entries[id] == snap.bindings[id].subjects)
    && (id in snap.bindings && id !in idx.entries ==> id in idx.unresolved)
    && (forall rk :: (rk, id) in idx.byRole <==> id in idx.entries && rk == KeyOf(snap.bindings[id]) && rk != "")
  }

  /** The index has a binding in the buckets of some rules. */
  ghost predicate BucketedBy(idx: Index, id: BindingID, rules: Option<seq<Rule>>) {
    && (id in idx.wildcard <==> InWildcard(rules))
    && (forall gr :: (gr, id) in idx.byGVR <==> gr in idx.navigated && InBucket(rules, gr))
  }

  /** The index is right about one binding. */
  ghost predicate AccurateFor(idx: Index, snap: Snapshot, id: BindingID) {
    FiledFor(idx, snap, id) && BucketedBy(idx, id, TrackedRules(idx, snap, id))
  }

  predicate Unbuilt(idx: Index) {
    !idx.built && idx.entries == map[] && idx.byGVR == {} && idx.byRole == {} && idx.wildcard == {}
  }

  ghost predicate Accurate(w: World) {
    Unbuilt(w.idx) || (w.idx.built && forall id :: AccurateFor(w.idx, w.snap, id))
  }

  /** Two rule sets that put a binding in the same buckets. */
  predicate SameBuckets(a: Option<seq<Rule>>, b: Option<seq<Rule>>, navigated: set<GroupResource>) {
    && (InWildcard(a) <==> InWildcard(b))
    && (forall gr | gr in navigated :: InBucket(a, gr) <==> InBucket(b, gr))
  }

  /** One puts a binding in no bucket the other does not. */
  predicate NoMoreBuckets(a: Option<seq<Rule>>, b: Option<seq<Rule>>, navigated: set<GroupResource>) {
    && (InWildcard(a) ==> InWildcard(b))
    && (forall gr | gr in navigated :: InBucket(a, gr) ==> InBucket(b, gr))
  }

  predicate Grants(rules: Option<seq<Rule>>, gr: GroupResource) {
    rules.Some? && GrantGetList(rules.value, gr)
  }

  /** A build from a published snapshot comes out right about a binding. */
  predicate BuildAgrees(pub: Snapshot, snap: Snapshot, navigated: set<GroupResource>, id: BindingID) {
    && (id in snap.bindings ==> id in pub.bindings)
    && (Resolvable(pub, id) ==>
          && id in snap.bindings && KeyOf(pub.bindings[id]) == KeyOf(snap.bindings[id])
          && pub.bindings[id].subjects == snap.bindings[id].subjects
          && SameBuckets(RulesOf(pub, pub.bindings[id]), RulesOf(snap, snap.bindings[id]), navigated))
  }

  /** What the published snapshot says agrees with the current objects on what an operation
      resolves about a binding; a deleted role's last known rules must put its bindings in
      no bucket. */
  predicate AgreesFor(w: World, op: Op, id: BindingID)
    requires Delivered(w.snap, op)
  {
    match op
    case BuildIndex(navigated) => BuildAgrees(w.pub, w.snap, navigated, id)
    case BindingAdd(x, b) =>
      w.idx.built && id == x ==>
        if id in w.idx.entries then NoMoreBuckets(RulesOf(w.pub, b), RulesOf(w.snap, b), w.idx.navigated)
        else SameBuckets(RulesOf(w.pub, b), RulesOf(w.snap, b), w.idx.navigated)
    case BindingUpdate(_, x, b) =>
      w.idx.built && id == x ==> SameBuckets(RulesOf(w.pub, b), RulesOf(w.snap, b), w.idx.navigated)
    case AddNavigated(gr) =>
      gr !in w.idx.navigated && id in w.idx.entries && id !in w.idx.wildcard && id in w.snap.bindings ==>
        (Grants(RulesOf(w.pub, w.snap.bindings[id]), gr) <==> Grants(RulesOf(w.snap, w.snap.bindings[id]), gr))
    case ClusterRoleGone(_) => w.idx.built && id in Referencing(w.idx, RoleEventKey(op)) ==>
                                 SameBuckets(Some(EventRules(w.snap, op)), None, w.idx.navigated)
    case RoleGone(_, _) => w.idx.built && id in Referencing(w.idx, RoleEventKey(op)) ==>
                             SameBuckets(Some(EventRules(w.snap, op)), None, w.idx.navigated)
    case _ => true
  }

  ghost predicate Agrees(w: World, op: Op) {
    Delivered(w.snap, op) ==> forall id :: AgreesFor(w, op, id)
  }

  /** A binding enters the index by the published rules. */
  lemma AddedAccurate(idx: Index, snap: Snapshot, pub: Snapshot, x: BindingID, b: Binding)
    requires x in snap.bindings && snap.bindings[x] == b
    requires if x in idx.entries then AccurateFor(idx, snap, x)
             else (forall rk :: (rk, x) !in idx.byRole) && BucketedBy(idx, x, None)
    ensures AccurateFor(Added(idx, pub, x, b), snap, x) <==>
              if x in idx.entries then NoMoreBuckets(RulesOf(pub, b), RulesOf(snap, b), idx.navigated)
              else SameBuckets(RulesOf(pub, b), RulesOf(snap, b), idx.navigated)
  {
    var next := Added(idx, pub, x, b);
    var used, actual := RulesOf(pub, b), RulesOf(snap, b);
    assert FiledFor(next, snap, x);
    assert x in next.wildcard <==> x in idx.wildcard || InWildcard(used);
    forall gr ensures (gr, x) in next.byGVR <==> (gr, x) in idx.byGVR || (gr in idx.navigated && InBucket(used, gr)) {
    }
    assert TrackedRules(next, snap, x) == actual;
    if x !in idx.entries {
      AddedBuckets(idx, next, x, used, None, actual);
    } else {
      AddedBuckets(idx, next, x, used, actual, actual);
    }
  }

  /** Buckets only grow, by those of the rules used. */
  lemma AddedBuckets(idx: Index, next: Index, x: BindingID, used: Option<seq<Rule>>, was: Option<seq<Rule>>, actual: Option<seq<Rule>>)
    requires BucketedBy(idx, x, was) && (was == None || was == actual) && next.navigated == idx.navigated
    requires x in next.wildcard <==> x in idx.wildcard || InWildcard(used)
    requires forall gr :: (gr, x) in next.byGVR <==> (gr, x) in idx.byGVR || (gr in idx.navigated && InBucket(used, gr))
    ensures BucketedBy(next, x, actual) <==>
              if was == actual then NoMoreBuckets(used, actual, idx.navigated) else SameBuckets(used, actual, idx.navigated)
  {
    forall gr ensures (gr, x) in next.byGVR <==> gr in idx.navigated && (InBucket(was, gr) || InBucket(used, gr)) {
    }
    if BucketedBy(next, x, actual) {
      forall gr | gr in idx.navigated
        ensures InBucket(used, gr) ==> InBucket(actual, gr)
        ensures was == None ==> (InBucket(used, gr) <==> InBucket(actual, gr))
      {
        assert (gr, x) in next.byGVR <==> InBucket(actual, gr);
      }
    }
  }

  lemma AddedOther(idx: Index, snap: Snapshot, pub: Snapshot, x: BindingID, b: Binding, id: BindingID)
    requires id != x
    ensures AccurateFor(Added(idx, pub, x, b), snap, id) <==> AccurateFor(idx, snap, id)
  {
    var next := Added(idx, pub, x, b);
    assert forall rk :: (rk, id) in next.byRole <==> (rk, id) in idx.byRole;
    assert forall gr :: (gr, id) in next.byGVR <==> (gr, id) in idx.byGVR;
  }

  lemma UnrolledAccurate(idx: Index, snap: Snapshot, next: Snapshot, x: BindingID, id: BindingID)
    requires x in snap.bindings && AccurateFor(idx, snap, id)
    requires next == snap.(bindings := snap.bindings - {x})
    ensures AccurateFor(Unrolled(idx, x, KeyOf(snap.bindings[x])), next, id)
  {
  }

  lemma UpdatedAccurate(idx: Index, snap: Snapshot, pub: Snapshot, oldId: BindingID, x: BindingID, b: Binding, id: BindingID)
    requires oldId in snap.bindings && (x == oldId || x !in snap.bindings) && AccurateFor(idx, snap, id)
    ensures AccurateFor(Added(Unrolled(idx, oldId, KeyOf(snap.bindings[oldId])), pub, x, b),
                        snap.(bindings := (snap.bindings - {oldId})[x := b]), id)
            <==> (id == x ==> SameBuckets(RulesOf(pub, b), RulesOf(snap, b), idx.navigated))
  {
    var mid := snap.(bindings := snap.bindings - {oldId});
    var next := snap.(bindings := (snap.bindings - {oldId})[x := b]);
    UnrolledAccurate(idx, snap, mid, oldId, id);
    var idx1 := Unrolled(idx, oldId, KeyOf(snap.bindings[oldId]));
    if id != x {
      OtherBinding(idx1, mid, next, id);
      AddedOther(idx1, next, pub, x, b, id);
    } else {
      AddedAccurate(idx1, next, pub, x, b);
    }
  }

  lemma OtherBinding(idx: Index, snap: Snapshot, next: Snapshot, id: BindingID)
    requires AccurateFor(idx, snap, id)
    requires next.roles == snap.roles && next.clusterRoles == snap.clusterRoles
    requires id in next.bindings <==> id in snap.bindings
    requires id in snap.bindings ==> next.bindings[id] == snap.bindings[id]
    ensures AccurateFor(idx, next, id)
  {
  }

  /** A role event re-buckets exactly the bindings filed under the role, by its own rules. */
  lemma ReroutedAccurate(idx: Index, snap: Snapshot, next: Snapshot, rk: string, rules: seq<Rule>, left: Option<seq<Rule>>, id: BindingID)
    requires AccurateFor(idx, snap, id) && rk != "" && next.bindings == snap.bindings
    requires id in snap.bindings ==>
               RulesOf(next, snap.bindings[id]) == if KeyOf(snap.bindings[id]) == rk then left else RulesOf(snap, snap.bindings[id])
    ensures AccurateFor(Rerouted(idx, Referencing(idx, rk), rules), next, id) <==>
              (id in Referencing(idx, rk) ==> SameBuckets(Some(rules), left, idx.navigated))
  {
    var ids := Referencing(idx, rk);
    var idx1 := Rerouted(idx, ids, rules);
    assert id in ids <==> (rk, id) in idx.byRole && id in idx.entries;
    assert FiledFor(idx1, next, id);
    if id in ids {
      assert TrackedRules(idx1, next, id) == left;
      SameBucketsMeaning(idx1, id, Some(rules), left);
    }
  }

  lemma SameBucketsMeaning(idx: Index, id: BindingID, used: Option<seq<Rule>>, actual: Option<seq<Rule>>)
    requires BucketedBy(idx, id, used)
    ensures BucketedBy(idx, id, actual) <==> SameBuckets(used, actual, idx.navigated)
  {
    if BucketedBy(idx, id, actual) {
      forall gr | gr in idx.navigated ensures InBucket(used, gr) <==> InBucket(actual, gr) {
        assert (gr, id) in idx.byGVR <==> InBucket(used, gr);
      }
    }
  }

  /** Widening enrols exactly the known bindings whose published rules grant the resource. */
  lemma NavigatedAccurate(idx: Index, snap: Snapshot, pub: Snapshot, gr: GroupResource, id: BindingID)
    requires AccurateFor(idx, snap, id) && (id in snap.bindings ==> GoodBinding(snap.bindings[id])) && gr !in idx.navigated
    ensures AccurateFor(Navigated(idx, pub, gr), snap, id) <==>
              (id in idx.entries && id !in idx.wildcard ==>
                 (Grants(RulesOf(pub, snap.bindings[id]), gr) <==> Grants(RulesOf(snap, snap.bindings[id]), gr)))
  {
    var next := Navigated(idx, pub, gr);
    var rules := TrackedRules(idx, snap, id);
    assert FiledFor(next, snap, id) && TrackedRules(next, snap, id) == rules;
    if id in idx.entries { EntryRulesKnown(idx, snap, pub, id); }
    assert (gr, id) !in idx.byGVR;
    assert (gr, id) in next.byGVR <==>
           id in idx.entries && id !in idx.wildcard && Grants(RulesOf(pub, snap.bindings[id]), gr);
    assert forall g | g != gr :: (g, id) in next.byGVR <==> (g, id) in idx.byGVR;
  }

  lemma EntryRulesKnown(idx: Index, snap: Snapshot, pub: Snapshot, id: BindingID)
    requires FiledFor(idx, snap, id) && id in idx.entries && GoodBinding(snap.bindings[id])
    ensures EntryRules(idx.byRole, pub, id) == RulesOf(pub, snap.bindings[id])
  {
    var b := snap.bindings[id];
    if KeyOf(b) != "" {
      assert (KeyOf(b), id) in idx.byRole;
      KeyResolves(pub, b);
    }
  }

  lemma BuildAccurate(pub: Snapshot, snap: Snapshot, navigated: set<GroupResource>, id: BindingID)
    ensures AccurateFor(Build(pub, navigated), snap, id) <==> BuildAgrees(pub, snap, navigated, id)
  {
    var idx := Build(pub, navigated);
    assert id in idx.entries <==> Resolvable(pub, id);
    if Resolvable(pub, id) {
      var b := pub.bindings[id];
      assert KeyOf(b) != "" && (KeyOf(b), id) in idx.byRole;
      assert BucketedBy(idx, id, RulesOf(pub, b));
      if id in snap.bindings { SameBucketsMeaning(idx, id, RulesOf(pub, b), RulesOf(snap, snap.bindings[id])); }
    } else {
      assert forall rk :: (rk, id) !in idx.byRole;
    }
  }

  /** A role event changes the rules of exactly the bindings filed under its key. */
  lemma RoleEventRules(snap: Snapshot, op: Op, b: Binding)
    requires RoleEvent(op) && Delivered(snap, op) && GoodBinding(b)
    ensures RulesOf(SnapshotAfter(snap, op), b) == if KeyOf(b) == RoleEventKey(op) then RulesLeft(op) else RulesOf(snap, b)
  {
    var cluster := op.ClusterRoleRules? || op.ClusterRoleGone?;
    if b.ref.kind == "ClusterRole" {
      assert KeyOf(b)[0] == 'C' && KeyOf(b)[2..] == b.ref.name;
      if cluster { assert RoleEventKey(op)[2..] == op.name; } else { assert RoleEventKey(op)[0] == 'R'; }
    } else if b.ref.kind == "Role" {
      assert KeyOf(b)[0] == 'R' && KeyOf(b)[2..] == b.namespace + "/" + b.ref.name;
      if cluster { assert RoleEventKey(op)[0] == 'C'; } else { RoleKeyNames(op, b); }
    }
  }

  lemma RoleKeyNames(op: Op, b: Binding)
    requires (op.RoleRules? || op.RoleGone?) && op.ns != "" && '/' !in op.ns && b.ref.kind == "Role" && GoodBinding(b)
    ensures KeyOf(b) == RoleEventKey(op) ==> b.namespace != "" && b.namespace + "/" + b.ref.name == op.ns + "/" + op.name
    ensures b.namespace + "/" + b.ref.name == op.ns + "/" + op.name ==> KeyOf(b) == RoleEventKey(op)
  {
    var x, y := b.namespace + "/" + b.ref.name, op.ns + "/" + op.name;
    AfterPrefix("R/", x);
    AfterPrefix("R/", y);
    assert KeyOf(b) == "R/" + b.namespace + "/" + b.ref.name == "R/" + x;
    assert RoleEventKey(op) == "R/" + op.ns + "/" + op.name == "R/" + y;
    assert y[0] == op.ns[0] && op.ns[0] in op.ns;
  }

  lemma AfterPrefix(p: string, x: string)
    ensures (p + x)[|p|..] == x
  {
  }

  /** One step of a right index, about one binding. */
  lemma StepAccurateFor(w: World, op: Op, id: BindingID)
    requires Delivered(w.snap, op) && GoodSnapshot(w.snap)
    requires op.BuildIndex? || (w.idx.built && AccurateFor(w.idx, w.snap, id))
    requires op.BindingAdd? ==> w.idx.built && AccurateFor(w.idx, w.snap, op.id)
    ensures AccurateFor(Step(w, op).idx, Step(w, op).snap, id) <==> AgreesFor(w, op, id)
  {
    var idx, snap, pub, next := w.idx, w.snap, w.pub, SnapshotAfter(w.snap, op);
    match op
    case BuildIndex(navigated) => BuildAccurate(pub, snap, navigated, id);
    case AddNavigated(gr) => if gr !in idx.navigated { NavigatedAccurate(idx, snap, pub, gr, id); }
    case BindingAdd(x, b) => StepAdd(w, op, id);
    case BindingDelete(x) => UnrolledAccurate(idx, snap, next, x, id);
    case BindingUpdate(oldId, x, b) => UpdatedAccurate(idx, snap, pub, oldId, x, b, id);
    case Publish(_) =>
    case _ => StepRole(w, op, id);
  }

  lemma StepAdd(w: World, op: Op, id: BindingID)
    requires op.BindingAdd? && Delivered(w.snap, op) && w.idx.built && AccurateFor(w.idx, w.snap, id)
    ensures AccurateFor(Step(w, op).idx, Step(w, op).snap, id) <==> AgreesFor(w, op, id)
  {
    var next := SnapshotAfter(w.snap, op);
    if id != op.id {
      OtherBinding(w.idx, w.snap, next, id);
      AddedOther(w.idx, next, w.pub, op.id, op.b, id);
    } else {
      if id in w.idx.entries { OtherBinding(w.idx, w.snap, next, id); }
      AddedAccurate(w.idx, next, w.pub, op.id, op.b);
    }
  }

  lemma StepRole(w: World, op: Op, id: BindingID)
    requires RoleEvent(op) && Delivered(w.snap, op) && GoodSnapshot(w.snap) && w.idx.built && AccurateFor(w.idx, w.snap, id)
    ensures AccurateFor(Step(w, op).idx, Step(w, op).snap, id) <==> AgreesFor(w, op, id)
  {
    var next := SnapshotAfter(w.snap, op);
    if id in w.snap.bindings { RoleEventRules(w.snap, op, w.snap.bindings[id]); }
    ReroutedAccurate(w.idx, w.snap, next, RoleEventKey(op), EventRules(w.snap, op), RulesLeft(op), id);
  }

  /** Exactly when a step leaves a right index right. */
  lemma StepAccurate(w: World, op: Op)
    requires GoodSnapshot(w.snap) && (Accurate(w) || (op.BuildIndex? && Delivered(w.snap, op)))
    ensures Accurate(Step(w, op)) <==> Agrees(w, op)
  {
    if Delivered(w.snap, op) && (w.idx.built || op.BuildIndex?) {
      forall id ensures AccurateFor(Step(w, op).idx, Step(w, op).snap, id) <==> AgreesFor(w, op, id) {
        StepAccurateFor(w, op, id);
      }
    }
  }

  /** The index was right after every operation since the last build, that one included. */
  ghost predicate RightSinceBuild(start: Snapshot, ops: seq<Op>) {
    ops == [] ||
    (Accurate(Run(start, ops)) && (ops[|ops| - 1].BuildIndex? || RightSinceBuild(start, ops[..|ops| - 1])))
  }

  /** What each operation since the last build resolved was current. */
  ghost predicate AgreedSinceBuild(start: Snapshot, ops: seq<Op>) {
    ops == [] ||
    (Agrees(Run(start, ops[..|ops| - 1]), ops[|ops| - 1])
     && (ops[|ops| - 1].BuildIndex? || AgreedSinceBuild(start, ops[..|ops| - 1])))
  }

  lemma {:induction false} RunGood(start: Snapshot, ops: seq<Op>)
    requires GoodSnapshot(start)
    ensures GoodSnapshot(Run(start, ops).snap)
    decreases |ops|
  {
    if ops != [] { RunGood(start, ops[..|ops| - 1]); }
  }

  /** A run is right since its last build if and only if every operation since then resolved
      what was current, and then the index is right. */
  lemma {:induction false} RunAccurate(start: Snapshot, ops: seq<Op>)
    requires GoodSnapshot(start)
    ensures RightSinceBuild(start, ops) <==> AgreedSinceBuild(start, ops)
    ensures AgreedSinceBuild(start, ops) ==> Accurate(Run(start, ops))
    decreases |ops|
  {
    if ops != [] {
      var before, op := ops[..|ops| - 1], ops[|ops| - 1];
      RunAccurate(start, before);
      RunGood(start, before);
      if Accurate(Run(start, before)) || op.BuildIndex? { StepAccurate(Run(start, before), op); }
    }
  }

  /** A published snapshot that is current agrees on everything but a deleted role. */
  lemma CurrentAgrees(w: World, op: Op)
    requires w.pub == w.snap && !op.ClusterRoleGone? && !op.RoleGone?
    ensures Agrees(w, op)
  {
  }

  /** The bindings a resource's cohort is drawn from. */
  function Cohort(idx: Index, gr: GroupResource): set<BindingID> {
    (set p | p in idx.byGVR && p.0 == gr :: p.1) + idx.wildcard
  }

  /** The rules a binding has now: its cluster role's, or those of the role in its namespace. */
  predicate HasRule(snap: Snapshot, id: BindingID, rule: Rule) {
    id in snap.bindings &&
    var b := snap.bindings[id];
    || (b.ref.kind == "ClusterRole" && b.ref.name in snap.clusterRoles && rule in snap.clusterRoles[b.ref.name])
    || (b.ref.kind == "Role" && b.namespace != "" && b.namespace + "/" + b.ref.name in snap.roles
        && rule in snap.roles[b.namespace + "/" + b.ref.name])
  }

  /** The definition the cohort stands for, spelled out: one of the binding's rules lets an
      unnamed request get or list the resource. */
  ghost predicate CurrentlyGrants(snap: Snapshot, id: BindingID, gr: GroupResource) {
    exists rule, verb, group, resource |
      HasRule(snap, id, rule) && verb in rule.verbs && group in rule.apiGroups && resource in rule.resources ::
      rule.resourceNames == [] && verb in {"get", "list", "*"} && group in {gr.group, "*"} && resource in {gr.resource, "*"}
  }

  /** And the one the wildcard bucket stands for. */
  ghost predicate CurrentlyGrantsAll(snap: Snapshot, id: BindingID) {
    exists rule, verb | HasRule(snap, id, rule) && verb in rule.verbs ::
      rule.resourceNames == [] && verb in {"get", "list", "*"} && "*" in rule.apiGroups && "*" in rule.resources
  }

  lemma RulesHeld(snap: Snapshot, id: BindingID)
    ensures forall rule :: HasRule(snap, id, rule) <==> Resolvable(snap, id) && rule in RulesOf(snap, snap.bindings[id]).value
  {
  }

  lemma GrantsHeld(snap: Snapshot, id: BindingID, gr: GroupResource)
    ensures CurrentlyGrants(snap, id, gr) <==> Resolvable(snap, id) && GrantGetList(RulesOf(snap, snap.bindings[id]).value, gr)
    ensures CurrentlyGrantsAll(snap, id) <==> Resolvable(snap, id) && GrantWildcard(RulesOf(snap, snap.bindings[id]).value)
  {
    RulesHeld(snap, id);
    if Resolvable(snap, id) {
      var rules := RulesOf(snap, snap.bindings[id]).value;
      GrantMeaning(rules, gr);
    }
  }

  /** After every run of events whose operations since the last build resolved what was
      current, the cohort of a navigated resource holds only bindings whose current rules
      grant get or list, and misses none but those the last build could not resolve; those that
      grant everything are held by the wildcard bucket, and each entry has the subjects of its
      binding. */
  lemma CohortExact(start: Snapshot, ops: seq<Op>, gr: GroupResource, id: BindingID)
    requires GoodSnapshot(start) && AgreedSinceBuild(start, ops)
    requires Run(start, ops).idx.built && gr in Run(start, ops).idx.navigated
    ensures id in Cohort(Run(start, ops).idx, gr) ==> CurrentlyGrants(Run(start, ops).snap, id, gr)
    ensures CurrentlyGrants(Run(start, ops).snap, id, gr) ==>
              id in Cohort(Run(start, ops).idx, gr)
              || (id in Run(start, ops).idx.unresolved && id !in Run(start, ops).idx.entries)
    ensures id in Run(start, ops).idx.wildcard <==>
              id in Run(start, ops).idx.entries && CurrentlyGrantsAll(Run(start, ops).snap, id)
    ensures id in Run(start, ops).idx.entries ==>
              id in Run(start, ops).snap.bindings && Run(start, ops).idx.entries[id] == Run(start, ops).snap.bindings[id].subjects
  {
    var w := Run(start, ops);
    RunAccurate(start, ops);
    assert AccurateFor(w.idx, w.snap, id);
    GrantsHeld(w.snap, id, gr);
    if id in w.idx.wildcard { WildcardGrantsAll(TrackedRules(w.idx, w.snap, id).value, gr); }
    if CurrentlyGrants(w.snap, id, gr) && id in w.idx.entries && id !in w.idx.wildcard {
      assert (gr, id) in w.idx.byGVR;
    }
  }

  // ---- what the last build left --------------------------------------------------------

  /** The snapshot and the resources the index was last built from. */
  ghost function LastBuild(start: Snapshot, ops: seq<Op>): Option<(Snapshot, set<GroupResource>)> {
    if ops == [] then None
    else if ops[|ops| - 1].BuildIndex? then Some((Run(start, ops[..|ops| - 1]).pub, ops[|ops| - 1].navigated))
    else LastBuild(start, ops[..|ops| - 1])
  }

  /** The resources the navigated set was widened to since then. */
  ghost function WidenedSince(ops: seq<Op>): set<GroupResource> {
    if ops == [] || ops[|ops| - 1].BuildIndex? then {}
    else WidenedSince(ops[..|ops| - 1]) + if ops[|ops| - 1].AddNavigated? then {ops[|ops| - 1].gr} else {}
  }

  lemma StepKeepsBuild(w: World, op: Op)
    requires !op.BuildIndex?
    ensures Step(w, op).idx.unresolved == w.idx.unresolved && Step(w, op).idx.built == w.idx.built
    ensures Step(w, op).idx.navigated == w.idx.navigated + if op.AddNavigated? then {op.gr} else {}
  {
  }

  /** Over every run: the index is built once it was; a binding is unresolved exactly when the
      snapshot of the last build had it and its role in neither place; and navigated is what the
      last build asked for and what came since. */
  lemma {:induction false} LastBuildExactly(start: Snapshot, ops: seq<Op>, id: BindingID)
    ensures Run(start, ops).idx.built <==> LastBuild(start, ops).Some?
    ensures id in Run(start, ops).idx.unresolved <==>
              LastBuild(start, ops).Some? &&
              var snap := LastBuild(start, ops).value.0;
              id in snap.bindings &&
              var b := snap.bindings[id];
              && !(b.ref.kind == "ClusterRole" && b.ref.name in snap.clusterRoles)
              && !(b.ref.kind == "Role" && b.namespace != "" && b.namespace + "/" + b.ref.name in snap.roles)
    ensures Run(start, ops).idx.navigated ==
              (if LastBuild(start, ops).Some? then LastBuild(start, ops).value.1 else {}) + WidenedSince(ops)
    decreases |ops|
  {
    if ops != [] {
      var init, op := ops[..|ops| - 1], ops[|ops| - 1];
      LastBuildExactly(start, init, id);
      if !op.BuildIndex? { StepKeepsBuild(Run(start, init), op); }
    }
  }

  /** A role that goes comes with its last known rules, so a right index stays as it is: the
      bindings of the role keep their buckets until they themselves change. */
  lemma GoneRoleChangesNothing(w: World, op: Op)
    requires GoodSnapshot(w.snap) && w.idx.built && Accurate(w) && Delivered(w.snap, op)
    requires op.ClusterRoleGone? || op.RoleGone?
    ensures Step(w, op).idx == w.idx
  {
    var idx, ids, rules := w.idx, Referencing(w.idx, RoleEventKey(op)), EventRules(w.snap, op);
    forall id | id in ids ensures TrackedRules(idx, w.snap, id) == Some(rules) && BucketedBy(idx, id, Some(rules)) {
      assert AccurateFor(idx, w.snap, id);
      assert (RoleEventKey(op), id) in idx.byRole;
      GoneRoleRules(w.snap, op, w.snap.bindings[id]);
    }
    var next := Step(w, op).idx;
    forall id ensures id in next.wildcard <==> id in idx.wildcard {}
    forall gr, id ensures (gr, id) in next.byGVR <==> (gr, id) in idx.byGVR {
      if id in ids { assert (gr, id) in idx.byGVR <==> gr in idx.navigated && InBucket(Some(rules), gr); }
    }
    assert next.byGVR == idx.byGVR && next.wildcard == idx.wildcard;
  }

  lemma GoneRoleRules(snap: Snapshot, op: Op, b: Binding)
    requires (op.ClusterRoleGone? || op.RoleGone?) && Delivered(snap, op) && GoodBinding(b) && KeyOf(b) == RoleEventKey(op)
    ensures RulesOf(snap, b) == Some(EventRules(snap, op))
  {
    KeyKind(b);
    if op.ClusterRoleGone? {
      assert RoleEventKey(op)[0] == 'C' && RoleEventKey(op)[2..] == op.name;
      assert KeyOf(b)[2..] == b.ref.name;
    } else {
      assert RoleEventKey(op)[0] == 'R';
      RoleKeyNames(op, b);
    }
  }

  lemma KeyKind(b: Binding)
    ensures KeyOf(b) != "" ==> (b.ref.kind == "ClusterRole" <==> KeyOf(b)[0] == 'C') && (b.ref.kind == "Role" <==> KeyOf(b)[0] == 'R')
  {
  }

  /** A role is revoked and a binding to it added before the rebuild publishes: the cohort
      holds a binding that does not grant, and publishing does not take it out. */
  lemma StaleEnrolment(start: Snapshot, name: string, x: BindingID, b: Binding, gr: GroupResource, now: Snapshot)
    requires b == Binding("", RoleRef("ClusterRole", name), []) && name != ""
    requires name in start.clusterRoles && GrantGetList(start.clusterRoles[name], gr)
    requires x !in start.bindings
    ensures var w := Run(start, [BuildIndex({gr}), ClusterRoleRules(name, []), BindingAdd(x, b), Publish(now)]);
            x in Cohort(w.idx, gr) && !CurrentlyGrants(w.snap, x, gr)
  {
    var ops := [BuildIndex({gr}), ClusterRoleRules(name, []), BindingAdd(x, b)];
    StaleSteps(start, name, x, b, gr);
    RunMore(start, ops, Publish(now));
    assert ops + [Publish(now)] == [BuildIndex({gr}), ClusterRoleRules(name, []), BindingAdd(x, b), Publish(now)];
  }

  lemma StaleSteps(start: Snapshot, name: string, x: BindingID, b: Binding, gr: GroupResource)
    requires b == Binding("", RoleRef("ClusterRole", name), []) && name != ""
    requires name in start.clusterRoles && GrantGetList(start.clusterRoles[name], gr)
    requires x !in start.bindings
    ensures var w := Run(start, [BuildIndex({gr}), ClusterRoleRules(name, []), BindingAdd(x, b)]);
            x in Cohort(w.idx, gr) && !CurrentlyGrants(w.snap, x, gr)
  {
    var ops := [BuildIndex({gr}), ClusterRoleRules(name, []), BindingAdd(x, b)];
    RunMore(start, ops[..2], BindingAdd(x, b));
    RunMore(start, ops[..1], ClusterRoleRules(name, []));
    RunMore(start, [], BuildIndex({gr}));
    assert ops[..1] == [] + [BuildIndex({gr})] && ops[..2] == ops[..1] + [ClusterRoleRules(name, [])];
    assert ops == ops[..2] + [BindingAdd(x, b)];
    var w := Run(start, ops);
    assert GrantWildcard(start.clusterRoles[name]) || (gr, x) in w.idx.byGVR;
    GrantsHeld(w.snap, x, gr);
  }
}
