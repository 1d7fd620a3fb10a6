/**
 Fanning a sharded plan out into operation groups (pkg/api/plan_handlers.go): for
 every target, one group per shard and table with that shard's own changes, and
 one task-less finalizer per namespace whose VSchema changes.
 */
module Fanout {
  import opened Wrappers
  import opened Text
  import opened Sorting

  datatype Change = Change(namespace: string, table: string, ddl: string, operation: string)

  datatype Shard = Shard(namespace: string, name: string, changes: seq<Change>)

  // The namespaces are those whose VSchema changes.
  datatype Plan = Plan(shards: seq<Shard>, vschemaNamespaces: set<string>)

  datatype Task = Task(shard: string, change: Change)

  datatype Group = Group(deployment: string, key: string, finalizer: bool, tasks: seq<Task>)

  const MAX_KEY := 255
  const FINALIZER_SEGMENT := "group_finalizer"

  function ShardKey(namespace: string, shard: string, table: string): string {
    namespace + ['/'] + shard + ['/'] + table
  }

  function FinalizerKey(namespace: string): string {
    namespace + ['/'] + FINALIZER_SEGMENT
  }

  function GroupKey(deployment: string, key: string): string {
    deployment + ['\0'] + key
  }

  predicate Acceptable(s: Shard, c: Change) {
    && Trim(c.table) != "" && Trim(c.ddl) != "" && Trim(c.operation) != ""
    && (c.namespace == "" || c.namespace == s.namespace)
    && NoSlash(s.namespace) && NoSlash(s.name) && NoSlash(c.table)
    && |ShardKey(s.namespace, s.name, c.table)| <= MAX_KEY
  }

  predicate AcceptableUpTo(s: Shard, n: nat)
    requires n <= |s.changes|
  {
    n == 0 || (AcceptableUpTo(s, n - 1) && Acceptable(s, s.changes[n - 1]))
  }

  predicate ShardAcceptable(s: Shard) {
    AcceptableUpTo(s, |s.changes|)
  }

  lemma {:induction false} AcceptableMeansEach(s: Shard, n: nat, i: nat)
    requires i < n <= |s.changes| && AcceptableUpTo(s, n)
    ensures Acceptable(s, s.changes[i])
  {
    if i == n - 1 {
    } else {
      AcceptableMeansEach(s, n - 1, i);
    }
  }

  lemma OneBadChangeIsEnough(s: Shard, i: nat)
    requires i < |s.changes| && !Acceptable(s, s.changes[i])
    ensures !ShardAcceptable(s)
  {
    if ShardAcceptable(s) {
      AcceptableMeansEach(s, |s.changes|, i);
    }
  }

  predicate Blank(s: string) {
    forall i :: 0 <= i < |s| ==> IsSpace(s[i])
  }

  lemma BlankIff(s: string)
    ensures Trim(s) == "" <==> Blank(s)
  {
    BlankLeft(s);
    BlankRight(TrimLeft(s));
  }

  lemma {:induction false} BlankLeft(s: string)
    ensures TrimLeft(s) == "" <==> Blank(s)
    ensures !Blank(s) ==> !Blank(TrimLeft(s))
  {
    if |s| == 0 || !IsSpace(s[0]) {
      // nothing is trimmed
    } else {
      BlankLeft(s[1..]);
      assert forall i :: 0 <= i < |s| ==> s[i] == if i == 0 then s[0] else s[1..][i - 1];
    }
  }

  lemma {:induction false} BlankRight(s: string)
    ensures TrimRight(s) == "" <==> Blank(s)
  {
    if |s| == 0 || !IsSpace(s[|s| - 1]) {
      // nothing is trimmed
    } else {
      BlankRight(s[..|s| - 1]);
    }
  }

  /** A shard is refused exactly if one of its changes has a blank table, DDL or
      operation, names another namespace, has a slash in one of its three names, or
      makes a key of more than 255 characters. */
  lemma RefusedIff(s: Shard)
    ensures !ShardAcceptable(s)
            <==> exists i :: 0 <= i < |s.changes| && RefusedChange(s, s.changes[i])
  {
    if exists i :: 0 <= i < |s.changes| && RefusedChange(s, s.changes[i]) {
      var i :| 0 <= i < |s.changes| && RefusedChange(s, s.changes[i]);
      ChangeRefusedIff(s, s.changes[i]);
      OneBadChangeIsEnough(s, i);
    } else {
      AllGood(s, |s.changes|);
    }
  }

  lemma {:induction false} AllGood(s: Shard, n: nat)
    requires n <= |s.changes| && forall i :: 0 <= i < |s.changes| ==> !RefusedChange(s, s.changes[i])
    ensures AcceptableUpTo(s, n)
  {
    if n == 0 {
    } else {
      AllGood(s, n - 1);
      ChangeRefusedIff(s, s.changes[n - 1]);
    }
  }

  predicate RefusedChange(s: Shard, c: Change) {
    || Blank(c.table) || Blank(c.ddl) || Blank(c.operation)
    || (c.namespace != "" && c.namespace != s.namespace)
    || '/' in s.namespace || '/' in s.name || '/' in c.table
    || |s.namespace| + |s.name| + |c.table| > 253
  }

  lemma ChangeRefusedIff(s: Shard, c: Change)
    ensures Acceptable(s, c) <==> !RefusedChange(s, c)
  {
    BlankIff(c.table);
    BlankIff(c.ddl);
    BlankIff(c.operation);
    assert NoSlash(s.namespace) <==> '/' !in s.namespace;
    assert NoSlash(s.name) <==> '/' !in s.name;
    assert NoSlash(c.table) <==> '/' !in c.table;
  }

  predicate FinalizerAcceptable(namespace: string) {
    NoSlash(namespace) && |FinalizerKey(namespace)| <= MAX_KEY
  }

  predicate NoNul(s: string) {
    forall i :: 0 <= i < |s| ==> s[i] != '\0'
  }

  // --- work, counted -------------------------------------------------------

  // One change on one shard of one deployment, under the operation it runs in.
  datatype Unit = Unit(deployment: string, key: string, task: Task)

  function UnitOf(deployment: string, s: Shard, c: Change): Unit {
    Unit(deployment, ShardKey(s.namespace, s.name, c.table), Task(s.name, c))
  }

  ghost function ShardUnits(deployment: string, s: Shard, n: nat): multiset<Unit>
    requires n <= |s.changes|
  {
    if n == 0 then multiset{} else ShardUnits(deployment, s, n - 1) + multiset{UnitOf(deployment, s, s.changes[n - 1])}
  }

  ghost function Units(deployment: string, shards: seq<Shard>): multiset<Unit> {
    if |shards| == 0 then multiset{}
    else
      var s := shards[|shards| - 1];
      Units(deployment, shards[..|shards| - 1]) + ShardUnits(deployment, s, |s.changes|)
  }

  // Targets times per-shard changes.
  ghost function AllUnits(deployments: seq<string>, shards: seq<Shard>): multiset<Unit> {
    if |deployments| == 0 then multiset{}
    else AllUnits(deployments[..|deployments| - 1], shards) + Units(deployments[|deployments| - 1], shards)
  }

  ghost function TaskUnits(g: Group, n: nat): multiset<Unit>
    requires n <= |g.tasks|
  {
    if n == 0 then multiset{} else TaskUnits(g, n - 1) + multiset{Unit(g.deployment, g.key, g.tasks[n - 1])}
  }

  ghost function Work(groups: seq<Group>): multiset<Unit> {
    if |groups| == 0 then multiset{}
    else
      var g := groups[|groups| - 1];
      Work(groups[..|groups| - 1]) + TaskUnits(g, |g.tasks|)
  }

  // The finalizers, by deployment and key, in order.
  ghost function Finalizers(groups: seq<Group>): seq<(string, string)> {
    if |groups| == 0 then []
    else
      var g := groups[|groups| - 1];
      Finalizers(groups[..|groups| - 1]) + if g.finalizer then [(g.deployment, g.key)] else []
  }

  ghost function FinalizersFor(deployment: string, namespaces: seq<string>): seq<(string, string)> {
    if |namespaces| == 0 then []
    else
      var init, last := namespaces[..|namespaces| - 1], namespaces[|namespaces| - 1];
      FinalizersFor(deployment, init) + [(deployment, FinalizerKey(last))]
  }

  ghost function AllFinalizers(deployments: seq<string>, namespaces: seq<string>): seq<(string, string)> {
    if |deployments| == 0 then []
    else
      var init, last := deployments[..|deployments| - 1], deployments[|deployments| - 1];
      AllFinalizers(init, namespaces) + FinalizersFor(last, namespaces)
  }

  // --- lemmas on the counts ------------------------------------------------

  lemma {:induction false} TaskUnitsOfPrefix(g: Group, h: Group, n: nat)
    requires n <= |g.tasks| && n <= |h.tasks| && g.deployment == h.deployment && g.key == h.key
    requires g.tasks[..n] == h.tasks[..n]
    ensures TaskUnits(g, n) == TaskUnits(h, n)
  {
    if n == 0 {
    } else {
      assert g.tasks[..n][..n - 1] == g.tasks[..n - 1] && h.tasks[..n][..n - 1] == h.tasks[..n - 1];
      assert g.tasks[..n][n - 1] == h.tasks[..n][n - 1];
      TaskUnitsOfPrefix(g, h, n - 1);
    }
  }

  function WithTask(g: Group, t: Task): Group {
    g.(tasks := g.tasks + [t])
  }

  lemma TaskUnitsGrow(g: Group, t: Task)
    ensures var h := WithTask(g, t);
            TaskUnits(h, |h.tasks|) == TaskUnits(g, |g.tasks|) + multiset{Unit(g.deployment, g.key, t)}
  {
    TaskUnitsOfPrefix(g, WithTask(g, t), |g.tasks|);
  }

  lemma AddInTheMiddle(a: multiset<Unit>, b: multiset<Unit>, c: multiset<Unit>)
    ensures (a + c) + b == (a + b) + c && a + (b + c) == (a + b) + c
  {
  }

  // Appending a task to one group adds one unit.
  lemma {:induction false} WorkGrows(groups: seq<Group>, k: nat, t: Task)
    requires k < |groups|
    ensures Work(groups[k := WithTask(groups[k], t)])
            == Work(groups) + multiset{Unit(groups[k].deployment, groups[k].key, t)}
  {
    var last := |groups| - 1;
    var init, g := groups[..last], groups[last];
    var units := TaskUnits(g, |g.tasks|);
    var one := multiset{Unit(groups[k].deployment, groups[k].key, t)};
    assert Work(groups) == Work(init) + units;
    AddInTheMiddle(Work(init), units, one);
    if k == last {
      LastChanged(groups, WithTask(g, t));
      TaskUnitsGrow(g, t);
    } else {
      MiddleChanged(groups, k, WithTask(groups[k], t));
      WorkGrows(init, k, t);
    }
  }

  lemma LastChanged(groups: seq<Group>, g: Group)
    requires |groups| > 0
    ensures var last := |groups| - 1;
            Work(groups[last := g]) == Work(groups[..last]) + TaskUnits(g, |g.tasks|)
  {
    var last := |groups| - 1;
    assert groups[last := g][..last] == groups[..last];
  }

  lemma MiddleChanged(groups: seq<Group>, k: nat, g: Group)
    requires k < |groups| - 1
    ensures var last := |groups| - 1;
            Work(groups[k := g]) == Work(groups[..last][k := g]) + TaskUnits(groups[last], |groups[last].tasks|)
  {
    var last := |groups| - 1;
    assert groups[k := g][..last] == groups[..last][k := g];
  }

  lemma {:induction false} FinalizersStay(groups: seq<Group>, k: nat, t: Task)
    requires k < |groups|
    ensures Finalizers(groups[k := WithTask(groups[k], t)]) == Finalizers(groups)
  {
    var last := |groups| - 1;
    var changed := groups[k := WithTask(groups[k], t)];
    if k == last {
      assert changed[..last] == groups[..last];
    } else {
      assert changed[..last] == groups[..last][k := WithTask(groups[k], t)];
      FinalizersStay(groups[..last], k, t);
    }
  }

  lemma WorkSnoc(groups: seq<Group>, g: Group)
    ensures Work(groups + [g]) == Work(groups) + TaskUnits(g, |g.tasks|)
    ensures Finalizers(groups + [g]) == Finalizers(groups) + if g.finalizer then [(g.deployment, g.key)] else []
  {
    assert (groups + [g])[..|groups|] == groups;
  }

  // --- keys ----------------------------------------------------------------

  function Slashes(s: string): nat {
    if |s| == 0 then 0 else Slashes(s[..|s| - 1]) + if s[|s| - 1] == '/' then 1 else 0
  }

  lemma {:induction false} SlashesAdd(a: string, b: string)
    ensures Slashes(a + b) == Slashes(a) + Slashes(b)
  {
    if |b| == 0 {
      assert a + b == a;
    } else {
      SlashesAdd(a, b[..|b| - 1]);
      assert (a + b)[..|a + b| - 1] == a + b[..|b| - 1];
    }
  }

  lemma {:induction false} NoSlashesIn(s: string)
    requires NoSlash(s)
    ensures Slashes(s) == 0
  {
    if |s| == 0 {
    } else {
      NoSlashesIn(s[..|s| - 1]);
    }
  }

  lemma OneSlash()
    ensures Slashes(['/']) == 1
  {
    assert ['/'][..0] == "";
  }

  // A shard key has two slashes and a finalizer key one, so they never meet.
  lemma KeyShapes(namespace: string, shard: string, table: string)
    requires NoSlash(namespace) && NoSlash(shard) && NoSlash(table)
    ensures Slashes(ShardKey(namespace, shard, table)) == 2 && Slashes(FinalizerKey(namespace)) == 1
  {
    NoSlashesIn(namespace);
    NoSlashesIn(shard);
    NoSlashesIn(table);
    NoSlashesIn(FINALIZER_SEGMENT);
    OneSlash();
    SlashesAdd(namespace + ['/'] + shard + ['/'], table);
    SlashesAdd(namespace + ['/'] + shard, ['/']);
    SlashesAdd(namespace + ['/'], shard);
    SlashesAdd(namespace, ['/']);
    SlashesAdd(namespace + ['/'], FINALIZER_SEGMENT);
  }

  lemma GroupKeyIsInjective(d: string, k: string, d': string, k': string)
    requires NoNul(d) && NoNul(d') && GroupKey(d, k) == GroupKey(d', k')
    ensures d == d' && k == k'
  {
    var key := GroupKey(d, k);
    assert key[|d|] == '\0' && key[|d'|] == '\0';
    assert forall i :: 0 <= i < |d| ==> key[i] == d[i];
    assert forall i :: 0 <= i < |d'| ==> key[i] == d'[i];
    assert |d| == |d'|;
    assert d == key[..|d|] && d' == key[..|d'|] && k == key[|d| + 1..] && k' == key[|d'| + 1..];
  }

  // The shard key determines its parts.
  lemma ShardKeyIsInjective(n: string, s: string, t: string, n': string, s': string, t': string)
    requires NoSlash(n) && NoSlash(s) && NoSlash(t) && NoSlash(n') && NoSlash(s') && NoSlash(t')
    requires ShardKey(n, s, t) == ShardKey(n', s', t')
    ensures n == n' && s == s' && t == t'
  {
    assert ShardKey(n, s, t) == n + ['/'] + (s + ['/'] + t);
    assert ShardKey(n', s', t') == n' + ['/'] + (s' + ['/'] + t');
    CutAtSlash(n, s + ['/'] + t, n', s' + ['/'] + t');
    CutAtSlash(s, t, s', t');
  }

  lemma CutAtSlash(a: string, b: string, a': string, b': string)
    requires NoSlash(a) && NoSlash(a') && a + ['/'] + b == a' + ['/'] + b'
    ensures a == a' && b == b'
  {
    var whole := a + ['/'] + b;
    assert whole[|a|] == '/' && whole[|a'|] == '/';
    assert forall i :: 0 <= i < |a| ==> whole[i] == a[i];
    assert forall i :: 0 <= i < |a'| ==> whole[i] == a'[i];
    assert |a| == |a'|;
    assert a == whole[..|a|] && a' == whole[..|a'|] && b == whole[|a| + 1..] && b' == whole[|a'| + 1..];
  }

  // --- building, on values -------------------------------------------------

  // The groups so far, and where each work group is.
  datatype Groups = Groups(list: seq<Group>, byKey: map<string, nat>)

  const EMPTY := Groups([], map[])

  predicate InRange(b: Groups) {
    forall k :: k in b.byKey ==> b.byKey[k] < |b.list|
  }

  function Put(b: Groups, deployment: string, key: string, task: Task): (b': Groups)
    requires InRange(b)
    ensures InRange(b')
  {
    var groupKey := GroupKey(deployment, key);
    if groupKey in b.byKey then
      var k := b.byKey[groupKey];
      Groups(b.list[k := WithTask(b.list[k], task)], b.byKey)
    else Groups(b.list + [Group(deployment, key, false, [task])], b.byKey[groupKey := |b.list|])
  }

  function PutChange(b: Groups, deployment: string, s: Shard, c: Change): (b': Groups)
    requires InRange(b)
    ensures InRange(b')
  {
    Put(b, deployment, ShardKey(s.namespace, s.name, c.table), Task(s.name, c))
  }

  function PutShard(b: Groups, deployment: string, s: Shard, n: nat): (b': Groups)
    requires InRange(b) && n <= |s.changes|
    ensures InRange(b')
  {
    if n == 0 then b
    else PutChange(PutShard(b, deployment, s, n - 1), deployment, s, s.changes[n - 1])
  }

  function PutShards(b: Groups, deployment: string, shards: seq<Shard>): (b': Groups)
    requires InRange(b)
    ensures InRange(b')
  {
    if |shards| == 0 then b
    else
      var s := shards[|shards| - 1];
      PutShard(PutShards(b, deployment, shards[..|shards| - 1]), deployment, s, |s.changes|)
  }

  function PutFinalizers(b: Groups, deployment: string, namespaces: seq<string>): (b': Groups)
    requires InRange(b)
    ensures InRange(b')
  {
    if |namespaces| == 0 then b
    else
      var before := PutFinalizers(b, deployment, namespaces[..|namespaces| - 1]);
      Groups(before.list + [Group(deployment, FinalizerKey(namespaces[|namespaces| - 1]), true, [])], before.byKey)
  }

  function PutTargets(deployments: seq<string>, shards: seq<Shard>, namespaces: seq<string>): (b': Groups)
    ensures InRange(b')
  {
    if |deployments| == 0 then EMPTY
    else
      var d := deployments[|deployments| - 1];
      var before := PutTargets(deployments[..|deployments| - 1], shards, namespaces);
      PutFinalizers(PutShards(before, d, shards), d, namespaces)
  }

  predicate AllAcceptable(shards: seq<Shard>) {
    |shards| == 0 || (AllAcceptable(shards[..|shards| - 1]) && ShardAcceptable(shards[|shards| - 1]))
  }

  lemma {:induction false} AllAcceptableMeansEach(shards: seq<Shard>)
    ensures AllAcceptable(shards) <==> forall s :: s in shards ==> ShardAcceptable(s)
  {
    if |shards| == 0 {
    } else {
      AllAcceptableMeansEach(shards[..|shards| - 1]);
      assert shards == shards[..|shards| - 1] + [shards[|shards| - 1]];
    }
  }

  predicate FinalizersAcceptable(namespaces: seq<string>) {
    forall i :: 0 <= i < |namespaces| ==> FinalizerAcceptable(namespaces[i])
  }

  // --- building, as it runs ------------------------------------------------

  class GroupBuilder {
    var groups: seq<Group>
    var byKey: map<string, nat>

    constructor ()
      ensures View() == EMPTY
    {
      groups, byKey := [], map[];
    }

    function View(): Groups
      reads this
    {
      Groups(groups, byKey)
    }

    method AddTask(deployment: string, key: string, task: Task)
      requires InRange(View())
      modifies this
      ensures View() == Put(old(View()), deployment, key, task)
    {
      var groupKey := GroupKey(deployment, key);
      if groupKey !in byKey {
        byKey := byKey[groupKey := |groups|];
        groups := groups + [Group(deployment, key, false, [task])];
      } else {
        var k := byKey[groupKey];
        groups := groups[k := WithTask(groups[k], task)];
      }
    }

    method AddShard(deployment: string, s: Shard) returns (ok: bool)
      requires InRange(View())
      modifies this
      ensures ok == ShardAcceptable(s)
      ensures ok ==> View() == PutShard(old(View()), deployment, s, |s.changes|)
    {
      for i := 0 to |s.changes|
        invariant AcceptableUpTo(s, i)
        invariant View() == PutShard(old(View()), deployment, s, i)
      {
        ok := AddChange(deployment, s, s.changes[i]);
        if !ok {
          OneBadChangeIsEnough(s, i);
          return;
        }
      }
      ok := true;
    }

    method AddChange(deployment: string, s: Shard, c: Change) returns (ok: bool)
      requires InRange(View())
      modifies this
      ensures ok == Acceptable(s, c)
      ensures ok ==> View() == PutChange(old(View()), deployment, s, c)
    {
      if !Acceptable(s, c) {
        return false;
      }
      AddTask(deployment, ShardKey(s.namespace, s.name, c.table), Task(s.name, c));
      ok := true;
    }

    method AddShards(deployment: string, shards: seq<Shard>) returns (ok: bool)
      requires InRange(View())
      modifies this
      ensures ok == AllAcceptable(shards)
      ensures ok ==> View() == PutShards(old(View()), deployment, shards)
    {
      for i := 0 to |shards|
        invariant AllAcceptable(shards[..i])
        invariant View() == PutShards(old(View()), deployment, shards[..i])
      {
        assert shards[..i + 1][..i] == shards[..i];
        ok := AddShard(deployment, shards[i]);
        if !ok {
          AllAcceptableMeansEach(shards);
          return;
        }
      }
      assert shards[..|shards|] == shards;
      ok := true;
    }

    method AddFinalizers(deployment: string, namespaces: seq<string>) returns (ok: bool)
      requires InRange(View())
      modifies this
      ensures ok == FinalizersAcceptable(namespaces)
      ensures ok ==> View() == PutFinalizers(old(View()), deployment, namespaces)
    {
      for i := 0 to |namespaces|
        invariant FinalizersAcceptable(namespaces[..i])
        invariant View() == PutFinalizers(old(View()), deployment, namespaces[..i])
      {
        assert namespaces[..i + 1][..i] == namespaces[..i];
        if !FinalizerAcceptable(namespaces[i]) {
          return false;
        }
        groups := groups + [Group(deployment, FinalizerKey(namespaces[i]), true, [])];
      }
      assert namespaces[..|namespaces|] == namespaces;
      ok := true;
    }
  }

  // --- what every step of the building keeps -------------------------------

  ghost predicate GroupOk(g: Group) {
    if g.finalizer then g.tasks == [] && Slashes(g.key) == 1 else |g.tasks| > 0 && Slashes(g.key) == 2
  }

  // Every work group is where the index says, and nothing else is.
  ghost predicate Indexed(b: Groups) {
    && InRange(b)
    && (forall k :: k in b.byKey ==>
          && !b.list[b.byKey[k]].finalizer
          && GroupKey(b.list[b.byKey[k]].deployment, b.list[b.byKey[k]].key) == k)
    && (forall i :: 0 <= i < |b.list| && !b.list[i].finalizer ==>
          && GroupKey(b.list[i].deployment, b.list[i].key) in b.byKey
          && b.byKey[GroupKey(b.list[i].deployment, b.list[i].key)] == i)
  }

  ghost predicate Wellformed(b: Groups) {
    Indexed(b) && forall i :: 0 <= i < |b.list| ==> GroupOk(b.list[i])
  }

  lemma IndexNew(b: Groups, g: Group)
    requires Wellformed(b) && GroupOk(g) && !g.finalizer && GroupKey(g.deployment, g.key) !in b.byKey
    ensures Wellformed(Groups(b.list + [g], b.byKey[GroupKey(g.deployment, g.key) := |b.list|]))
  {
  }

  lemma IndexChanged(b: Groups, k: nat, g: Group)
    requires Wellformed(b) && k < |b.list| && GroupOk(g)
    requires g.deployment == b.list[k].deployment && g.key == b.list[k].key && g.finalizer == b.list[k].finalizer
    ensures Wellformed(Groups(b.list[k := g], b.byKey))
  {
  }

  lemma IndexFinalizer(b: Groups, g: Group)
    requires Wellformed(b) && GroupOk(g) && g.finalizer
    ensures Wellformed(Groups(b.list + [g], b.byKey))
  {
  }

  // No two units of different deployments share a group key.
  ghost predicate KeysApart(units: multiset<Unit>) {
    forall u, v :: u in units && v in units && GroupKey(u.deployment, u.key) == GroupKey(v.deployment, v.key) ==>
      u.deployment == v.deployment
  }

  lemma {:induction false} GroupIsCounted(groups: seq<Group>, k: nat)
    requires k < |groups| && |groups[k].tasks| > 0
    ensures Unit(groups[k].deployment, groups[k].key, groups[k].tasks[|groups[k].tasks| - 1]) in Work(groups)
  {
    if k == |groups| - 1 {
    } else {
      GroupIsCounted(groups[..|groups| - 1], k);
    }
  }

  lemma SameDeploymentSameKey(deployment: string, key: string, key': string)
    requires GroupKey(deployment, key) == GroupKey(deployment, key')
    ensures key == key'
  {
    assert key == GroupKey(deployment, key)[|deployment| + 1..]
           && key' == GroupKey(deployment, key')[|deployment| + 1..];
  }

  lemma PutKeeps(b: Groups, deployment: string, key: string, task: Task)
    requires Wellformed(b) && Slashes(key) == 2
    ensures Wellformed(Put(b, deployment, key, task))
    ensures Finalizers(Put(b, deployment, key, task).list) == Finalizers(b.list)
    ensures KeysApart(Work(b.list) + multiset{Unit(deployment, key, task)}) ==>
              Work(Put(b, deployment, key, task).list) == Work(b.list) + multiset{Unit(deployment, key, task)}
  {
    var groupKey := GroupKey(deployment, key);
    if groupKey in b.byKey {
      var k := b.byKey[groupKey];
      assert GroupOk(b.list[k]);
      if KeysApart(Work(b.list) + multiset{Unit(deployment, key, task)}) {
        SameKeySameGroup(b.list, k, Unit(deployment, key, task));
      }
      WorkGrows(b.list, k, task);
      FinalizersStay(b.list, k, task);
      IndexChanged(b, k, WithTask(b.list[k], task));
    } else {
      var g := Group(deployment, key, false, [task]);
      WorkSnoc(b.list, g);
      OneTask(g);
      IndexNew(b, g);
    }
  }

  lemma ApartFrom(units: multiset<Unit>, v: Unit, u: Unit)
    requires v in units && KeysApart(units + multiset{u})
    requires GroupKey(u.deployment, u.key) == GroupKey(v.deployment, v.key)
    ensures u.deployment == v.deployment
  {
    assert v in units + multiset{u} && u in units + multiset{u};
  }

  lemma SameKeySameGroup(groups: seq<Group>, k: nat, u: Unit)
    requires k < |groups| && |groups[k].tasks| > 0 && KeysApart(Work(groups) + multiset{u})
    requires GroupKey(u.deployment, u.key) == GroupKey(groups[k].deployment, groups[k].key)
    ensures groups[k].deployment == u.deployment && groups[k].key == u.key
  {
    var g := groups[k];
    GroupIsCounted(groups, k);
    ApartFrom(Work(groups), Unit(g.deployment, g.key, g.tasks[|g.tasks| - 1]), u);
    SameDeploymentSameKey(u.deployment, u.key, g.key);
  }

  lemma OneTask(g: Group)
    requires |g.tasks| == 1
    ensures TaskUnits(g, 1) == multiset{Unit(g.deployment, g.key, g.tasks[0])}
  {
    assert TaskUnits(g, 1) == TaskUnits(g, 0) + multiset{Unit(g.deployment, g.key, g.tasks[0])};
  }

  // One conclusion for every stage: the finalizers grew by exactly `finalizers`
  // and, unless group keys meet, the work by exactly `units`.
  ghost predicate Grew(b: Groups, b': Groups, units: multiset<Unit>, finalizers: seq<(string, string)>) {
    && Wellformed(b')
    && (KeysApart(Work(b.list) + units) ==> Work(b'.list) == Work(b.list) + units)
    && Finalizers(b'.list) == Finalizers(b.list) + finalizers
  }

  lemma ApartBelow(units: multiset<Unit>, more: multiset<Unit>)
    requires units <= more && KeysApart(more)
    ensures KeysApart(units)
  {
    assert forall u :: u in units ==> u in more;
  }

  lemma GrewTwice(b: Groups, b': Groups, b'': Groups, u: multiset<Unit>, f: seq<(string, string)>, u': multiset<Unit>,
                  f': seq<(string, string)>)
    requires Grew(b, b', u, f) && Grew(b', b'', u', f')
    ensures Grew(b, b'', u + u', f + f')
  {
    AddInTheMiddle(Work(b.list), u, u');
    if KeysApart(Work(b.list) + (u + u')) {
      ApartBelow(Work(b.list) + u, Work(b.list) + (u + u'));
    }
    assert Finalizers(b.list) + f + f' == Finalizers(b.list) + (f + f');
  }

  lemma GrewWork(b: Groups, b': Groups, b'': Groups, u: multiset<Unit>, u': multiset<Unit>)
    requires Grew(b, b', u, []) && Grew(b', b'', u', [])
    ensures Grew(b, b'', u + u', [])
  {
    GrewTwice(b, b', b'', u, [], u', []);
    NothingAdded(Finalizers(b.list));
  }

  lemma GrewByNothing(b: Groups)
    requires Wellformed(b)
    ensures Grew(b, b, multiset{}, [])
  {
    NothingAdded(Finalizers(b.list));
  }

  lemma {:induction false} PutShardKeeps(b: Groups, deployment: string, s: Shard, n: nat)
    requires Wellformed(b) && n <= |s.changes| && HasShardKeys(s)
    ensures Grew(b, PutShard(b, deployment, s, n), ShardUnits(deployment, s, n), [])
  {
    if n == 0 {
      GrewByNothing(b);
    } else {
      PutShardKeeps(b, deployment, s, n - 1);
      var before, c := PutShard(b, deployment, s, n - 1), s.changes[n - 1];
      PutChangeKeeps(before, deployment, s, c);
      GrewWork(b, before, PutChange(before, deployment, s, c), ShardUnits(deployment, s, n - 1),
               multiset{UnitOf(deployment, s, c)});
    }
  }

  predicate HasShardKey(s: Shard, c: Change) {
    Slashes(ShardKey(s.namespace, s.name, c.table)) == 2
  }

  ghost predicate HasShardKeys(s: Shard) {
    forall i :: 0 <= i < |s.changes| ==> HasShardKey(s, s.changes[i])
  }

  lemma AcceptableHasShardKeys(s: Shard)
    requires ShardAcceptable(s)
    ensures HasShardKeys(s)
  {
    forall i | 0 <= i < |s.changes|
      ensures HasShardKey(s, s.changes[i])
    {
      AcceptableMeansEach(s, |s.changes|, i);
      KeyShapes(s.namespace, s.name, s.changes[i].table);
    }
  }

  lemma PutChangeKeeps(b: Groups, deployment: string, s: Shard, c: Change)
    requires Wellformed(b) && HasShardKey(s, c)
    ensures Grew(b, PutChange(b, deployment, s, c), multiset{UnitOf(deployment, s, c)}, [])
  {
    PutKeeps(b, deployment, ShardKey(s.namespace, s.name, c.table), Task(s.name, c));
    NothingAdded(Finalizers(b.list));
  }

  lemma NothingAdded<T>(s: seq<T>)
    ensures s + [] == s
  {
  }

  lemma {:induction false} PutShardsKeep(b: Groups, deployment: string, shards: seq<Shard>)
    requires Wellformed(b) && AllAcceptable(shards)
    ensures Grew(b, PutShards(b, deployment, shards), Units(deployment, shards), [])
  {
    if |shards| == 0 {
      GrewByNothing(b);
    } else {
      var init, s := shards[..|shards| - 1], shards[|shards| - 1];
      PutShardsKeep(b, deployment, init);
      var before := PutShards(b, deployment, init);
      assert ShardAcceptable(s);
      AcceptableHasShardKeys(s);
      PutShardKeeps(before, deployment, s, |s.changes|);
      GrewWork(b, before, PutShard(before, deployment, s, |s.changes|), Units(deployment, init),
               ShardUnits(deployment, s, |s.changes|));
    }
  }

  lemma {:induction false} PutFinalizersKeep(b: Groups, deployment: string, namespaces: seq<string>)
    requires Wellformed(b) && FinalizersAcceptable(namespaces)
    ensures Grew(b, PutFinalizers(b, deployment, namespaces), multiset{}, FinalizersFor(deployment, namespaces))
  {
    if |namespaces| == 0 {
      GrewByNothing(b);
    } else {
      var init, namespace := namespaces[..|namespaces| - 1], namespaces[|namespaces| - 1];
      PutFinalizersKeep(b, deployment, init);
      var before := PutFinalizers(b, deployment, init);
      var g := Group(deployment, FinalizerKey(namespace), true, []);
      assert FinalizerAcceptable(namespace);
      KeyShapes(namespace, "", "");
      WorkSnoc(before.list, g);
      IndexFinalizer(before, g);
      var after := Groups(before.list + [g], before.byKey);
      GrewTwice(b, before, after, multiset{}, FinalizersFor(deployment, init), multiset{},
                [(deployment, FinalizerKey(namespace))]);
    }
  }

  lemma {:induction false} PutTargetsKeep(deployments: seq<string>, shards: seq<Shard>, namespaces: seq<string>)
    requires AllAcceptable(shards) && FinalizersAcceptable(namespaces)
    ensures Grew(EMPTY, PutTargets(deployments, shards, namespaces), AllUnits(deployments, shards),
                 AllFinalizers(deployments, namespaces))
  {
    if |deployments| == 0 {
    } else {
      var init, d := deployments[..|deployments| - 1], deployments[|deployments| - 1];
      PutTargetsKeep(init, shards, namespaces);
      var before := PutTargets(init, shards, namespaces);
      PutShardsKeep(before, d, shards);
      var worked := PutShards(before, d, shards);
      PutFinalizersKeep(worked, d, namespaces);
      GrewTwice(EMPTY, before, worked, AllUnits(init, shards), AllFinalizers(init, namespaces), Units(d, shards), []);
      var sofar := AllFinalizers(init, namespaces);
      assert sofar + [] == sofar;
      GrewTwice(EMPTY, worked, PutFinalizers(worked, d, namespaces), AllUnits(deployments, shards), sofar, multiset{},
                FinalizersFor(d, namespaces));
    }
  }

  // --- grouping shards by namespace ----------------------------------------

  predicate Changing(s: Shard, namespace: string) {
    s.namespace == namespace && |s.changes| > 0
  }

  function ChangingIn(shards: seq<Shard>, namespace: string): seq<Shard> {
    if |shards| == 0 then []
    else
      var s := shards[|shards| - 1];
      ChangingIn(shards[..|shards| - 1], namespace) + if Changing(s, namespace) then [s] else []
  }

  function InsertByName(shards: seq<Shard>, s: Shard): seq<Shard> {
    if |shards| == 0 || AtMost(shards[|shards| - 1].name, s.name) then shards + [s]
    else InsertByName(shards[..|shards| - 1], s) + [shards[|shards| - 1]]
  }

  function ByName(shards: seq<Shard>): seq<Shard> {
    if |shards| == 0 then [] else InsertByName(ByName(shards[..|shards| - 1]), shards[|shards| - 1])
  }

  ghost predicate SortedByName(shards: seq<Shard>) {
    forall i, j :: 0 <= i < j < |shards| ==> AtMost(shards[i].name, shards[j].name)
  }

  lemma {:induction false} InsertSortsByName(shards: seq<Shard>, s: Shard)
    requires SortedByName(shards)
    ensures SortedByName(InsertByName(shards, s))
    ensures forall x :: x in InsertByName(shards, s) ==> x in shards || x == s
  {
    if |shards| == 0 {
    } else {
      var init, last := shards[..|shards| - 1], shards[|shards| - 1];
      assert shards == init + [last];
      AtMostIsTotal(last.name, s.name);
      if AtMost(last.name, s.name) {
        forall i | 0 <= i < |shards|
          ensures AtMost(shards[i].name, s.name)
        {
          if i < |shards| - 1 {
            AtMostIsTransitive(shards[i].name, last.name, s.name);
          }
        }
      } else {
        InsertSortsByName(init, s);
        var t := InsertByName(init, s);
        forall i | 0 <= i < |t|
          ensures AtMost(t[i].name, last.name)
        {
          assert t[i] in t;
        }
      }
    }
  }

  /** The shards of a namespace are walked in the order of their names. */
  lemma {:induction false} ByNameIsSorted(shards: seq<Shard>)
    ensures SortedByName(ByName(shards))
  {
    if |shards| == 0 {
    } else {
      ByNameIsSorted(shards[..|shards| - 1]);
      InsertSortsByName(ByName(shards[..|shards| - 1]), shards[|shards| - 1]);
    }
  }

  // The shards in the order the fan-out walks them.
  function Walk(shards: seq<Shard>, namespaces: seq<string>): seq<Shard> {
    if |namespaces| == 0 then []
    else Walk(shards, namespaces[..|namespaces| - 1]) + ByName(ChangingIn(shards, namespaces[|namespaces| - 1]))
  }

  method ChangingShardsByNamespace(shards: seq<Shard>) returns (m: map<string, seq<Shard>>)
    ensures forall ns :: ns in m <==> ChangingIn(shards, ns) != []
    ensures forall ns :: ns in m ==> m[ns] == ByName(ChangingIn(shards, ns))
  {
    var raw: map<string, seq<Shard>> := map[];
    for i := 0 to |shards|
      invariant forall ns :: ns in raw <==> ChangingIn(shards[..i], ns) != []
      invariant forall ns :: ns in raw ==> raw[ns] == ChangingIn(shards[..i], ns)
    {
      var s := shards[i];
      assert shards[..i + 1][..i] == shards[..i];
      if |s.changes| > 0 {
        var sofar := if s.namespace in raw then raw[s.namespace] else [];
        raw := raw[s.namespace := sofar + [s]];
      }
    }
    assert shards[..|shards|] == shards;
    m := map ns | ns in raw :: ByName(raw[ns]);
  }

  lemma {:induction false} UnitsAppend(d: string, a: seq<Shard>, b: seq<Shard>)
    ensures Units(d, a + b) == Units(d, a) + Units(d, b)
  {
    if |b| == 0 {
      assert a + b == a;
    } else {
      var init, s := b[..|b| - 1], b[|b| - 1];
      UnitsAppend(d, a, init);
      LastOfBoth(a, b);
      UnitsSnoc(d, a + init, s);
      UnitsSnoc(d, init, s);
      AddInTheMiddle(Units(d, a), Units(d, init), ShardUnits(d, s, |s.changes|));
    }
  }

  lemma LastOfBoth<T>(a: seq<T>, b: seq<T>)
    requires |b| > 0
    ensures (a + b[..|b| - 1]) + [b[|b| - 1]] == a + b && b[..|b| - 1] + [b[|b| - 1]] == b
  {
  }

  lemma UnitsSnoc(d: string, shards: seq<Shard>, s: Shard)
    ensures Units(d, shards + [s]) == Units(d, shards) + ShardUnits(d, s, |s.changes|)
  {
    assert (shards + [s])[..|shards|] == shards;
  }

  lemma {:induction false} InsertKeepsUnits(d: string, shards: seq<Shard>, s: Shard)
    ensures Units(d, InsertByName(shards, s)) == Units(d, shards) + ShardUnits(d, s, |s.changes|)
  {
    UnitsSnoc(d, shards, s);
    if |shards| > 0 && !AtMost(shards[|shards| - 1].name, s.name) {
      var init, last := shards[..|shards| - 1], shards[|shards| - 1];
      InsertKeepsUnits(d, init, s);
      UnitsSnoc(d, InsertByName(init, s), last);
    }
  }

  lemma {:induction false} ByNameKeepsUnits(d: string, shards: seq<Shard>)
    ensures Units(d, ByName(shards)) == Units(d, shards)
  {
    if |shards| == 0 {
    } else {
      ByNameKeepsUnits(d, shards[..|shards| - 1]);
      InsertKeepsUnits(d, ByName(shards[..|shards| - 1]), shards[|shards| - 1]);
    }
  }

  // The units of the namespaces listed.
  ghost function UnitsOver(d: string, shards: seq<Shard>, namespaces: seq<string>): multiset<Unit> {
    if |namespaces| == 0 then multiset{}
    else
      var init, last := namespaces[..|namespaces| - 1], namespaces[|namespaces| - 1];
      UnitsOver(d, shards, init) + Units(d, ChangingIn(shards, last))
  }

  lemma {:induction false} WalkUnits(d: string, shards: seq<Shard>, namespaces: seq<string>)
    ensures Units(d, Walk(shards, namespaces)) == UnitsOver(d, shards, namespaces)
  {
    if |namespaces| == 0 {
    } else {
      var init, ns := namespaces[..|namespaces| - 1], namespaces[|namespaces| - 1];
      WalkUnits(d, shards, init);
      UnitsAppend(d, Walk(shards, init), ByName(ChangingIn(shards, ns)));
      ByNameKeepsUnits(d, ChangingIn(shards, ns));
    }
  }

  // One more shard adds its units once, under its own namespace.
  lemma {:induction false} OneMoreShard(d: string, shards: seq<Shard>, s: Shard, namespaces: seq<string>)
    requires Distinct(namespaces)
    ensures UnitsOver(d, shards + [s], namespaces)
            == UnitsOver(d, shards, namespaces)
               + if |s.changes| > 0 && s.namespace in namespaces then ShardUnits(d, s, |s.changes|) else multiset{}
  {
    if |namespaces| == 0 {
    } else {
      var init, ns := namespaces[..|namespaces| - 1], namespaces[|namespaces| - 1];
      LastIsNew(init, ns, namespaces, s.namespace);
      OneMoreShard(d, shards, s, init);
      ChangingInNext(d, shards, s, ns);
      var over, here, more := UnitsOver(d, shards, init), Units(d, ChangingIn(shards, ns)),
                              ShardUnits(d, s, |s.changes|);
      AddInTheMiddle(over, here, more);
      assert UnitsOver(d, shards, namespaces) == over + here;
      assert UnitsOver(d, shards + [s], namespaces)
             == UnitsOver(d, shards + [s], init) + Units(d, ChangingIn(shards + [s], ns));
    }
  }

  lemma ChangingInNext(d: string, shards: seq<Shard>, s: Shard, ns: string)
    ensures Units(d, ChangingIn(shards + [s], ns))
            == Units(d, ChangingIn(shards, ns)) + if Changing(s, ns) then ShardUnits(d, s, |s.changes|) else multiset{}
  {
    assert (shards + [s])[..|shards|] == shards;
    if Changing(s, ns) {
      UnitsSnoc(d, ChangingIn(shards, ns), s);
    } else {
      assert ChangingIn(shards + [s], ns) == ChangingIn(shards, ns) + [];
      NothingAdded(ChangingIn(shards, ns));
    }
  }

  lemma LastIsNew(init: seq<string>, last: string, all: seq<string>, x: string)
    requires |all| > 0 && init == all[..|all| - 1] && last == all[|all| - 1] && Distinct(all)
    ensures Distinct(init) && last !in init && (x in all <==> x in init || x == last)
  {
    assert all == init + [last];
  }

  ghost predicate Covers(namespaces: seq<string>, shards: seq<Shard>) {
    forall i :: 0 <= i < |shards| && |shards[i].changes| > 0 ==> shards[i].namespace in namespaces
  }

  // Grouping by namespace and sorting loses and invents nothing.
  lemma {:induction false} GroupingConserves(d: string, shards: seq<Shard>, namespaces: seq<string>)
    requires Distinct(namespaces) && Covers(namespaces, shards)
    ensures UnitsOver(d, shards, namespaces) == Units(d, shards)
  {
    if |shards| == 0 {
      NothingOver(d, namespaces);
      assert shards == [];
    } else {
      var init, s := shards[..|shards| - 1], shards[|shards| - 1];
      assert Covers(namespaces, init);
      GroupingConserves(d, init, namespaces);
      OneMoreShard(d, init, s, namespaces);
      assert init + [s] == shards;
      assert |s.changes| == 0 ==> ShardUnits(d, s, |s.changes|) == multiset{};
    }
  }

  lemma {:induction false} NothingOver(d: string, namespaces: seq<string>)
    ensures UnitsOver(d, [], namespaces) == multiset{}
  {
    if |namespaces| == 0 {
    } else {
      NothingOver(d, namespaces[..|namespaces| - 1]);
    }
  }

  // --- unique keys ---------------------------------------------------------

  ghost predicate UniqueKeys(groups: seq<Group>) {
    forall i, j :: 0 <= i < j < |groups| ==>
      groups[i].deployment != groups[j].deployment || groups[i].key != groups[j].key
  }

  lemma {:induction false} FinalizerIsListed(groups: seq<Group>, i: nat)
    requires i < |groups| && groups[i].finalizer
    ensures (groups[i].deployment, groups[i].key) in Finalizers(groups)
  {
    if i == |groups| - 1 {
    } else {
      FinalizerIsListed(groups[..|groups| - 1], i);
    }
  }

  lemma {:induction false} DistinctFinalizersDiffer(groups: seq<Group>, i: nat, j: nat)
    requires i < j < |groups| && groups[i].finalizer && groups[j].finalizer && Distinct(Finalizers(groups))
    ensures groups[i].deployment != groups[j].deployment || groups[i].key != groups[j].key
  {
    var last := |groups| - 1;
    var init := groups[..last];
    DistinctPrefix(Finalizers(init), Finalizers(groups));
    if j < last {
      DistinctFinalizersDiffer(init, i, j);
    } else {
      FinalizerIsListed(init, i);
      var k :| 0 <= k < |Finalizers(init)| && Finalizers(init)[k] == (groups[i].deployment, groups[i].key);
      assert Finalizers(groups)[k] != Finalizers(groups)[|Finalizers(init)|];
    }
  }

  lemma DistinctPrefix<T>(a: seq<T>, b: seq<T>)
    requires Distinct(b) && a <= b
    ensures Distinct(a)
  {
    assert forall i :: 0 <= i < |a| ==> a[i] == b[i];
  }

  /** Every deployment and operation key names one group: two work groups differ
      by the index, two finalizers by their list, and the two kinds by shape. */
  lemma KeysAreUnique(b: Groups)
    requires Wellformed(b) && Distinct(Finalizers(b.list))
    ensures UniqueKeys(b.list)
  {
    forall i, j | 0 <= i < j < |b.list|
      ensures b.list[i].deployment != b.list[j].deployment || b.list[i].key != b.list[j].key
    {
      assert GroupOk(b.list[i]) && GroupOk(b.list[j]);
      if b.list[i].finalizer && b.list[j].finalizer {
        DistinctFinalizersDiffer(b.list, i, j);
      }
    }
  }

  lemma FinalizerKeyIsInjective(a: string, b: string)
    requires FinalizerKey(a) == FinalizerKey(b)
    ensures a == b
  {
    assert |a| == |b|;
    assert a == FinalizerKey(a)[..|a|] && b == FinalizerKey(b)[..|b|];
  }

  lemma {:induction false} FinalizersForAreTheirs(d: string, namespaces: seq<string>)
    ensures |FinalizersFor(d, namespaces)| == |namespaces|
    ensures forall i :: 0 <= i < |namespaces| ==> FinalizersFor(d, namespaces)[i] == (d, FinalizerKey(namespaces[i]))
  {
    if |namespaces| == 0 {
    } else {
      FinalizersForAreTheirs(d, namespaces[..|namespaces| - 1]);
    }
  }

  lemma {:induction false} AllFinalizersAreDistinct(deployments: seq<string>, namespaces: seq<string>)
    requires Distinct(deployments) && Distinct(namespaces)
    ensures Distinct(AllFinalizers(deployments, namespaces))
    ensures forall i :: 0 <= i < |AllFinalizers(deployments, namespaces)| ==>
              AllFinalizers(deployments, namespaces)[i].0 in deployments
  {
    if |deployments| == 0 {
    } else {
      var init, d := deployments[..|deployments| - 1], deployments[|deployments| - 1];
      LastIsNew(init, d, deployments, d);
      AllFinalizersAreDistinct(init, namespaces);
      FinalizersForAreTheirs(d, namespaces);
      var before, here := AllFinalizers(init, namespaces), FinalizersFor(d, namespaces);
      forall i, j | 0 <= i < j < |here|
        ensures here[i] != here[j]
      {
        if here[i] == here[j] {
          FinalizerKeyIsInjective(namespaces[i], namespaces[j]);
        }
      }
      DistinctAppend(before, here);
    }
  }

  lemma DistinctAppend<T>(a: seq<T>, b: seq<T>)
    requires Distinct(a) && Distinct(b) && forall i, j :: 0 <= i < |a| && 0 <= j < |b| ==> a[i] != b[j]
    ensures Distinct(a + b)
  {
  }

  // --- the order of the groups ---------------------------------------------

  // One target's groups after another's, each target's finalizers last.
  ghost predicate InTargetOrder(groups: seq<Group>) {
    && (forall i, k, j :: 0 <= i < k < j < |groups| && groups[i].deployment == groups[j].deployment ==>
          groups[k].deployment == groups[i].deployment)
    && (forall w, f :: 0 <= f < w < |groups| && groups[w].deployment == groups[f].deployment && groups[f].finalizer ==>
          groups[w].finalizer)
  }

  // What was there keeps its place; what is new is the deployment's.
  ghost predicate Extends(groups: seq<Group>, more: seq<Group>, d: string, finalizers: bool) {
    && |groups| <= |more|
    && (forall i :: 0 <= i < |groups| ==>
          more[i].deployment == groups[i].deployment && more[i].finalizer == groups[i].finalizer)
    && (forall i :: |groups| <= i < |more| ==> more[i].deployment == d && more[i].finalizer == finalizers)
  }

  lemma {:induction false} PutShardExtends(b: Groups, d: string, s: Shard, n: nat)
    requires InRange(b) && n <= |s.changes|
    ensures Extends(b.list, PutShard(b, d, s, n).list, d, false)
  {
    if n == 0 {
    } else {
      PutShardExtends(b, d, s, n - 1);
    }
  }

  lemma {:induction false} PutShardsExtend(b: Groups, d: string, shards: seq<Shard>)
    requires InRange(b)
    ensures Extends(b.list, PutShards(b, d, shards).list, d, false)
  {
    if |shards| == 0 {
    } else {
      var init, s := shards[..|shards| - 1], shards[|shards| - 1];
      PutShardsExtend(b, d, init);
      PutShardExtends(PutShards(b, d, init), d, s, |s.changes|);
    }
  }

  lemma {:induction false} PutFinalizersExtend(b: Groups, d: string, namespaces: seq<string>)
    requires InRange(b)
    ensures Extends(b.list, PutFinalizers(b, d, namespaces).list, d, true)
  {
    if |namespaces| == 0 {
    } else {
      PutFinalizersExtend(b, d, namespaces[..|namespaces| - 1]);
    }
  }

  lemma NextTargetInOrder(before: seq<Group>, worked: seq<Group>, all: seq<Group>, d: string)
    requires InTargetOrder(before) && forall i :: 0 <= i < |before| ==> before[i].deployment != d
    requires Extends(before, worked, d, false) && Extends(worked, all, d, true)
    ensures InTargetOrder(all)
  {
    assert forall i :: 0 <= i < |all| ==> (all[i].deployment == d <==> |before| <= i);
    assert forall i :: |before| <= i < |all| ==> (all[i].finalizer <==> |worked| <= i);
    assert forall i :: 0 <= i < |before| ==>
        all[i].deployment == before[i].deployment && all[i].finalizer == before[i].finalizer;
  }

  /** The groups come target by target, and a target's finalizers after its work. */
  lemma {:induction false} TargetsInOrder(deployments: seq<string>, shards: seq<Shard>, namespaces: seq<string>)
    requires Distinct(deployments)
    ensures var groups := PutTargets(deployments, shards, namespaces).list;
            InTargetOrder(groups) && forall i :: 0 <= i < |groups| ==> groups[i].deployment in deployments
  {
    if |deployments| == 0 {
    } else {
      var init, d := deployments[..|deployments| - 1], deployments[|deployments| - 1];
      LastIsNew(init, d, deployments, d);
      TargetsInOrder(init, shards, namespaces);
      var before := PutTargets(init, shards, namespaces);
      PutShardsExtend(before, d, shards);
      var worked := PutShards(before, d, shards);
      PutFinalizersExtend(worked, d, namespaces);
      NextTargetInOrder(before.list, worked.list, PutFinalizers(worked, d, namespaces).list, d);
      assert deployments == init + [d];
    }
  }

  // --- the whole fan-out ---------------------------------------------------

  // What a successful fan-out is.
  ghost predicate FannedOut(plan: Plan, deployments: seq<string>, finalizerNamespaces: seq<string>,
                            groups: seq<Group>) {
    && Work(groups) == AllUnits(deployments, plan.shards)
    && Finalizers(groups) == AllFinalizers(deployments, finalizerNamespaces)
    && (forall i :: 0 <= i < |groups| ==> GroupOk(groups[i]))
    && UniqueKeys(groups)
  }

  lemma {:induction false} AllUnitsOfWalk(deployments: seq<string>, shards: seq<Shard>, namespaces: seq<string>)
    requires Distinct(namespaces) && Covers(namespaces, shards)
    ensures AllUnits(deployments, Walk(shards, namespaces)) == AllUnits(deployments, shards)
  {
    if |deployments| == 0 {
    } else {
      var d := deployments[|deployments| - 1];
      AllUnitsOfWalk(deployments[..|deployments| - 1], shards, namespaces);
      WalkUnits(d, shards, namespaces);
      GroupingConserves(d, shards, namespaces);
    }
  }

  lemma {:induction false} WalkHoldsTheChanging(shards: seq<Shard>, namespaces: seq<string>, s: Shard)
    ensures s in Walk(shards, namespaces) <==> s in shards && |s.changes| > 0 && s.namespace in namespaces
  {
    if |namespaces| == 0 {
    } else {
      var init, ns := namespaces[..|namespaces| - 1], namespaces[|namespaces| - 1];
      WalkHoldsTheChanging(shards, init, s);
      ByNameHolds(ChangingIn(shards, ns), s);
      ChangingInHolds(shards, ns, s);
      assert namespaces == init + [ns];
    }
  }

  lemma {:induction false} ChangingInHolds(shards: seq<Shard>, ns: string, s: Shard)
    ensures s in ChangingIn(shards, ns) <==> s in shards && Changing(s, ns)
  {
    if |shards| == 0 {
    } else {
      ChangingInHolds(shards[..|shards| - 1], ns, s);
      assert shards == shards[..|shards| - 1] + [shards[|shards| - 1]];
    }
  }

  lemma {:induction false} ByNameHolds(shards: seq<Shard>, s: Shard)
    ensures s in ByName(shards) <==> s in shards
  {
    if |shards| == 0 {
    } else {
      ByNameHolds(shards[..|shards| - 1], s);
      InsertHolds(ByName(shards[..|shards| - 1]), shards[|shards| - 1], s);
      assert shards == shards[..|shards| - 1] + [shards[|shards| - 1]];
    }
  }

  lemma {:induction false} InsertHolds(shards: seq<Shard>, t: Shard, s: Shard)
    ensures s in InsertByName(shards, t) <==> s in shards || s == t
  {
    if |shards| > 0 && !AtMost(shards[|shards| - 1].name, t.name) {
      InsertHolds(shards[..|shards| - 1], t, s);
      assert shards == shards[..|shards| - 1] + [shards[|shards| - 1]];
    }
  }

  // A shard without changes is acceptable, so skipping it changes no verdict.
  lemma WalkIsAcceptable(shards: seq<Shard>, namespaces: seq<string>)
    requires Covers(namespaces, shards)
    ensures AllAcceptable(Walk(shards, namespaces)) <==> AllAcceptable(shards)
  {
    AllAcceptableMeansEach(shards);
    AllAcceptableMeansEach(Walk(shards, namespaces));
    forall s
      ensures s in Walk(shards, namespaces) <==> s in shards && |s.changes| > 0
    {
      WalkHoldsTheChanging(shards, namespaces, s);
    }
    assert forall s: Shard :: |s.changes| == 0 ==> ShardAcceptable(s);
  }

  lemma {:induction false} PutShardsAppend(b: Groups, d: string, x: seq<Shard>, y: seq<Shard>)
    requires InRange(b)
    ensures PutShards(b, d, x + y) == PutShards(PutShards(b, d, x), d, y)
  {
    if |y| == 0 {
      assert x + y == x;
    } else {
      PutShardsAppend(b, d, x, y[..|y| - 1]);
      assert (x + y)[..|x + y| - 1] == x + y[..|y| - 1];
    }
  }

  method AddTarget(builder: GroupBuilder, deployment: string, byNamespace: map<string, seq<Shard>>,
                   namespaces: seq<string>,
                   finalizerNamespaces: seq<string>, ghost shards: seq<Shard>) returns (ok: bool)
    requires InRange(builder.View())
    requires forall ns :: ns in namespaces ==> ns in byNamespace && byNamespace[ns] == ByName(ChangingIn(shards, ns))
    modifies builder
    ensures ok <==> AllAcceptable(Walk(shards, namespaces)) && FinalizersAcceptable(finalizerNamespaces)
    ensures var worked := PutShards(old(builder.View()), deployment, Walk(shards, namespaces));
            ok ==> builder.View() == PutFinalizers(worked, deployment, finalizerNamespaces)
  {
    for i := 0 to |namespaces|
      invariant InRange(builder.View())
      invariant AllAcceptable(Walk(shards, namespaces[..i]))
      invariant builder.View() == PutShards(old(builder.View()), deployment, Walk(shards, namespaces[..i]))
    {
      var ns := namespaces[i];
      assert ns in namespaces;
      assert namespaces[..i + 1][..i] == namespaces[..i];
      PutShardsAppend(old(builder.View()), deployment, Walk(shards, namespaces[..i]), byNamespace[ns]);
      AcceptableParts(Walk(shards, namespaces[..i]), byNamespace[ns]);
      ok := builder.AddShards(deployment, byNamespace[ns]);
      if !ok {
        WalkPrefix(shards, namespaces, i + 1);
        return;
      }
    }
    assert namespaces[..|namespaces|] == namespaces;
    ok := builder.AddFinalizers(deployment, finalizerNamespaces);
  }

  lemma AcceptableParts(a: seq<Shard>, b: seq<Shard>)
    ensures AllAcceptable(a + b) <==> AllAcceptable(a) && AllAcceptable(b)
  {
    AllAcceptableMeansEach(a);
    AllAcceptableMeansEach(b);
    AllAcceptableMeansEach(a + b);
  }

  lemma {:induction false} WalkPrefix(shards: seq<Shard>, namespaces: seq<string>, i: nat)
    requires i <= |namespaces|
    ensures AllAcceptable(Walk(shards, namespaces)) ==> AllAcceptable(Walk(shards, namespaces[..i]))
    decreases |namespaces|
  {
    if i == |namespaces| {
      assert namespaces[..i] == namespaces;
    } else {
      var init := namespaces[..|namespaces| - 1];
      WalkPrefix(shards, init, i);
      assert init[..i] == namespaces[..i];
      AcceptableParts(Walk(shards, init), ByName(ChangingIn(shards, namespaces[|namespaces| - 1])));
    }
  }

  method BuildShardedGroups(plan: Plan, deployments: seq<string>)
    returns (groups: Option<seq<Group>>, finalizerNamespaces: seq<string>)
    requires Distinct(deployments)
    ensures Lists(finalizerNamespaces, plan.vschemaNamespaces) && Sorted(finalizerNamespaces)
    ensures groups.Some?
            <==> deployments == [] || (AllAcceptable(plan.shards) && FinalizersAcceptable(finalizerNamespaces))
    ensures groups.Some? ==> InTargetOrder(groups.value)
    ensures groups.Some? ==>
              UniqueKeys(groups.value) && Finalizers(groups.value) == AllFinalizers(deployments, finalizerNamespaces)
    ensures groups.Some? ==>
              (FannedOut(plan, deployments, finalizerNamespaces, groups.value)
               <==> KeysApart(AllUnits(deployments, plan.shards)))
  {
    var byNamespace := ChangingShardsByNamespace(plan.shards);
    var namespaces := SortedKeys(byNamespace.Keys);
    finalizerNamespaces := SortedKeys(plan.vschemaNamespaces);
    assert Covers(namespaces, plan.shards) by {
      KeysCover(plan.shards, namespaces);
    }
    WalkIsAcceptable(plan.shards, namespaces);
    var builder := new GroupBuilder();
    ghost var walk := Walk(plan.shards, namespaces);
    for i := 0 to |deployments|
      invariant InRange(builder.View())
      invariant i > 0 ==> AllAcceptable(plan.shards) && FinalizersAcceptable(finalizerNamespaces)
      invariant builder.View() == PutTargets(deployments[..i], walk, finalizerNamespaces)
    {
      assert deployments[..i + 1][..i] == deployments[..i];
      var ok := AddTarget(builder, deployments[i], byNamespace, namespaces, finalizerNamespaces, plan.shards);
      if !ok {
        return None, finalizerNamespaces;
      }
    }
    assert deployments[..|deployments|] == deployments;
    groups := Some(builder.groups);
    TargetsInOrder(deployments, walk, finalizerNamespaces);
    BuiltIsFannedOut(plan, deployments, namespaces, finalizerNamespaces);
  }

  lemma KeysCover(shards: seq<Shard>, namespaces: seq<string>)
    requires forall ns :: ns in namespaces <==> ChangingIn(shards, ns) != []
    ensures Covers(namespaces, shards)
  {
    forall i | 0 <= i < |shards| && |shards[i].changes| > 0
      ensures shards[i].namespace in namespaces
    {
      ChangingInHolds(shards, shards[i].namespace, shards[i]);
    }
  }

  lemma BuiltIsFannedOut(plan: Plan, deployments: seq<string>, namespaces: seq<string>,
                         finalizerNamespaces: seq<string>)
    requires Distinct(deployments)
    requires Distinct(namespaces) && Covers(namespaces, plan.shards) && Distinct(finalizerNamespaces)
    requires deployments == [] || (AllAcceptable(plan.shards) && FinalizersAcceptable(finalizerNamespaces))
    ensures var groups := PutTargets(deployments, Walk(plan.shards, namespaces), finalizerNamespaces).list;
            && UniqueKeys(groups) && Finalizers(groups) == AllFinalizers(deployments, finalizerNamespaces)
            && (FannedOut(plan, deployments, finalizerNamespaces, groups)
                <==> KeysApart(AllUnits(deployments, plan.shards)))
  {
    if deployments != [] {
      var walk := Walk(plan.shards, namespaces);
      WalkIsAcceptable(plan.shards, namespaces);
      PutTargetsKeep(deployments, walk, finalizerNamespaces);
      AllUnitsOfWalk(deployments, plan.shards, namespaces);
      AllFinalizersAreDistinct(deployments, finalizerNamespaces);
      var b := PutTargets(deployments, walk, finalizerNamespaces);
      assert Finalizers(b.list) == AllFinalizers(deployments, finalizerNamespaces);
      KeysAreUnique(b);
      assert multiset{} + AllUnits(deployments, walk) == AllUnits(deployments, walk);
      if Work(b.list) == AllUnits(deployments, walk) {
        WorkIsApart(b);
      }
    }
  }

  // The index admits one group per group key, so grouped work is apart.
  lemma WorkIsApart(b: Groups)
    requires Wellformed(b)
    ensures KeysApart(Work(b.list))
  {
    forall u, v | u in Work(b.list) && v in Work(b.list)
        && GroupKey(u.deployment, u.key) == GroupKey(v.deployment, v.key)
      ensures u.deployment == v.deployment
    {
      var i := WorkIsInAGroup(b.list, u);
      var j := WorkIsInAGroup(b.list, v);
      assert GroupOk(b.list[i]) && GroupOk(b.list[j]);
    }
  }

  /** Two group keys meet exactly when one deployment's name continues the other's
      past a NUL and the operation key makes up for it. */
  lemma GroupKeysMeetIff(d: string, k: string, d': string, k': string)
    requires |d| <= |d'|
    ensures GroupKey(d, k) == GroupKey(d', k')
            <==> (d == d' && k == k') || exists u :: Continues(d, k, d', k', u)
  {
    if GroupKey(d, k) == GroupKey(d', k') {
      if |d| == |d'| {
        assert d == GroupKey(d, k)[..|d|] && d' == GroupKey(d', k')[..|d|];
        SameDeploymentSameKey(d, k, k');
      } else {
        ContinuesPastNul(d, k, d', k');
      }
    }
    if u :| Continues(d, k, d', k', u) {
      assert d + ['\0'] + (u + ['\0'] + k') == (d + ['\0'] + u) + ['\0'] + k';
    }
  }

  ghost predicate Continues(d: string, k: string, d': string, k': string, u: string) {
    d' == d + ['\0'] + u && k == u + ['\0'] + k'
  }

  lemma ContinuesPastNul(d: string, k: string, d': string, k': string)
    requires |d| < |d'| && GroupKey(d, k) == GroupKey(d', k')
    ensures Continues(d, k, d', k', d'[|d| + 1..])
  {
    var key, u := GroupKey(d, k), d'[|d| + 1..];
    assert key[..|d|] == d && key[..|d'|] == d' && key[|d|] == '\0';
    assert d' == d + ['\0'] + u;
    assert k == key[|d| + 1..] && key[|d| + 1..] == u + ['\0'] + k';
  }

  // Two shards whose namespaces differ by what the second deployment adds.
  function MeetingShards(u: string, n: string, shard: string, c: Change): seq<Shard> {
    [Shard(u + ['\0'] + n, shard, [c]), Shard(n, shard, [c])]
  }

  lemma NulNamesCanMeet(d: string, u: string, n: string, shard: string, c: Change)
    ensures !KeysApart(AllUnits([d, d + ['\0'] + u], MeetingShards(u, n, shard, c)))
  {
    var shards, d' := MeetingShards(u, n, shard, c), d + ['\0'] + u;
    var s, t := shards[0], shards[1];
    ShardIsCounted(d, shards, s);
    ShardIsCounted(d', shards, t);
    DeploymentIsCounted([d, d'], shards, d, UnitOf(d, s, c));
    DeploymentIsCounted([d, d'], shards, d', UnitOf(d', t, c));
    KeysMeet(d, u, n, shard, c.table);
  }

  lemma OneChangeAcceptable(s: Shard, c: Change)
    requires s.changes == [c] && Acceptable(s, c)
    ensures ShardAcceptable(s)
  {
    assert AcceptableUpTo(s, 0);
  }

  lemma MeetingShardsAreAcceptable(u: string, n: string, shard: string, c: Change)
    requires c.namespace == "" && Acceptable(Shard(u + ['\0'] + n, shard, [c]), c)
    ensures AllAcceptable(MeetingShards(u, n, shard, c))
  {
    var shards := MeetingShards(u, n, shard, c);
    var s, t := shards[0], shards[1];
    assert forall i :: 0 <= i < |n| ==> s.namespace[|u| + 1 + i] == n[i];
    assert |ShardKey(n, shard, c.table)| <= |ShardKey(s.namespace, shard, c.table)|;
    OneChangeAcceptable(s, c);
    OneChangeAcceptable(t, c);
    AllAcceptableMeansEach(shards);
  }

  /** So such names are misfiled: two distinct deployments and a plan the builder
      accepts, whose groups do not hold each deployment's own work. */
  lemma NulNamesAreMisfiled(d: string, u: string, n: string, shard: string, c: Change, namespaces: seq<string>)
    requires c.namespace == "" && Acceptable(Shard(u + ['\0'] + n, shard, [c]), c)
    requires Distinct(namespaces) && Covers(namespaces, MeetingShards(u, n, shard, c))
    ensures var plan, deployments := Plan(MeetingShards(u, n, shard, c), {}), [d, d + ['\0'] + u];
            && Distinct(deployments) && AllAcceptable(plan.shards)
            && !FannedOut(plan, deployments, [], PutTargets(deployments, Walk(plan.shards, namespaces), []).list)
  {
    var plan, deployments := Plan(MeetingShards(u, n, shard, c), {}), [d, d + ['\0'] + u];
    MeetingShardsAreAcceptable(u, n, shard, c);
    NulNamesCanMeet(d, u, n, shard, c);
    assert |deployments[0]| < |deployments[1]|;
    BuiltIsFannedOut(plan, deployments, namespaces, []);
  }

  lemma KeysMeet(d: string, u: string, n: string, shard: string, table: string)
    ensures GroupKey(d, ShardKey(u + ['\0'] + n, shard, table)) == GroupKey(d + ['\0'] + u, ShardKey(n, shard, table))
  {
  }

  /** Without a NUL in any deployment's name, nothing is lost or misplaced. */
  lemma NulFreeNamesAreApart(deployments: seq<string>, shards: seq<Shard>)
    requires forall i :: 0 <= i < |deployments| ==> NoNul(deployments[i])
    ensures KeysApart(AllUnits(deployments, shards))
  {
    var units := AllUnits(deployments, shards);
    forall u, v | u in units && v in units && GroupKey(u.deployment, u.key) == GroupKey(v.deployment, v.key)
      ensures u.deployment == v.deployment
    {
      UnitsAreOfDeployments(deployments, shards, u);
      UnitsAreOfDeployments(deployments, shards, v);
      GroupKeyIsInjective(u.deployment, u.key, v.deployment, v.key);
    }
  }

  lemma {:induction false} UnitsAreOfDeployments(deployments: seq<string>, shards: seq<Shard>, u: Unit)
    requires u in AllUnits(deployments, shards)
    ensures u.deployment in deployments
  {
    var init, d := deployments[..|deployments| - 1], deployments[|deployments| - 1];
    if u in AllUnits(init, shards) {
      UnitsAreOfDeployments(init, shards, u);
    } else {
      UnitsAreOfDeployment(d, shards, u);
    }
  }

  lemma {:induction false} UnitsAreOfDeployment(d: string, shards: seq<Shard>, u: Unit)
    requires u in Units(d, shards)
    ensures u.deployment == d
  {
    var init, s := shards[..|shards| - 1], shards[|shards| - 1];
    if u in Units(d, init) {
      UnitsAreOfDeployment(d, init, u);
    } else {
      UnitsAreOfShard(d, s, |s.changes|, u);
    }
  }

  lemma {:induction false} UnitsAreOfShard(d: string, s: Shard, n: nat, u: Unit)
    requires n <= |s.changes| && u in ShardUnits(d, s, n)
    ensures u.deployment == d
  {
    if u in ShardUnits(d, s, n - 1) {
      UnitsAreOfShard(d, s, n - 1, u);
    }
  }

  // --- every changing namespace is worked on -------------------------------

  // When a plan is fanned out at all: every table change has a table, DDL and a
  // changing shard in its namespace.
  predicate CanFanOut(plan: Plan, taskChanges: seq<Change>) {
    && |plan.shards| > 0 && |taskChanges| > 0
    && forall i :: 0 <= i < |taskChanges| ==>
         && taskChanges[i].ddl != "" && taskChanges[i].table != ""
         && ChangingIn(plan.shards, taskChanges[i].namespace) != []
  }

  /** A plan is not fanned out exactly if there is nothing to do, or some table change
      has no table, no DDL or no shard of its namespace that changes. */
  lemma FanOutIff(plan: Plan, taskChanges: seq<Change>)
    ensures CanFanOut(plan, taskChanges)
            <==> && plan.shards != [] && taskChanges != []
                 && forall c <- taskChanges ::
                      && c.ddl != "" && c.table != ""
                      && exists s <- plan.shards :: s.namespace == c.namespace && s.changes != []
  {
    forall i | 0 <= i < |taskChanges|
      ensures taskChanges[i] in taskChanges
      ensures ChangingIn(plan.shards, taskChanges[i].namespace) != []
              <==> exists s <- plan.shards :: s.namespace == taskChanges[i].namespace && s.changes != []
    {
      SomeShardChanges(plan.shards, taskChanges[i].namespace);
    }
  }

  lemma SomeShardChanges(shards: seq<Shard>, ns: string)
    ensures ChangingIn(shards, ns) != [] <==> exists s <- shards :: s.namespace == ns && s.changes != []
  {
    if ChangingIn(shards, ns) != [] {
      ChangingInHolds(shards, ns, ChangingIn(shards, ns)[0]);
    }
    if s :| s in shards && s.namespace == ns && s.changes != [] {
      ChangingInHolds(shards, ns, s);
    }
  }

  lemma {:induction false} ShardIsCounted(d: string, shards: seq<Shard>, s: Shard)
    requires s in shards && |s.changes| > 0
    ensures UnitOf(d, s, s.changes[|s.changes| - 1]) in Units(d, shards)
  {
    var init, last := shards[..|shards| - 1], shards[|shards| - 1];
    assert shards == init + [last];
    if s != last {
      ShardIsCounted(d, init, s);
    }
  }

  lemma {:induction false} DeploymentIsCounted(deployments: seq<string>, shards: seq<Shard>, d: string, u: Unit)
    requires d in deployments && u in Units(d, shards)
    ensures u in AllUnits(deployments, shards)
  {
    var init, last := deployments[..|deployments| - 1], deployments[|deployments| - 1];
    assert deployments == init + [last];
    if d != last {
      DeploymentIsCounted(init, shards, d, u);
    }
  }

  lemma {:induction false} WorkIsInAGroup(groups: seq<Group>, u: Unit) returns (i: nat)
    requires u in Work(groups)
    ensures i < |groups| && groups[i].deployment == u.deployment && groups[i].key == u.key && u.task in groups[i].tasks
  {
    var last := |groups| - 1;
    var g := groups[last];
    if u in Work(groups[..last]) {
      i := WorkIsInAGroup(groups[..last], u);
    } else {
      TaskIsInTheGroup(g, |g.tasks|, u);
      i := last;
    }
  }

  lemma {:induction false} TaskIsInTheGroup(g: Group, n: nat, u: Unit)
    requires n <= |g.tasks| && u in TaskUnits(g, n)
    ensures g.deployment == u.deployment && g.key == u.key && u.task in g.tasks
  {
    if u in TaskUnits(g, n - 1) {
      TaskIsInTheGroup(g, n - 1, u);
    }
  }

  lemma FirstChanging(shards: seq<Shard>, ns: string) returns (s: Shard)
    requires ChangingIn(shards, ns) != []
    ensures s in shards && Changing(s, ns)
  {
    s := ChangingIn(shards, ns)[0];
    assert s in ChangingIn(shards, ns);
    ChangingInHolds(shards, ns, s);
  }

  /** Every namespace with a table change gets a work group on every target. */
  lemma EveryNamespaceIsWorkedOn(plan: Plan, taskChanges: seq<Change>, deployments: seq<string>,
                                 finalizerNamespaces: seq<string>,
                                 groups: seq<Group>, c: Change, d: string) returns (i: nat, s: Shard, table: string)
    requires CanFanOut(plan, taskChanges) && c in taskChanges && d in deployments
    requires FannedOut(plan, deployments, finalizerNamespaces, groups)
    ensures i < |groups| && groups[i].deployment == d && !groups[i].finalizer
    ensures s in plan.shards && s.namespace == c.namespace && groups[i].key == ShardKey(c.namespace, s.name, table)
  {
    s := FirstChanging(plan.shards, c.namespace);
    var change := s.changes[|s.changes| - 1];
    table := change.table;
    var u := UnitOf(d, s, change);
    ShardIsCounted(d, plan.shards, s);
    DeploymentIsCounted(deployments, plan.shards, d, u);
    i := WorkIsInAGroup(groups, u);
    assert GroupOk(groups[i]);
  }
}
