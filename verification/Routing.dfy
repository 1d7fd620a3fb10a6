/**
 From a validated server configuration to the client that serves a deployment
 (pkg/api/config.go, pkg/api/service.go).

 `Valid` is what Validate demands of the database, environment and deployment
 part of the configuration. It is shown to be enough for target resolution to
 succeed and for each target to reach the client it was configured for, and the
 lazily filled client cache is compared with an uncached lookup.
 */
module Routing {
  import opened Wrappers
  import opened Text
  import opened Sorting

  datatype Environment = Environment(
    dsn: string, hasDsnFrom: bool,
    target: string, deployment: string,
    deployments: Option<map<string, string>>, // target by deployment
    deploymentOrder: seq<string>,
    cutoverPolicy: string, onFailure: string)

  datatype Database = Database(kind: string, environments: map<string, Environment>)

  type Endpoints = map<string, string>

  datatype Config = Config(databases: map<string, Database>, ternDeployments: map<string, Endpoints>)

  predicate HasLocalDsn(e: Environment) {
    e.dsn != "" || e.hasDsnFrom
  }

  // The address of a deployment in an environment; "" when there is none.
  function AddressOf(c: Config, deployment: string, environment: string): string {
    if deployment in c.ternDeployments && environment in c.ternDeployments[deployment]
    then c.ternDeployments[deployment][environment] else ""
  }

  // --- what Validate accepts -----------------------------------------------

  predicate IsCutoverPolicy(s: string) {
    s == "rolling" || s == "barrier" || s == "parallel"
  }

  predicate IsFailurePolicy(s: string) {
    s == "halt" || s == "continue" || s == "pause"
  }

  predicate IsKind(s: string) {
    s == "mysql" || s == "vitess" || s == "strata" || s == "postgres"
  }

  predicate ValidPolicies(e: Environment) {
    && (|e.deploymentOrder| > 0 ==> e.deployments.Some?)
    && (e.cutoverPolicy != "" ==> e.deployments.Some? && IsCutoverPolicy(e.cutoverPolicy))
    && (e.onFailure != "" ==> e.deployments.Some? && IsFailurePolicy(e.onFailure))
  }

  predicate ValidDeployment(c: Config, environment: string, deployment: string, target: string) {
    deployment != "" && target != "" && AddressOf(c, deployment, environment) != ""
  }

  predicate ValidDeployments(c: Config, environment: string, deployments: map<string, string>) {
    forall d :: d in deployments ==> ValidDeployment(c, environment, d, deployments[d])
  }

  ghost predicate ValidRouting(c: Config, environment: string, e: Environment) {
    if HasLocalDsn(e) then e.target == "" && e.deployment == "" && e.deployments.None? && !(e.dsn != "" && e.hasDsnFrom)
    else if e.deployments.Some? then
      && e.target == "" && e.deployment == "" && |e.deployments.value| > 0
      && (|e.deploymentOrder| > 0 ==> Lists(e.deploymentOrder, e.deployments.value.Keys))
      && ValidDeployments(c, environment, e.deployments.value)
    else ValidDeployment(c, environment, e.deployment, e.target)
  }

  ghost predicate ValidDatabase(c: Config, db: Database) {
    && IsKind(db.kind) && |db.environments| > 0
    && forall env :: env in db.environments ==>
         ValidPolicies(db.environments[env]) && ValidRouting(c, env, db.environments[env])
  }

  // A local database and a remote deployment may not share a name where both
  // have a route.
  predicate Collides(c: Config, name: string) {
    name in c.databases
    && exists env ::
         && env in c.databases[name].environments
         && HasLocalDsn(c.databases[name].environments[env]) && AddressOf(c, name, env) != ""
  }

  ghost predicate Valid(c: Config) {
    && (forall name :: name in c.databases ==> ValidDatabase(c, c.databases[name]))
    && (forall name :: name in c.databases ==> !Collides(c, name))
  }

  // --- Validate as it runs -------------------------------------------------

  method ValidateDeploymentOrder(deployments: map<string, string>, order: seq<string>) returns (ok: bool)
    ensures ok <==> "" !in deployments && Lists(order, deployments.Keys)
  {
    if "" in deployments {
      return false;
    }
    var seen: set<string> := {};
    for i := 0 to |order|
      invariant Distinct(order[..i]) && forall k :: k in seen <==> k in order[..i]
      invariant seen <= deployments.Keys
    {
      var d := order[i];
      assert order[..i + 1] == order[..i] + [d];
      if d == "" || d in seen || d !in deployments {
        NotListed(order, i, deployments.Keys);
        return false;
      }
      seen := seen + {d};
    }
    assert order[..|order|] == order;
    ok := forall k :: k in deployments ==> k in seen;
  }

  lemma NotListed(order: seq<string>, i: nat, keys: set<string>)
    requires i < |order| && (order[i] in order[..i] || order[i] !in keys)
    ensures !Lists(order, keys)
  {
    if order[i] in order[..i] {
      var j :| 0 <= j < i && order[..i][j] == order[i];
      assert order[j] == order[i];
    } else {
      assert order[i] in order;
    }
  }

  method ValidateEnvironment(c: Config, environment: string, e: Environment) returns (ok: bool)
    ensures ok <==> ValidPolicies(e) && ValidRouting(c, environment, e)
  {
    var hasDsn := HasLocalDsn(e);
    var hasScalar := e.target != "" || e.deployment != "";
    var hasMap := e.deployments.Some?;
    if !ValidPolicies(e) {
      return false;
    }
    if hasDsn && (hasScalar || hasMap) {
      return false;
    }
    if hasScalar && hasMap {
      return false;
    }
    if hasDsn {
      return !(e.dsn != "" && e.hasDsnFrom);
    }
    if !hasMap {
      return hasScalar && e.target != "" && e.deployment != "" && AddressOf(c, e.deployment, environment) != "";
    }
    if |e.deployments.value| == 0 {
      return false;
    }
    if |e.deploymentOrder| > 0 {
      var ordered := ValidateDeploymentOrder(e.deployments.value, e.deploymentOrder);
      if !ordered {
        ok := false;
        if "" in e.deployments.value {
          assert !ValidDeployment(c, environment, "", e.deployments.value[""]);
        }
        return;
      }
    }
    ok := ValidateDeployments(c, environment, e.deployments.value);
  }

  method ValidateDeployments(c: Config, environment: string, deployments: map<string, string>) returns (ok: bool)
    ensures ok <==> ValidDeployments(c, environment, deployments)
  {
    var rest := deployments.Keys;
    while rest != {}
      invariant rest <= deployments.Keys
      invariant forall d :: d in deployments && d !in rest ==> ValidDeployment(c, environment, d, deployments[d])
      decreases |rest|
    {
      var d :| d in rest;
      rest := rest - {d};
      if !ValidDeployment(c, environment, d, deployments[d]) {
        return false;
      }
    }
    ok := true;
  }

  method ValidateDatabase(c: Config, db: Database) returns (ok: bool)
    ensures ok <==> ValidDatabase(c, db)
  {
    if !IsKind(db.kind) || |db.environments| == 0 {
      return false;
    }
    var rest := db.environments.Keys;
    while rest != {}
      invariant rest <= db.environments.Keys
      invariant forall env :: env in db.environments && env !in rest ==>
                  ValidPolicies(db.environments[env]) && ValidRouting(c, env, db.environments[env])
      decreases |rest|
    {
      var env :| env in rest;
      rest := rest - {env};
      var valid := ValidateEnvironment(c, env, db.environments[env]);
      if !valid {
        return false;
      }
    }
    ok := true;
  }

  method Validate(c: Config) returns (ok: bool)
    ensures ok <==> Valid(c)
  {
    var rest := c.databases.Keys;
    while rest != {}
      invariant rest <= c.databases.Keys
      invariant forall name :: name in c.databases && name !in rest ==> ValidDatabase(c, c.databases[name])
      decreases |rest|
    {
      var name :| name in rest;
      rest := rest - {name};
      var valid := ValidateDatabase(c, c.databases[name]);
      if !valid {
        return false;
      }
    }
    ok := ValidateNoRouteCollision(c);
  }

  method ValidateNoRouteCollision(c: Config) returns (ok: bool)
    ensures ok <==> forall name :: name in c.databases ==> !Collides(c, name)
  {
    var rest := c.databases.Keys;
    while rest != {}
      invariant rest <= c.databases.Keys
      invariant forall name :: name in c.databases && name !in rest ==> !Collides(c, name)
      decreases |rest|
    {
      var name :| name in rest;
      rest := rest - {name};
      var envs := if name in c.ternDeployments then c.databases[name].environments.Keys else {};
      while envs != {}
        invariant envs <= c.databases[name].environments.Keys
        invariant forall env :: env in c.databases[name].environments && env !in envs ==>
                    !(HasLocalDsn(c.databases[name].environments[env]) && AddressOf(c, name, env) != "")
        decreases |envs|
      {
        var env :| env in envs;
        envs := envs - {env};
        if HasLocalDsn(c.databases[name].environments[env]) && AddressOf(c, name, env) != "" {
          assert Collides(c, name);
          return false;
        }
      }
    }
    ok := true;
  }

  // --- targets -------------------------------------------------------------

  datatype Target = Target(kind: string, deployment: string, target: string)

  datatype RoutingError = UnknownDatabase | UnknownEnvironment | BadDeployments | MissingTarget | MissingDeployment

  method OrderedKeys(deployments: map<string, string>,
                     order: seq<string>) returns (r: Result<seq<string>, RoutingError>)
    ensures r.Ok? <==> "" !in deployments && (|order| > 0 ==> Lists(order, deployments.Keys))
    ensures r.Ok? ==> Lists(r.value, deployments.Keys)
    ensures r.Ok? && |order| > 0 ==> r.value == order
    ensures r.Ok? && |order| == 0 ==> Sorted(r.value)
  {
    if "" in deployments {
      return Err(BadDeployments);
    }
    if |order| == 0 {
      var keys := SortedKeys(deployments.Keys);
      return Ok(keys);
    }
    var ok := ValidateDeploymentOrder(deployments, order);
    if !ok {
      return Err(BadDeployments);
    }
    r := Ok(order);
  }

  // The targets of an environment, in rollout order.
  ghost predicate Rollout(c: Config, database: string, environment: string, targets: seq<Target>)
    requires database in c.databases && environment in c.databases[database].environments
  {
    var db := c.databases[database];
    var e := db.environments[environment];
    if HasLocalDsn(e) then targets == [Target(db.kind, database, database)]
    else if e.deployments.Some? then
      var names := seq(|targets|, i requires 0 <= i < |targets| => targets[i].deployment);
      && Lists(names, e.deployments.value.Keys)
      && (if |e.deploymentOrder| > 0 then names == e.deploymentOrder else Sorted(names))
      && forall i :: 0 <= i < |targets| ==>
           targets[i].kind == db.kind && targets[i].deployment in e.deployments.value
           && targets[i].target == e.deployments.value[targets[i].deployment]
    else targets == [Target(db.kind, e.deployment, e.target)]
  }

  method ResolveDatabaseTargets(c: Config, database: string,
                                environment: string) returns (r: Result<seq<Target>, RoutingError>)
    ensures r.Ok? ==> database in c.databases && environment in c.databases[database].environments
    ensures r.Ok? ==> Rollout(c, database, environment, r.value)
    ensures Valid(c) && database in c.databases && environment in c.databases[database].environments ==>
              r.Ok? && |r.value| > 0
  {
    if database !in c.databases {
      return Err(UnknownDatabase);
    }
    var db := c.databases[database];
    if environment !in db.environments {
      return Err(UnknownEnvironment);
    }
    var e := db.environments[environment];
    if HasLocalDsn(e) {
      return Ok([Target(db.kind, database, database)]);
    }
    if e.deployments.Some? {
      r := ResolveDeployments(db.kind, e.deployments.value, e.deploymentOrder);
      return;
    }
    if e.target == "" {
      return Err(MissingTarget);
    }
    if e.deployment == "" {
      return Err(MissingDeployment);
    }
    r := Ok([Target(db.kind, e.deployment, e.target)]);
  }

  method ResolveDeployments(kind: string, deployments: map<string, string>,
                            order: seq<string>) returns (r: Result<seq<Target>, RoutingError>)
    ensures r.Ok? <==> |deployments| > 0 && "" !in deployments && (|order| > 0 ==> Lists(order, deployments.Keys))
                       && forall d :: d in deployments ==> deployments[d] != ""
    ensures r.Ok? ==>
              var names := seq(|r.value|, i requires 0 <= i < |r.value| => r.value[i].deployment);
              && |r.value| > 0
              && Lists(names, deployments.Keys) && (if |order| > 0 then names == order else Sorted(names))
              && forall i :: 0 <= i < |r.value| ==>
                   && r.value[i].kind == kind && r.value[i].deployment in deployments
                   && r.value[i].target == deployments[r.value[i].deployment]
  {
    if |deployments| == 0 {
      return Err(BadDeployments);
    }
    var keys := OrderedKeys(deployments, order);
    if keys.Err? {
      return Err(keys.error);
    }
    var out: seq<Target> := [];
    for i := 0 to |keys.value|
      invariant |out| == i
      invariant forall j :: 0 <= j < i ==> out[j] == Target(kind, keys.value[j], deployments[keys.value[j]])
      invariant forall j :: 0 <= j < i ==> deployments[keys.value[j]] != ""
    {
      var d := keys.value[i];
      assert d in keys.value;
      if deployments[d] == "" {
        return Err(MissingTarget);
      }
      out := out + [Target(kind, d, deployments[d])];
    }
    r := Ok(out);
    ghost var names := seq(|out|, i requires 0 <= i < |out| => out[i].deployment);
    assert names == keys.value;
    ghost var d :| d in deployments.Keys;
    assert d in keys.value;
  }

  // --- selecting a client --------------------------------------------------

  const DEFAULT_DEPLOYMENT := "default"

  datatype EndpointError = NotConfigured | EmptyEndpoint

  function Endpoint(c: Config, deployment: string, environment: string): Result<string, EndpointError> {
    var d := if deployment == "" then DEFAULT_DEPLOYMENT else deployment;
    if d !in c.ternDeployments || environment !in c.ternDeployments[d] then Err(NotConfigured)
    else if c.ternDeployments[d][environment] == "" then Err(EmptyEndpoint)
    else Ok(c.ternDeployments[d][environment])
  }

  // What serves a deployment: the local engine of a database, a remote address,
  // the shared default client, or nothing.
  datatype Client =
    | LocalClient(database: string, environment: string)
    | RemoteClient(address: string)
    | DefaultClient
    | NoClient

  predicate IsLocal(c: Config, name: string, environment: string) {
    && name in c.databases && environment in c.databases[name].environments
    && HasLocalDsn(c.databases[name].environments[environment])
  }

  function Select(c: Config, hasDefault: bool, deployment: string, environment: string): Client {
    var d := if deployment == "" then DEFAULT_DEPLOYMENT else deployment;
    if IsLocal(c, d, environment) then LocalClient(d, environment)
    else match Endpoint(c, d, environment)
      case Ok(address) => RemoteClient(address)
      case Err(NotConfigured) => if hasDefault then DefaultClient else NoClient
      case Err(EmptyEndpoint) => NoClient
  }

  /** In a valid configuration every resolved target reaches what it was
      configured for: a local environment its own local client, and every remote
      deployment its own endpoint, never the default and never another's. */
  lemma TargetsReachTheirClients(c: Config, hasDefault: bool, database: string, environment: string,
                                 targets: seq<Target>, i: nat)
    requires Valid(c) && database != "" && database in c.databases && environment in c.databases[database].environments
    requires Rollout(c, database, environment, targets) && i < |targets|
    ensures IsLocal(c, database, environment) ==>
              && targets[i].deployment == database
              && Select(c, hasDefault, targets[i].deployment, environment) == LocalClient(database, environment)
    ensures !IsLocal(c, database, environment) ==>
              && AddressOf(c, targets[i].deployment, environment) != ""
              && Select(c, hasDefault, targets[i].deployment, environment)
                 == RemoteClient(AddressOf(c, targets[i].deployment, environment))
  {
    if !IsLocal(c, database, environment) {
      RemoteTargetIsValid(c, database, environment, targets, i);
      RemoteDeploymentIsRemote(c, hasDefault, targets[i].deployment, environment);
    }
  }

  lemma RemoteTargetIsValid(c: Config, database: string, environment: string, targets: seq<Target>, i: nat)
    requires Valid(c) && database in c.databases && environment in c.databases[database].environments
    requires Rollout(c, database, environment, targets) && i < |targets| && !IsLocal(c, database, environment)
    ensures ValidDeployment(c, environment, targets[i].deployment, targets[i].target)
  {
    assert ValidDatabase(c, c.databases[database]);
    assert ValidRouting(c, environment, c.databases[database].environments[environment]);
  }

  lemma RemoteDeploymentIsRemote(c: Config, hasDefault: bool, deployment: string, environment: string)
    requires Valid(c) && deployment != "" && AddressOf(c, deployment, environment) != ""
    ensures Select(c, hasDefault, deployment, environment) == RemoteClient(AddressOf(c, deployment, environment))
  {
    assert deployment in c.databases ==> !Collides(c, deployment);
    assert !IsLocal(c, deployment, environment);
  }

  // --- the client cache ----------------------------------------------------

  function Key(deployment: string, environment: string): string {
    (if deployment == "" then DEFAULT_DEPLOYMENT else deployment) + ['/'] + environment
  }

  type Cache = map<string, Client>

  datatype Call = Call(deployment: string, environment: string, created: bool)

  // A lookup: the cached client if there is one, else the selected one, which is
  // cached if it could be created. The default client is shared and not cached.
  function Lookup(c: Config, hasDefault: bool, cache: Cache, call: Call): (Cache, Client) {
    var key := Key(call.deployment, call.environment);
    if key in cache then (cache, cache[key])
    else
      var client := Select(c, hasDefault, call.deployment, call.environment);
      if client.DefaultClient? || client.NoClient? then (cache, client)
      else if call.created then (cache[key := client], client)
      else (cache, NoClient)
  }

  class ClientCache {
    const config: Config
    const hasDefault: bool
    var clients: Cache

    constructor (c: Config, hasDefault: bool)
      ensures config == c && this.hasDefault == hasDefault && clients == map[]
    {
      config, this.hasDefault, clients := c, hasDefault, map[];
    }

    method TernClient(deployment: string, environment: string, created: bool) returns (client: Client)
      modifies this
      ensures (clients, client) == Lookup(config, hasDefault, old(clients), Call(deployment, environment, created))
    {
      var d := if deployment == "" then DEFAULT_DEPLOYMENT else deployment;
      var key := d + ['/'] + environment;
      if key in clients {
        return clients[key];
      }
      if d in config.databases && environment in config.databases[d].environments
         && HasLocalDsn(config.databases[d].environments[environment]) {
        if !created {
          return NoClient;
        }
        client := LocalClient(d, environment);
        clients := clients[key := client];
        return;
      }
      var address := Endpoint(config, d, environment);
      if address.Err? {
        return if address.error == NotConfigured && hasDefault then DefaultClient else NoClient;
      }
      if !created {
        return NoClient;
      }
      client := RemoteClient(address.value);
      clients := clients[key := client];
    }
  }

  function After(c: Config, hasDefault: bool, calls: seq<Call>): Cache {
    if |calls| == 0 then map[]
    else
      var init, last := calls[..|calls| - 1], calls[|calls| - 1];
      Lookup(c, hasDefault, After(c, hasDefault, init), last).0
  }

  function Named(deployment: string): string {
    if deployment == "" then DEFAULT_DEPLOYMENT else deployment
  }

  lemma KeysDoNotMeet(d: string, e: string, d': string, e': string)
    requires NoSlash(d) && NoSlash(d') && Key(d, e) == Key(d', e')
    ensures Named(d) == Named(d') && e == e'
  {
    var n, n' := Named(d), Named(d');
    assert NoSlash(n) && NoSlash(n');
    var key := Key(d, e);
    assert key[|n|] == '/' && key[|n'|] == '/';
    assert forall i :: 0 <= i < |n| ==> key[i] == n[i];
    assert forall i :: 0 <= i < |n'| ==> key[i] == n'[i];
    assert |n| == |n'|;
    assert n == key[..|n|] && n' == key[..|n'|];
    assert e == key[|n| + 1..] && e' == key[|n'| + 1..];
  }

  /** After any sequence of lookups of slash-free deployment names from an empty
      cache, each cached client is the one an uncached lookup would select. */
  lemma {:induction false} CacheAgreesWithConfig(c: Config, hasDefault: bool, calls: seq<Call>, d: string, e: string)
    requires forall i :: 0 <= i < |calls| ==> NoSlash(calls[i].deployment)
    requires NoSlash(d) && Key(d, e) in After(c, hasDefault, calls)
    ensures After(c, hasDefault, calls)[Key(d, e)] == Select(c, hasDefault, d, e)
  {
    var init, last := calls[..|calls| - 1], calls[|calls| - 1];
    if Key(d, e) in After(c, hasDefault, init) {
      CacheAgreesWithConfig(c, hasDefault, init, d, e);
    } else {
      KeysDoNotMeet(d, e, last.deployment, last.environment);
    }
  }

  /** Hence every answer is the uncached one, or nothing when the client could not
      be created. */
  lemma EveryLookupIsCurrent(c: Config, hasDefault: bool, calls: seq<Call>, call: Call)
    requires NoSlash(call.deployment) && forall i :: 0 <= i < |calls| ==> NoSlash(calls[i].deployment)
    ensures var client := Lookup(c, hasDefault, After(c, hasDefault, calls), call).1;
            client == Select(c, hasDefault, call.deployment, call.environment) || (client == NoClient && !call.created)
  {
    if Key(call.deployment, call.environment) in After(c, hasDefault, calls) {
      CacheAgreesWithConfig(c, hasDefault, calls, call.deployment, call.environment);
    }
  }

  // On a cache without the key, the call creates a client and caches it there.
  predicate Creates(c: Config, hasDefault: bool, call: Call, key: string) {
    var client := Select(c, hasDefault, call.deployment, call.environment);
    call.created && Key(call.deployment, call.environment) == key && (client.LocalClient? || client.RemoteClient?)
  }

  // Call k is the first to create a client under the key.
  predicate FirstToCreate(c: Config, hasDefault: bool, calls: seq<Call>, key: string, k: int) {
    && 0 <= k < |calls| && Creates(c, hasDefault, calls[k], key)
    && forall i :: 0 <= i < k ==> !Creates(c, hasDefault, calls[i], key)
  }

  lemma {:induction false} NotCached(c: Config, hasDefault: bool, calls: seq<Call>, key: string)
    requires forall i :: 0 <= i < |calls| ==> !Creates(c, hasDefault, calls[i], key)
    ensures key !in After(c, hasDefault, calls)
  {
    if |calls| == 0 {
    } else {
      NotCached(c, hasDefault, calls[..|calls| - 1], key);
    }
  }

  lemma {:induction false} FirstCreatorIsCached(c: Config, hasDefault: bool, calls: seq<Call>, key: string, k: int)
    requires FirstToCreate(c, hasDefault, calls, key, k)
    ensures key in After(c, hasDefault, calls)
    ensures After(c, hasDefault, calls)[key] == Select(c, hasDefault, calls[k].deployment, calls[k].environment)
  {
    var init := calls[..|calls| - 1];
    if k == |calls| - 1 {
      NotCached(c, hasDefault, init, key);
    } else {
      FirstCreatorIsCached(c, hasDefault, init, key, k);
    }
  }

  lemma {:induction false} FindFirstCreator(c: Config, hasDefault: bool, calls: seq<Call>, key: string,
                                            i: nat) returns (k: int)
    requires i < |calls| && Creates(c, hasDefault, calls[i], key)
    ensures FirstToCreate(c, hasDefault, calls, key, k)
    decreases i
  {
    if j :| 0 <= j < i && Creates(c, hasDefault, calls[j], key) {
      k := FindFirstCreator(c, hasDefault, calls, key, j);
    } else {
      k := i;
    }
  }

  /** The cache holds, under each key, exactly what the first call that created a
      client for that key selected, whatever names were looked up. */
  lemma CachedIffCreated(c: Config, hasDefault: bool, calls: seq<Call>, key: string)
    ensures key in After(c, hasDefault, calls) <==> exists k :: FirstToCreate(c, hasDefault, calls, key, k)
    ensures forall k :: FirstToCreate(c, hasDefault, calls, key, k) ==>
              key in After(c, hasDefault, calls)
              && After(c, hasDefault, calls)[key] == Select(c, hasDefault, calls[k].deployment, calls[k].environment)
  {
    forall k | FirstToCreate(c, hasDefault, calls, key, k)
      ensures key in After(c, hasDefault, calls)
      ensures After(c, hasDefault, calls)[key] == Select(c, hasDefault, calls[k].deployment, calls[k].environment)
    {
      FirstCreatorIsCached(c, hasDefault, calls, key, k);
    }
    if i :| 0 <= i < |calls| && Creates(c, hasDefault, calls[i], key) {
      var k := FindFirstCreator(c, hasDefault, calls, key, i);
    } else {
      NotCached(c, hasDefault, calls, key);
    }
  }

  /** After any lookups at all, the next one gets the uncached choice exactly when
      no earlier call created a client under its key, or the first that did
      selected the same. */
  lemma LookupIsCurrentIff(c: Config, hasDefault: bool, calls: seq<Call>, call: Call)
    requires call.created
    ensures var key := Key(call.deployment, call.environment);
            Lookup(c, hasDefault, After(c, hasDefault, calls), call).1
            == Select(c, hasDefault, call.deployment, call.environment)
            <==> forall k :: FirstToCreate(c, hasDefault, calls, key, k) ==>
                   Select(c, hasDefault, calls[k].deployment, calls[k].environment)
                       == Select(c, hasDefault, call.deployment, call.environment)
  {
    CachedIffCreated(c, hasDefault, calls, Key(call.deployment, call.environment));
  }

  function Scalar(target: string, deployment: string): Environment {
    Environment("", false, target, deployment, None, [], "", "")
  }

  // Two databases, each with one environment on one remote deployment.
  function TwoRemotes(x: string, env: string, d: string, y: string, env': string, d': string, one: string,
                      two: string): Config {
    Config(map[x := Database("mysql", map[env := Scalar("t", d)]),
               y := Database("mysql", map[env' := Scalar("t", d')])],
           map[d := map[env := one], d' := map[env' := two]])
  }

  lemma TwoRemotesAreValid(x: string, env: string, d: string, y: string, env': string, d': string, one: string,
                           two: string)
    requires x != y && d != d' && d != "" && d' != "" && one != "" && two != ""
    ensures var c := TwoRemotes(x, env, d, y, env', d', one, two);
            && Valid(c)
            && Select(c, false, d, env) == RemoteClient(one)
            && Select(c, false, d', env') == RemoteClient(two)
  {
    var c := TwoRemotes(x, env, d, y, env', d', one, two);
    assert AddressOf(c, d, env) == one && AddressOf(c, d', env') == two;
    assert Valid(c) by {
      RemoteIsValid(c, c.databases[x], env, d);
      RemoteIsValid(c, c.databases[y], env', d');
      RemoteDoesNotCollide(c, x, env, d);
      RemoteDoesNotCollide(c, y, env', d');
    }
    RemoteDeploymentIsRemote(c, false, d, env);
    RemoteDeploymentIsRemote(c, false, d', env');
  }

  lemma RemoteIsValid(c: Config, db: Database, env: string, d: string)
    requires db == Database("mysql", map[env := Scalar("t", d)])
    requires d != "" && AddressOf(c, d, env) != ""
    ensures ValidDatabase(c, db)
  {
  }

  lemma RemoteDoesNotCollide(c: Config, name: string, env: string, d: string)
    requires name in c.databases && c.databases[name] == Database("mysql", map[env := Scalar("t", d)])
    ensures !Collides(c, name)
  {
  }

  /** Validation does not rule such names out: two deployments of a valid
      configuration can share a cache key and have different endpoints. */
  lemma ValidConfigCanMixClients(one: string, two: string)
    requires one != "" && two != "" && one != two
    ensures var c := TwoRemotes("x", "p", "a/b", "y", "b/p", "a", one, two);
            && Valid(c)
            && Lookup(c, false, After(c, false, [Call("a/b", "p", true)]), Call("a", "b/p", true)).1
               == RemoteClient(one)
            && Select(c, false, "a", "b/p") == RemoteClient(two)
  {
    TwoRemotesAreValid("x", "p", "a/b", "y", "b/p", "a", one, two);
    var c := TwoRemotes("x", "p", "a/b", "y", "b/p", "a", one, two);
    assert "a/b" + ['/'] + "p" == "a" + ['/'] + "b/p";
    FirstLookupIsCached(c, Call("a/b", "p", true));
  }

  lemma FirstLookupIsCached(c: Config, call: Call)
    requires call.created && Select(c, false, call.deployment, call.environment).RemoteClient?
    ensures After(c, false, [call])
            == map[Key(call.deployment, call.environment) := Select(c, false, call.deployment, call.environment)]
  {
    assert [call][..0] == [];
    assert After(c, false, [call][..0]) == map[];
  }
}
