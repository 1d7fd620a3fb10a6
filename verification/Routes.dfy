/**
 The configurations Validate accepts (pkg/api/config.go) and the clients they lead
 to (pkg/api/service.go), by the fields as they are written in the file. An
 environment has one of three routes: a local DSN, one remote deployment, or a map
 of deployments with its policies.
 */
module Routes {
  import opened Wrappers
  import opened Sorting
  import opened Routing

  // A deployment is reached under an endpoint that is not empty.
  predicate Reachable(c: Config, deployment: string, environment: string) {
    && deployment in c.ternDeployments && environment in c.ternDeployments[deployment]
    && c.ternDeployments[deployment][environment] != ""
  }

  // Nothing that only a map of deployments may have.
  predicate NoMapSettings(e: Environment) {
    e.deployments == None && e.deploymentOrder == [] && e.cutoverPolicy == "" && e.onFailure == ""
  }

  predicate LocalRoute(e: Environment) {
    (e.dsn != "" <==> !e.hasDsnFrom) && e.target == "" && e.deployment == "" && NoMapSettings(e)
  }

  predicate ScalarRoute(c: Config, environment: string, e: Environment) {
    && e.dsn == "" && !e.hasDsnFrom && NoMapSettings(e)
    && e.target != "" && e.deployment != "" && Reachable(c, e.deployment, environment)
  }

  // The order, if there is one, names every deployment once.
  predicate Orders(order: seq<string>, deployments: map<string, string>) {
    && (forall i, j :: 0 <= i < j < |order| ==> order[i] != order[j])
    && (forall i :: 0 <= i < |order| ==> order[i] in deployments)
    && (forall d <- deployments :: d in order)
  }

  predicate MapRoute(c: Config, environment: string, e: Environment) {
    && e.dsn == "" && !e.hasDsnFrom && e.target == "" && e.deployment == ""
    && e.deployments.Some? && e.deployments.value != map[]
    && (forall d <- e.deployments.value :: d != "" && e.deployments.value[d] != "" && Reachable(c, d, environment))
    && (e.deploymentOrder == [] || Orders(e.deploymentOrder, e.deployments.value))
    && e.cutoverPolicy in {"", "rolling", "barrier", "parallel"}
    && e.onFailure in {"", "halt", "continue", "pause"}
  }

  lemma OrdersIff(order: seq<string>, deployments: map<string, string>)
    ensures Lists(order, deployments.Keys) <==> Orders(order, deployments)
  {
    if Orders(order, deployments) {
      assert forall x :: x in order <==> x in deployments.Keys;
    }
  }

  lemma ReachableIff(c: Config, deployment: string, environment: string)
    ensures Reachable(c, deployment, environment) <==> AddressOf(c, deployment, environment) != ""
  {
  }

  lemma MapRouteIff(c: Config, environment: string, e: Environment)
    requires e.deployments.Some?
    ensures ValidPolicies(e) && ValidRouting(c, environment, e) <==> MapRoute(c, environment, e)
  {
    var deployments := e.deployments.value;
    OrdersIff(e.deploymentOrder, deployments);
    assert |deployments| > 0 <==> deployments != map[] by {
      if deployments != map[] {
        var d :| d in deployments;
        assert d in deployments.Keys && |deployments.Keys| > 0;
      }
    }
    forall d | d in deployments
      ensures ValidDeployment(c, environment, d, deployments[d])
              <==> d != "" && deployments[d] != "" && Reachable(c, d, environment)
    {
      ReachableIff(c, d, environment);
    }
  }

  /** An environment is accepted exactly with one of the three routes, and whole. */
  lemma EnvironmentIff(c: Config, environment: string, e: Environment)
    ensures ValidPolicies(e) && ValidRouting(c, environment, e)
            <==> LocalRoute(e) || ScalarRoute(c, environment, e) || MapRoute(c, environment, e)
  {
    if e.deployments.Some? {
      MapRouteIff(c, environment, e);
    } else {
      ReachableIff(c, e.deployment, environment);
    }
  }

  predicate Kind(s: string) {
    s in {"mysql", "vitess", "strata", "postgres"}
  }

  predicate Route(c: Config, environment: string, e: Environment) {
    LocalRoute(e) || ScalarRoute(c, environment, e) || MapRoute(c, environment, e)
  }

  /** A configuration is accepted exactly if every database has a known kind and
      environments, each with a route, and none that is local in an environment shares
      its name with a deployment reachable there. */
  lemma ConfigIff(c: Config)
    ensures Valid(c)
            <==> forall name <- c.databases ::
                   var db := c.databases[name];
                   && Kind(db.kind) && db.environments != map[]
                   && forall env <- db.environments ::
                        && Route(c, env, db.environments[env])
                        && !(LocalRoute(db.environments[env]) && Reachable(c, name, env))
  {
    forall name | name in c.databases
      ensures ValidDatabase(c, c.databases[name]) && !Collides(c, name)
              <==> var db := c.databases[name];
                   && Kind(db.kind) && db.environments != map[]
                   && forall env <- db.environments ::
                        && Route(c, env, db.environments[env])
                        && !(LocalRoute(db.environments[env]) && Reachable(c, name, env))
    {
      DatabaseIff(c, name);
    }
  }

  lemma DatabaseIff(c: Config, name: string)
    requires name in c.databases
    ensures var db := c.databases[name];
            ValidDatabase(c, db) && !Collides(c, name)
            <==> && Kind(db.kind) && db.environments != map[]
                 && forall env <- db.environments ::
                      && Route(c, env, db.environments[env])
                      && !(LocalRoute(db.environments[env]) && Reachable(c, name, env))
  {
    var db := c.databases[name];
    assert |db.environments| > 0 <==> db.environments != map[] by {
      if db.environments != map[] {
        var env :| env in db.environments;
        assert env in db.environments.Keys && |db.environments.Keys| > 0;
      }
    }
    forall env | env in db.environments
      ensures ValidPolicies(db.environments[env]) && ValidRouting(c, env, db.environments[env])
              <==> Route(c, env, db.environments[env])
      ensures Reachable(c, name, env) <==> AddressOf(c, name, env) != ""
      ensures Route(c, env, db.environments[env]) ==>
                (HasLocalDsn(db.environments[env]) <==> LocalRoute(db.environments[env]))
    {
      EnvironmentIff(c, env, db.environments[env]);
      ReachableIff(c, name, env);
    }
  }

  /** What serves a deployment that has a name: the database of that name if it has a
      DSN there, else the deployment's endpoint, else, if it has none at all, the
      default client. */
  lemma ServedBy(c: Config, hasDefault: bool, d: string, env: string)
    requires d != ""
    ensures var client := Select(c, hasDefault, d, env);
            var local := && d in c.databases && env in c.databases[d].environments
                         && (c.databases[d].environments[env].dsn != "" || c.databases[d].environments[env].hasDsnFrom);
            var listed := d in c.ternDeployments && env in c.ternDeployments[d];
            && (local ==> client == LocalClient(d, env))
            && (!local && Reachable(c, d, env) ==> client == RemoteClient(c.ternDeployments[d][env]))
            && (!local && listed && !Reachable(c, d, env) ==> client == NoClient)
            && (!local && !listed ==> client == if hasDefault then DefaultClient else NoClient)
  {
  }
}
