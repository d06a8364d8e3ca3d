/**
 * The mocked management API of test/mocks.ts: a registry of projects, a
 * registry of branches, a migration ledger and a database per project, and
 * the request handlers that create, list, delete, merge, reset and rebase
 * branches and apply migrations.
 *
 * Each project and branch record is a value held in its registry; where the
 * mock writes a field of a `MockProject` or `MockBranch` object in place,
 * the model replaces the record under the same id. Ids, version stamps and
 * the SQL engine are parameters.
 */
module MockApi {
  import opened Options
  import opened Ledger
  import opened Executor

  /** The `Project['status']` values the mock uses. */
  datatype ProjectStatus = Unknown | ActiveHealthy | Inactive

  /** The `Branch['status']` values the mock uses. */
  datatype BranchStatus = CreatingProject | MigrationsPassed | MigrationsFailed

  /** A `MockProject`: its details, its migration ledger and its database. */
  datatype Project = Project(
    id: string,
    organizationId: string,
    name: string,
    region: string,
    status: ProjectStatus,
    migrations: seq<Migration>,
    db: Database)

  /** A `MockBranch`. `projectRef` is the project its database lives in. */
  datatype Branch = Branch(
    id: string,
    name: string,
    projectRef: string,
    parentProjectRef: string,
    isDefault: bool,
    persistent: bool,
    status: BranchStatus)

  /** A handler's error: a JSON error response, or an error thrown out of it. */
  datatype Failure = Response(status: nat, message: string) | Exception(message: string)

  datatype Result<T> = Ok(value: T) | Err(failure: Failure)

  const ProjectNotFound := Response(404, "Project not found")
  const BranchNotFound := Response(404, "Branch not found")
  const ParentNotFound := Response(404, "Parent project not found")
  const DefaultBranchProtected := Response(422, "Cannot delete the default branch.")
  const BranchingDisabled := Response(422, "Preview branching is not enabled for this project.")
  const QueryFailed := Response(500, "Failed to execute query")
  const MigrationsNotApplied := Response(500, "Failed to apply migrations")

  /** The error `createBranch` throws for an unknown parent. */
  function UnknownParent(parentRef: string): Failure {
    Exception("Project with id " + parentRef + " not found")
  }

  /** What `new MockProject(...)` builds: status `UNKNOWN`, an empty ledger, a fresh database. */
  function NewProject(id: string, name: string, region: string, organizationId: string): Project {
    Project(id, organizationId, name, region, Unknown, [], [])
  }

  /** What `new MockBranch(...)` builds: not persistent, status `CREATING_PROJECT`. */
  function NewBranch(id: string, name: string, projectRef: string, parentRef: string, isDefault: bool): Branch {
    Branch(id, name, projectRef, parentRef, isDefault, false, CreatingProject)
  }

  /**
   * `Array.from(mockBranches.values()).filter((b) => b.parent_project_ref === parent)`,
   * with `order` the keys in the order the `Map` iterates them.
   */
  function BranchesOf(order: seq<string>, branches: map<string, Branch>, parent: string): seq<Branch>
    requires forall k :: k in order ==> k in branches
  {
    if order == [] then []
    else
      (if branches[order[0]].parentProjectRef == parent then [branches[order[0]]] else [])
      + BranchesOf(order[1..], branches, parent)
  }

  /**
   * The listing holds registered branches of `parent` only, and every branch
   * registered under a key of `order` is in it exactly when its parent is
   * `parent`.
   */
  lemma {:induction false} BranchesOfSpec(order: seq<string>, branches: map<string, Branch>, parent: string)
    requires forall k :: k in order ==> k in branches
    ensures |BranchesOf(order, branches, parent)| <= |order|
    ensures forall b :: b in BranchesOf(order, branches, parent) ==> b.parentProjectRef == parent && b in branches.Values
    ensures forall k :: k in order ==> (branches[k] in BranchesOf(order, branches, parent) <==> branches[k].parentProjectRef == parent)
  {
    if order != [] {
      BranchesOfSpec(order[1..], branches, parent);
      forall k | k in order
        ensures branches[k] in BranchesOf(order, branches, parent) <==> branches[k].parentProjectRef == parent
      {
        if k != order[0] {
          assert k in order[1..];
        }
      }
    }
  }

  /** A parent none of whose branches is registered has an empty listing. */
  lemma {:induction false} BranchesOfNone(order: seq<string>, branches: map<string, Branch>, parent: string)
    requires forall k :: k in order ==> k in branches && branches[k].parentProjectRef != parent
    ensures BranchesOf(order, branches, parent) == []
  {
    if order != [] {
      BranchesOfNone(order[1..], branches, parent);
    }
  }

  /** Registering a branch under a new key adds it at the end of its parent's listing, and nowhere else. */
  lemma {:induction false} BranchesOfAppend(order: seq<string>, branches: map<string, Branch>, k: string, b: Branch, parent: string)
    requires forall x :: x in order ==> x in branches
    requires k !in order
    ensures BranchesOf(order + [k], branches[k := b], parent)
         == BranchesOf(order, branches, parent) + (if b.parentProjectRef == parent then [b] else [])
  {
    if order == [] {
      assert [k][1..] == [];
    } else {
      BranchesOfAppend(order[1..], branches, k, b, parent);
      assert (order + [k])[1..] == order[1..] + [k];
    }
  }

  /** No key occurs twice. */
  predicate Distinct(s: seq<string>) {
    forall i, j :: 0 <= i < j < |s| ==> s[i] != s[j]
  }

  /** `s` without `x`: what deleting the key `x` leaves of a `Map`'s iteration order. */
  function Without(s: seq<string>, x: string): (r: seq<string>)
    ensures forall y :: y in r <==> y in s && y != x
    ensures Distinct(s) ==> Distinct(r)
  {
    if s == [] then []
    else
      assert Distinct(s) ==> Distinct(s[1..]) && s[0] !in s[1..];
      if s[0] == x then Without(s[1..], x)
      else [s[0]] + Without(s[1..], x)
  }

  /** Removal works element by element, so the survivors keep their order. */
  lemma {:induction false} WithoutConcat(a: seq<string>, b: seq<string>, x: string)
    ensures Without(a + b, x) == Without(a, x) + Without(b, x)
  {
    if a != [] {
      assert (a + b)[0] == a[0];
      assert (a + b)[1..] == a[1..] + b;
      WithoutConcat(a[1..], b, x);
    } else {
      assert a + b == b;
    }
  }

  /**
   * The ledger `reset` replays: truncated to `migration_version` when the
   * request carries one that is truthy (present and non-empty), else as is.
   */
  function ResetLedger(ledger: seq<Migration>, migrationVersion: Option<string>): (r: seq<Migration>)
    ensures |r| <= |ledger|
    ensures forall m :: m in r ==> m in ledger
    ensures WellFormed(ledger) ==> WellFormed(r)
  {
    if migrationVersion.Some? && migrationVersion.value != "" then
      var kept := TruncateTo(ledger, migrationVersion.value);
      assert WellFormed(ledger) ==> WellFormed(kept) by {
        if WellFormed(ledger) {
          TruncateKeepsWellFormed(ledger, migrationVersion.value);
        }
      }
      kept
    else ledger
  }

  // ---------------------------------------------------------------------------
  // Registry invariants
  // ---------------------------------------------------------------------------

  /** Every project is stored under its own id. */
  ghost predicate ProjectsKeyed(projects: map<string, Project>) {
    forall id :: id in projects ==> projects[id].id == id
  }

  /**
   * Every branch is stored under its own id; a branch is a default one
   * exactly when its database is its parent's; `order` lists each branch key
   * once.
   */
  ghost predicate BranchesConsistent(branches: map<string, Branch>, order: seq<string>) {
    && (forall id :: id in branches ==> branches[id].id == id)
    && (forall id :: id in branches ==>
          (branches[id].isDefault <==> branches[id].projectRef == branches[id].parentProjectRef))
    && Distinct(order)
    && (forall id :: id in order <==> id in branches)
  }

  /** Some default branch is registered for `parent`. */
  ghost predicate HasDefaultIn(branches: map<string, Branch>, parent: string) {
    exists id :: id in branches && branches[id].isDefault && branches[id].parentProjectRef == parent
  }

  /** Every parent with branches has exactly one default branch among them. */
  ghost predicate DefaultsHoldIn(branches: map<string, Branch>) {
    && (forall a, b ::
          (a in branches && b in branches && branches[a].isDefault && branches[b].isDefault
           && branches[a].parentProjectRef == branches[b].parentProjectRef) ==> a == b)
    && (forall id :: id in branches ==> HasDefaultIn(branches, branches[id].parentProjectRef))
  }

  /** Every ledger has timestamp versions in strictly increasing order. */
  ghost predicate LedgersWellFormedIn(projects: map<string, Project>) {
    forall id :: id in projects ==> WellFormed(projects[id].migrations)
  }

  /** Storing a project under its own id keeps the project invariants. */
  lemma StoreProjectKeepsInvariants(projects: map<string, Project>, p: Project)
    ensures ProjectsKeyed(projects) ==> ProjectsKeyed(projects[p.id := p])
    ensures LedgersWellFormedIn(projects) && WellFormed(p.migrations) ==> LedgersWellFormedIn(projects[p.id := p])
  {
  }

  /** A status change keeps the branch invariants. */
  lemma SetStatusKeepsInvariants(branches: map<string, Branch>, order: seq<string>, id: string, status: BranchStatus)
    requires id in branches
    ensures var updated := branches[id := branches[id].(status := status)];
      && (BranchesConsistent(branches, order) ==> BranchesConsistent(updated, order))
      && (DefaultsHoldIn(branches) ==> DefaultsHoldIn(updated))
  {
    var updated := branches[id := branches[id].(status := status)];
    if DefaultsHoldIn(branches) {
      forall x | x in updated
        ensures HasDefaultIn(updated, updated[x].parentProjectRef)
      {
        var p := updated[x].parentProjectRef;
        assert HasDefaultIn(branches, p);
        var d :| d in branches && branches[d].isDefault && branches[d].parentProjectRef == p;
        assert d in updated && updated[d].isDefault && updated[d].parentProjectRef == p;
      }
    }
  }

  /**
   * Registering a branch under its fresh id keeps the invariants, provided a
   * non-default branch joins a parent that has a default one and a default
   * branch joins a parent that has none.
   */
  lemma AddBranchKeepsInvariants(branches: map<string, Branch>, order: seq<string>, b: Branch)
    requires b.id !in branches
    requires b.isDefault <==> b.projectRef == b.parentProjectRef
    ensures BranchesConsistent(branches, order) ==> BranchesConsistent(branches[b.id := b], order + [b.id])
    ensures DefaultsHoldIn(branches)
            && (if b.isDefault then forall id :: id in branches ==> branches[id].parentProjectRef != b.parentProjectRef
                else HasDefaultIn(branches, b.parentProjectRef))
            ==> DefaultsHoldIn(branches[b.id := b])
  {
    var updated := branches[b.id := b];
    if BranchesConsistent(branches, order) {
      assert Distinct(order + [b.id]) by {
        forall i, j | 0 <= i < j < |order| + 1
          ensures (order + [b.id])[i] != (order + [b.id])[j]
        {
          if j == |order| {
            assert order[i] in order;
          }
        }
      }
    }
    if DefaultsHoldIn(branches)
       && (if b.isDefault then forall id :: id in branches ==> branches[id].parentProjectRef != b.parentProjectRef
           else HasDefaultIn(branches, b.parentProjectRef))
    {
      forall x | x in updated
        ensures HasDefaultIn(updated, updated[x].parentProjectRef)
      {
        var p := updated[x].parentProjectRef;
        if x == b.id && b.isDefault {
          assert updated[b.id] == b;
        } else {
          assert HasDefaultIn(branches, p);
          var d :| d in branches && branches[d].isDefault && branches[d].parentProjectRef == p;
          assert d in updated && updated[d] == branches[d];
        }
      }
    }
  }

  /** Removing a non-default branch keeps the invariants. */
  lemma RemoveBranchKeepsInvariants(branches: map<string, Branch>, order: seq<string>, id: string)
    requires id in branches && !branches[id].isDefault
    ensures BranchesConsistent(branches, order) ==> BranchesConsistent(branches - {id}, Without(order, id))
    ensures DefaultsHoldIn(branches) ==> DefaultsHoldIn(branches - {id})
  {
    var updated := branches - {id};
    if DefaultsHoldIn(branches) {
      forall x | x in updated
        ensures HasDefaultIn(updated, updated[x].parentProjectRef)
      {
        var p := updated[x].parentProjectRef;
        assert HasDefaultIn(branches, p);
        var d :| d in branches && branches[d].isDefault && branches[d].parentProjectRef == p;
        assert d in updated && updated[d] == branches[d];
      }
    }
  }

  class ManagementApi {
    /** The SQL engine every project database runs on. */
    const exec: Executor

    /** `mockProjects`. */
    var projects: map<string, Project>

    /** `mockBranches`. */
    var branches: map<string, Branch>

    /** The keys of `mockBranches` in insertion order, the order a JavaScript `Map` iterates in. */
    var branchOrder: seq<string>

    /** Projects whose deferred promotion to `ACTIVE_HEALTHY` (scheduled by `createProject`) has not run. */
    var pendingPromotions: set<string>

    /** Branches whose deferred migration replay (scheduled by `createBranch`) has not run. */
    var pendingReplays: set<string>

    /** The registries are consistent (see `ProjectsKeyed` and `BranchesConsistent`). */
    ghost predicate Valid()
      reads this
    {
      ProjectsKeyed(projects) && BranchesConsistent(branches, branchOrder)
    }

    /** Some default branch is registered for `parent`. */
    ghost predicate HasDefault(parent: string)
      reads this
    {
      HasDefaultIn(branches, parent)
    }

    /** Every parent with branches has exactly one default branch among them. */
    ghost predicate DefaultsHold()
      reads this
    {
      DefaultsHoldIn(branches)
    }

    /** Every ledger has timestamp versions in strictly increasing order. */
    ghost predicate LedgersWellFormed()
      reads this
    {
      LedgersWellFormedIn(projects)
    }

    /** The branches of `parent`, as the branch listing reports them. */
    ghost function Listed(parent: string): seq<Branch>
      reads this
      requires Valid()
    {
      BranchesOf(branchOrder, branches, parent)
    }

    /** The module-level registries start out empty. */
    constructor (exec: Executor)
      ensures Valid() && DefaultsHold() && LedgersWellFormed()
      ensures this.exec == exec
      ensures projects == map[] && branches == map[] && branchOrder == []
      ensures pendingPromotions == {} && pendingReplays == {}
    {
      this.exec := exec;
      projects := map[];
      branches := map[];
      branchOrder := [];
      pendingPromotions := {};
      pendingReplays := {};
    }

    // -------------------------------------------------------------------------
    // Projects
    // -------------------------------------------------------------------------

    /**
     * `createProject` (also behind `POST /v1/projects`): register a new
     * project under the fresh id `id`, in status `UNKNOWN`, and schedule its
     * promotion.
     */
    method CreateProject(id: string, name: string, region: string, organizationId: string) returns (p: Project)
      requires Valid()
      requires id !in projects
      modifies this
      ensures Valid()
      ensures p == NewProject(id, name, region, organizationId)
      ensures projects == old(projects)[id := p]
      ensures branches == old(branches) && branchOrder == old(branchOrder)
      ensures pendingPromotions == old(pendingPromotions) + {id} && pendingReplays == old(pendingReplays)
      ensures old(DefaultsHold()) ==> DefaultsHold()
      ensures old(LedgersWellFormed()) ==> LedgersWellFormed()
    {
      p := NewProject(id, name, region, organizationId);
      projects := projects[id := p];
      pendingPromotions := pendingPromotions + {id};
    }

    /**
     * The `setTimeout` callback of `createProject`: the project becomes
     * `ACTIVE_HEALTHY`, whatever its status then is. A project no longer
     * registered is not affected.
     */
    method PromoteProject(id: string)
      requires Valid()
      requires id in pendingPromotions
      modifies this
      ensures Valid()
      ensures projects == if id in old(projects) then old(projects)[id := old(projects)[id].(status := ActiveHealthy)] else old(projects)
      ensures branches == old(branches) && branchOrder == old(branchOrder)
      ensures pendingPromotions == old(pendingPromotions) - {id} && pendingReplays == old(pendingReplays)
      ensures old(DefaultsHold()) ==> DefaultsHold()
      ensures old(LedgersWellFormed()) ==> LedgersWellFormed()
    {
      if id in projects {
        projects := projects[id := projects[id].(status := ActiveHealthy)];
      }
      pendingPromotions := pendingPromotions - {id};
    }

    /** `POST /v1/projects/:projectId/pause` (`restore` when `restore` is true). */
    method SetProjectStatus(projectId: string, restore: bool) returns (r: Result<Project>)
      requires Valid()
      modifies this
      ensures Valid()
      ensures projectId !in old(projects) ==> r == Err(ProjectNotFound) && projects == old(projects)
      ensures projectId in old(projects) ==>
        && projects == old(projects)[projectId := old(projects)[projectId].(status := if restore then ActiveHealthy else Inactive)]
        && r == Ok(projects[projectId])
      ensures branches == old(branches) && branchOrder == old(branchOrder)
      ensures pendingPromotions == old(pendingPromotions) && pendingReplays == old(pendingReplays)
      ensures old(DefaultsHold()) ==> DefaultsHold()
      ensures old(LedgersWellFormed()) ==> LedgersWellFormed()
    {
      if projectId !in projects {
        return Err(ProjectNotFound);
      }
      var status := if restore then ActiveHealthy else Inactive;
      projects := projects[projectId := projects[projectId].(status := status)];
      r := Ok(projects[projectId]);
    }

    // -------------------------------------------------------------------------
    // SQL and migrations
    // -------------------------------------------------------------------------

    /**
     * `POST /v1/projects/:projectId/database/query`: run an ad hoc statement.
     * Its effect on the database is kept; no ledger changes.
     */
    method ExecuteSql(projectId: string, query: string) returns (r: Result<seq<Row>>)
      requires Valid()
      modifies this
      ensures Valid()
      ensures projectId !in old(projects) ==> r == Err(ProjectNotFound) && projects == old(projects)
      ensures projectId in old(projects) ==>
        var p := old(projects)[projectId];
        var outcome := exec(p.db, query);
        && projects == old(projects)[projectId := p.(db := After(p.db, query, outcome))]
        && r == match outcome
                case Rows(rows) => Ok(rows)
                case NoResults => Err(QueryFailed)
                case Raised(message) => Err(Exception(message))
      ensures projects.Keys == old(projects).Keys
      ensures forall id :: id in projects ==> projects[id].migrations == old(projects)[id].migrations
      ensures branches == old(branches) && branchOrder == old(branchOrder)
      ensures pendingPromotions == old(pendingPromotions) && pendingReplays == old(pendingReplays)
      ensures old(DefaultsHold()) ==> DefaultsHold()
      ensures old(LedgersWellFormed()) ==> LedgersWellFormed()
    {
      if projectId !in projects {
        return Err(ProjectNotFound);
      }
      var p := projects[projectId];
      var outcome := exec(p.db, query);
      projects := projects[projectId := p.(db := After(p.db, query, outcome))];
      match outcome {
        case Rows(rows) => r := Ok(rows);
        case NoResults => r := Err(QueryFailed);
        case Raised(message) => r := Err(Exception(message));
      }
    }

    /**
     * `GET /v1/projects/:projectId/database/migrations`: the ledger in stored
     * order, as `{version, name}` pairs.
     */
    method ListMigrations(projectId: string) returns (r: Result<seq<MigrationSummary>>)
      ensures r.Err? <==> projectId !in projects
      ensures r.Err? ==> r.failure == ProjectNotFound
      ensures r.Ok? ==>
        var ledger := projects[projectId].migrations;
        && |r.value| == |ledger|
        && forall i :: 0 <= i < |ledger| ==> r.value[i] == MigrationSummary(ledger[i].version, ledger[i].name)
    {
      if projectId !in projects {
        return Err(ProjectNotFound);
      }
      r := Ok(Summaries(projects[projectId].migrations));
    }

    /**
     * `POST /v1/projects/:projectId/database/migrations`: run `query`; only if
     * it yields a result is `{version, name, query}` appended to the ledger.
     * `version` stands for the clock reading the handler formats.
     */
    method ApplyMigration(projectId: string, name: string, query: string, version: string) returns (r: Result<seq<Row>>)
      requires Valid()
      modifies this
      ensures Valid()
      ensures projectId !in old(projects) ==> r == Err(ProjectNotFound) && projects == old(projects)
      ensures projectId in old(projects) ==>
        var p := old(projects)[projectId];
        match exec(p.db, query)
        case Rows(rows) =>
          && r == Ok(rows)
          && projects == old(projects)[projectId := p.(migrations := p.migrations + [Migration(version, name, query)],
                                                       db := p.db + [query])]
        case NoResults => r == Err(QueryFailed) && projects == old(projects)
        case Raised(message) => r == Err(Exception(message)) && projects == old(projects)
      ensures branches == old(branches) && branchOrder == old(branchOrder)
      ensures pendingPromotions == old(pendingPromotions) && pendingReplays == old(pendingReplays)
      ensures old(DefaultsHold()) ==> DefaultsHold()
      ensures old(LedgersWellFormed()) && IsVersion(version)
              && (projectId in old(projects) ==> FollowsTail(old(projects)[projectId].migrations, version))
              ==> LedgersWellFormed()
    {
      if projectId !in projects {
        return Err(ProjectNotFound);
      }
      var p := projects[projectId];
      var outcome := exec(p.db, query);
      match outcome {
        case Rows(rows) =>
          var m := Migration(version, name, query);
          projects := projects[projectId := p.(migrations := p.migrations + [m], db := p.db + [query])];
          if old(LedgersWellFormed()) && IsVersion(version) && FollowsTail(p.migrations, version) {
            AppendKeepsWellFormed(p.migrations, m);
          }
          r := Ok(rows);
        case NoResults =>
          r := Err(QueryFailed);
        case Raised(message) =>
          r := Err(Exception(message));
      }
    }

    /** `MockProject.resetDb`: close the project's database and open a fresh, empty one. */
    method ResetDb(projectId: string)
      requires Valid()
      requires projectId in projects
      modifies this
      ensures Valid()
      ensures projects == old(projects)[projectId := old(projects)[projectId].(db := [])]
      ensures branches == old(branches) && branchOrder == old(branchOrder)
      ensures pendingPromotions == old(pendingPromotions) && pendingReplays == old(pendingReplays)
      ensures old(DefaultsHold()) ==> DefaultsHold()
      ensures old(LedgersWellFormed()) ==> LedgersWellFormed()
    {
      projects := projects[projectId := projects[projectId].(db := [])];
    }

    /**
     * `MockProject.applyMigrations`: replay the project's ledger onto its
     * database, stopping at the first failing statement. The statements run
     * before the failure stay applied and the ledger is not touched.
     */
    method ApplyMigrations(projectId: string) returns (r: ReplayResult)
      requires Valid()
      requires projectId in projects
      modifies this
      ensures Valid()
      ensures r == ReplayFrom(exec, old(projects)[projectId].db, old(projects)[projectId].migrations, 0)
      ensures projects == old(projects)[projectId := old(projects)[projectId].(db := r.db)]
      ensures branches == old(branches) && branchOrder == old(branchOrder)
      ensures pendingPromotions == old(pendingPromotions) && pendingReplays == old(pendingReplays)
      ensures old(DefaultsHold()) ==> DefaultsHold()
      ensures old(LedgersWellFormed()) ==> LedgersWellFormed()
    {
      var p := projects[projectId];
      r := Replay(exec, p.db, p.migrations);
      projects := projects[projectId := p.(db := r.db)];
    }

    /**
     * The sequence shared by merge, reset and rebase: install `ledger` as the
     * project's ledger, `resetDb`, then `applyMigrations`. The replay starts
     * from an empty database.
     */
    method Reload(projectId: string, ledger: seq<Migration>) returns (replay: ReplayResult)
      requires Valid()
      requires projectId in projects
      modifies this
      ensures Valid()
      ensures replay == ReplayFrom(exec, [], ledger, 0)
      ensures projects == old(projects)[projectId := old(projects)[projectId].(migrations := ledger, db := replay.db)]
      ensures branches == old(branches) && branchOrder == old(branchOrder)
      ensures pendingPromotions == old(pendingPromotions) && pendingReplays == old(pendingReplays)
      ensures old(LedgersWellFormed()) && WellFormed(ledger) ==> LedgersWellFormed()
    {
      var p := projects[projectId];
      projects := projects[projectId := p.(migrations := ledger)];
      ResetDb(projectId);
      assert projects == old(projects)[projectId := p.(migrations := ledger, db := [])];
      replay := ApplyMigrations(projectId);
    }

    // -------------------------------------------------------------------------
    // Branches
    // -------------------------------------------------------------------------

    /**
     * `createBranch`: register a child project of `parentRef` under the fresh
     * id `projectId`, named after the parent and the branch, in the parent's
     * region and organization, with a copy of the parent's ledger and a fresh
     * database; register a non-default branch `branchId` on it in status
     * `CREATING_PROJECT`, and schedule its replay. An unknown parent is an
     * error.
     */
    method CreateBranch(name: string, parentRef: string, projectId: string, branchId: string) returns (r: Result<Branch>)
      requires Valid()
      requires projectId !in projects && branchId !in branches
      modifies this
      ensures Valid()
      ensures parentRef !in old(projects) ==> r == Err(UnknownParent(parentRef)) && unchanged(this)
      ensures parentRef in old(projects) ==>
        var parent := old(projects)[parentRef];
        && r == Ok(NewBranch(branchId, name, projectId, parentRef, false))
        && projects == old(projects)[projectId := Project(projectId, parent.organizationId, parent.name + " - " + name,
                                                          parent.region, Unknown, parent.migrations, [])]
        && branches == old(branches)[branchId := r.value]
        && branchOrder == old(branchOrder) + [branchId]
        && pendingReplays == old(pendingReplays) + {branchId}
        && Listed(parentRef) == old(Listed(parentRef)) + [r.value]
      ensures pendingPromotions == old(pendingPromotions)
      ensures old(DefaultsHold()) && old(HasDefault(parentRef)) ==> DefaultsHold()
      ensures old(LedgersWellFormed()) ==> LedgersWellFormed()
    {
      if parentRef !in projects {
        return Err(UnknownParent(parentRef));
      }
      var parent := projects[parentRef];
      var project := NewProject(projectId, parent.name + " - " + name, parent.region, parent.organizationId);
      var branch := NewBranch(branchId, name, projectId, parentRef, false);
      BranchesOfAppend(branchOrder, branches, branchId, branch, parentRef);
      AddBranchKeepsInvariants(branches, branchOrder, branch);
      StoreProjectKeepsInvariants(projects, project.(migrations := parent.migrations));
      // The ledger copy follows registration synchronously; no caller sees the
      // project with an empty ledger.
      projects := projects[projectId := project.(migrations := parent.migrations)];
      branches := branches[branchId := branch];
      branchOrder := branchOrder + [branchId];
      pendingReplays := pendingReplays + {branchId};
      r := Ok(branch);
    }

    /**
     * `POST /v1/projects/:projectId/branches`. On the first branch request for
     * a project, a default branch is registered first: it carries the
     * requested name, lives in the project itself and is `MIGRATIONS_PASSED`.
     * Then `createBranch` adds the requested branch.
     */
    method PostBranch(projectId: string, branchName: string, defaultBranchId: string, childProjectId: string,
                      childBranchId: string) returns (r: Result<Branch>)
      requires Valid()
      requires childProjectId !in projects
      requires defaultBranchId !in branches && childBranchId !in branches && defaultBranchId != childBranchId
      modifies this
      ensures Valid()
      ensures projectId !in old(projects) ==> r == Err(ProjectNotFound) && unchanged(this)
      ensures projectId in old(projects) ==>
        var parent := old(projects)[projectId];
        var defaultBranch := NewBranch(defaultBranchId, branchName, projectId, projectId, true).(status := MigrationsPassed);
        && r == Ok(NewBranch(childBranchId, branchName, childProjectId, projectId, false))
        && projects == old(projects)[childProjectId := Project(childProjectId, parent.organizationId,
                                                               parent.name + " - " + branchName, parent.region,
                                                               Unknown, parent.migrations, [])]
        && pendingReplays == old(pendingReplays) + {childBranchId}
        && (old(Listed(projectId)) == [] ==>
              && branches == old(branches)[defaultBranchId := defaultBranch][childBranchId := r.value]
              && branchOrder == old(branchOrder) + [defaultBranchId, childBranchId]
              && Listed(projectId) == [defaultBranch, r.value])
        && (old(Listed(projectId)) != [] ==>
              && branches == old(branches)[childBranchId := r.value]
              && branchOrder == old(branchOrder) + [childBranchId]
              && Listed(projectId) == old(Listed(projectId)) + [r.value])
      ensures pendingPromotions == old(pendingPromotions)
      ensures old(DefaultsHold()) ==> DefaultsHold()
      ensures old(LedgersWellFormed()) ==> LedgersWellFormed()
    {
      if projectId !in projects {
        return Err(ProjectNotFound);
      }
      var existing := BranchesOf(branchOrder, branches, projectId);
      BranchesOfSpec(branchOrder, branches, projectId);
      if existing == [] {
        AddDefaultBranch(projectId, branchName, defaultBranchId);
        assert branchOrder + [childBranchId] == old(branchOrder) + [defaultBranchId, childBranchId];
        r := CreateBranch(branchName, projectId, childProjectId, childBranchId);
      } else {
        assert existing[0] in branches.Values;
        var id :| id in branches && branches[id] == existing[0];
        assert branches[id].parentProjectRef == projectId;
        r := CreateBranch(branchName, projectId, childProjectId, childBranchId);
      }
    }

    /**
     * The first-branch case of `POST /v1/projects/:projectId/branches`: a
     * default branch named `name` whose database is the project itself, in
     * status `MIGRATIONS_PASSED`, registered under the fresh id `id`.
     */
    method AddDefaultBranch(projectId: string, name: string, id: string)
      requires Valid()
      requires id !in branches
      requires forall k :: k in branches ==> branches[k].parentProjectRef != projectId
      modifies this
      ensures Valid()
      ensures var b := NewBranch(id, name, projectId, projectId, true).(status := MigrationsPassed);
        && branches == old(branches)[id := b]
        && branchOrder == old(branchOrder) + [id]
        && Listed(projectId) == [b]
      ensures HasDefault(projectId)
      ensures projects == old(projects)
      ensures pendingPromotions == old(pendingPromotions) && pendingReplays == old(pendingReplays)
      ensures old(DefaultsHold()) ==> DefaultsHold()
    {
      var b := NewBranch(id, name, projectId, projectId, true).(status := MigrationsPassed);
      BranchesOfAppend(branchOrder, branches, id, b, projectId);
      BranchesOfNone(branchOrder, branches, projectId);
      AddBranchKeepsInvariants(branches, branchOrder, b);
      branches := branches[id := b];
      branchOrder := branchOrder + [id];
      assert branches[id] == b;
    }

    /**
     * `GET /v1/projects/:projectId/branches`: the project's branches in
     * registration order; none at all answers 422.
     */
    method ListBranches(projectId: string) returns (r: Result<seq<Branch>>)
      requires Valid()
      ensures r.Err? <==> forall id :: id in branches ==> branches[id].parentProjectRef != projectId
      ensures r.Err? ==> r.failure == BranchingDisabled
      ensures r.Ok? ==> r.value == Listed(projectId)
      ensures r.Ok? ==> forall id :: id in branches ==> (branches[id] in r.value <==> branches[id].parentProjectRef == projectId)
      ensures r.Ok? ==> forall b :: b in r.value ==> b in branches.Values && b.parentProjectRef == projectId
    {
      var listed := BranchesOf(branchOrder, branches, projectId);
      BranchesOfSpec(branchOrder, branches, projectId);
      if listed == [] {
        return Err(BranchingDisabled);
      }
      assert listed[0] in branches.Values;
      r := Ok(listed);
    }

    /**
     * The `setTimeout` callback of `createBranch`: replay the branch
     * project's ledger onto its current database and record the outcome in
     * the branch status. Once the branch is deleted it does nothing.
     */
    method CompleteBranchReplay(branchId: string)
      requires Valid()
      requires branchId in pendingReplays
      modifies this
      ensures Valid()
      ensures pendingReplays == old(pendingReplays) - {branchId} && pendingPromotions == old(pendingPromotions)
      ensures branchOrder == old(branchOrder)
      ensures branchId !in old(branches) || old(branches)[branchId].projectRef !in old(projects) ==>
        projects == old(projects) && branches == old(branches)
      ensures branchId in old(branches) && old(branches)[branchId].projectRef in old(projects) ==>
        var b := old(branches)[branchId];
        var p := old(projects)[b.projectRef];
        var replay := ReplayFrom(exec, p.db, p.migrations, 0);
        && projects == old(projects)[b.projectRef := p.(db := replay.db)]
        && branches == old(branches)[branchId := b.(status := if replay.Completed? then MigrationsPassed else MigrationsFailed)]
      ensures old(DefaultsHold()) ==> DefaultsHold()
      ensures old(LedgersWellFormed()) ==> LedgersWellFormed()
    {
      pendingReplays := pendingReplays - {branchId};
      if branchId !in branches || branches[branchId].projectRef !in projects {
        return;
      }
      var branch := branches[branchId];
      var replay := ApplyMigrations(branch.projectRef);
      var status := if replay.Completed? then MigrationsPassed else MigrationsFailed;
      SetStatusKeepsInvariants(branches, branchOrder, branchId, status);
      branches := branches[branchId := branch.(status := status)];
    }

    /**
     * `DELETE /v1/branches/:branchId`: a default branch is refused; otherwise
     * the branch's own project is destroyed and both registry entries go.
     * Nothing else changes, the parent project in particular.
     */
    method DeleteBranch(branchId: string) returns (r: Result<string>)
      requires Valid()
      modifies this
      ensures Valid()
      ensures branchId !in old(branches) ==> r == Err(BranchNotFound) && unchanged(this)
      ensures branchId in old(branches) && old(branches)[branchId].isDefault ==>
        r == Err(DefaultBranchProtected) && unchanged(this)
      ensures branchId in old(branches) && !old(branches)[branchId].isDefault ==>
        var b := old(branches)[branchId];
        && (b.projectRef !in old(projects) ==> r == Err(ProjectNotFound) && unchanged(this))
        && (b.projectRef in old(projects) ==>
              && r == Ok("ok")
              && projects == old(projects) - {b.projectRef}
              && branches == old(branches) - {branchId}
              && branchOrder == Without(old(branchOrder), branchId)
              && (b.parentProjectRef in old(projects) ==>
                    b.parentProjectRef in projects && projects[b.parentProjectRef] == old(projects)[b.parentProjectRef]))
      ensures pendingPromotions == old(pendingPromotions) && pendingReplays == old(pendingReplays)
      ensures old(DefaultsHold()) ==> DefaultsHold()
      ensures old(LedgersWellFormed()) ==> LedgersWellFormed()
    {
      if branchId !in branches {
        return Err(BranchNotFound);
      }
      var branch := branches[branchId];
      if branch.isDefault {
        return Err(DefaultBranchProtected);
      }
      if branch.projectRef !in projects {
        return Err(ProjectNotFound);
      }
      var project := projects[branch.projectRef];
      RemoveBranchKeepsInvariants(branches, branchOrder, branch.id);
      projects := projects - {project.id};
      branches := branches - {branch.id};
      branchOrder := Without(branchOrder, branch.id);
      r := Ok("ok");
    }

    /**
     * `POST /v1/branches/:branchId/merge`: the parent's ledger becomes a copy
     * of the branch project's, the parent's database is reset and the ledger
     * replayed onto it. A failed replay leaves the swapped ledger in place.
     * The result is the head version of the new ledger.
     */
    method MergeBranch(branchId: string) returns (r: Result<Option<string>>)
      requires Valid()
      modifies this
      ensures Valid()
      ensures branchId !in old(branches) ==> r == Err(BranchNotFound) && unchanged(this)
      ensures branchId in old(branches) ==>
        var b := old(branches)[branchId];
        && (b.parentProjectRef !in old(projects) ==> r == Err(ParentNotFound) && unchanged(this))
        && (b.parentProjectRef in old(projects) && b.projectRef !in old(projects) ==>
              r == Err(ProjectNotFound) && unchanged(this))
        && (b.parentProjectRef in old(projects) && b.projectRef in old(projects) ==>
              var ledger := old(projects)[b.projectRef].migrations;
              var replay := ReplayFrom(exec, [], ledger, 0);
              && projects == old(projects)[b.parentProjectRef := old(projects)[b.parentProjectRef].(migrations := ledger,
                                                                                                    db := replay.db)]
              && r == if replay.Completed? then Ok(LastVersion(ledger)) else Err(MigrationsNotApplied))
      ensures branches == old(branches) && branchOrder == old(branchOrder)
      ensures pendingPromotions == old(pendingPromotions) && pendingReplays == old(pendingReplays)
      ensures old(DefaultsHold()) ==> DefaultsHold()
      ensures old(LedgersWellFormed()) ==> LedgersWellFormed()
    {
      if branchId !in branches {
        return Err(BranchNotFound);
      }
      var branch := branches[branchId];
      if branch.parentProjectRef !in projects {
        return Err(ParentNotFound);
      }
      if branch.projectRef !in projects {
        return Err(ProjectNotFound);
      }
      var parentRef := branch.parentProjectRef;
      var ledger := projects[branch.projectRef].migrations;
      var replay := Reload(parentRef, ledger);
      if replay.Failed? {
        return Err(MigrationsNotApplied);
      }
      r := Ok(LastVersion(projects[parentRef].migrations));
    }

    /**
     * `POST /v1/branches/:branchId/reset`: truncate the branch project's
     * ledger to `migration_version` when one is given, reset its database,
     * replay the ledger and record the outcome in the branch status. The
     * parent is untouched unless the branch is the default one, whose project
     * is the parent itself.
     */
    method ResetBranch(branchId: string, migrationVersion: Option<string>) returns (r: Result<Option<string>>)
      requires Valid()
      modifies this
      ensures Valid()
      ensures branchId !in old(branches) ==> r == Err(BranchNotFound) && unchanged(this)
      ensures branchId in old(branches) && old(branches)[branchId].projectRef !in old(projects) ==>
        r == Err(ProjectNotFound) && unchanged(this)
      ensures branchId in old(branches) && old(branches)[branchId].projectRef in old(projects) ==>
        var b := old(branches)[branchId];
        var p := old(projects)[b.projectRef];
        var ledger := ResetLedger(p.migrations, migrationVersion);
        var replay := ReplayFrom(exec, [], ledger, 0);
        && projects == old(projects)[b.projectRef := p.(migrations := ledger, db := replay.db)]
        && branches == old(branches)[branchId := b.(status := if replay.Completed? then MigrationsPassed else MigrationsFailed)]
        && r == if replay.Completed? then Ok(LastVersion(ledger)) else Err(MigrationsNotApplied)
      ensures branchId in old(branches) && !old(branches)[branchId].isDefault ==>
        var parentRef := old(branches)[branchId].parentProjectRef;
        parentRef in old(projects) ==> parentRef in projects && projects[parentRef] == old(projects)[parentRef]
      ensures branchOrder == old(branchOrder)
      ensures pendingPromotions == old(pendingPromotions) && pendingReplays == old(pendingReplays)
      ensures old(DefaultsHold()) ==> DefaultsHold()
      ensures old(LedgersWellFormed()) ==> LedgersWellFormed()
    {
      if branchId !in branches {
        return Err(BranchNotFound);
      }
      var branch := branches[branchId];
      if branch.projectRef !in projects {
        return Err(ProjectNotFound);
      }
      var projectRef := branch.projectRef;
      // `if (body.migration_version)`, then the filter.
      var ledger := ResetLedger(projects[projectRef].migrations, migrationVersion);
      assert !branch.isDefault ==> projectRef != branch.parentProjectRef;
      var replay := Reload(projectRef, ledger);
      var status := if replay.Completed? then MigrationsPassed else MigrationsFailed;
      SetStatusKeepsInvariants(branches, branchOrder, branchId, status);
      branches := branches[branchId := branch.(status := status)];
      if replay.Failed? {
        return Err(MigrationsNotApplied);
      }
      r := Ok(LastVersion(ledger));
    }

    /**
     * `POST /v1/branches/:branchId/push` (rebase): the branch project's
     * ledger becomes a copy of the parent's, its database is reset and the
     * ledger replayed onto it; the outcome goes into the branch status. For
     * a non-default branch the parent is not modified; the default branch
     * lives in the parent itself, so rebasing it resets the parent's own
     * database and replays the parent's ledger onto it.
     */
    method RebaseBranch(branchId: string) returns (r: Result<Option<string>>)
      requires Valid()
      modifies this
      ensures Valid()
      ensures branchId !in old(branches) ==> r == Err(BranchNotFound) && unchanged(this)
      ensures branchId in old(branches) ==>
        var b := old(branches)[branchId];
        && (b.parentProjectRef !in old(projects) ==> r == Err(ParentNotFound) && unchanged(this))
        && (b.parentProjectRef in old(projects) && b.projectRef !in old(projects) ==>
              r == Err(ProjectNotFound) && unchanged(this))
        && (b.parentProjectRef in old(projects) && b.projectRef in old(projects) ==>
              var ledger := old(projects)[b.parentProjectRef].migrations;
              var replay := ReplayFrom(exec, [], ledger, 0);
              && projects == old(projects)[b.projectRef := old(projects)[b.projectRef].(migrations := ledger, db := replay.db)]
              && branches == old(branches)[branchId := b.(status := if replay.Completed? then MigrationsPassed
                                                                   else MigrationsFailed)]
              && r == if replay.Completed? then Ok(LastVersion(ledger)) else Err(MigrationsNotApplied))
      ensures branchId in old(branches) && !old(branches)[branchId].isDefault ==>
        var parentRef := old(branches)[branchId].parentProjectRef;
        parentRef in old(projects) ==> parentRef in projects && projects[parentRef] == old(projects)[parentRef]
      ensures branchId in old(branches) && old(branches)[branchId].isDefault ==>
        var parentRef := old(branches)[branchId].parentProjectRef;
        parentRef in old(projects) ==>
          var parent := old(projects)[parentRef];
          parentRef in projects && projects[parentRef] == parent.(db := ReplayFrom(exec, [], parent.migrations, 0).db)
      ensures branchOrder == old(branchOrder)
      ensures pendingPromotions == old(pendingPromotions) && pendingReplays == old(pendingReplays)
      ensures old(DefaultsHold()) ==> DefaultsHold()
      ensures old(LedgersWellFormed()) ==> LedgersWellFormed()
    {
      if branchId !in branches {
        return Err(BranchNotFound);
      }
      var branch := branches[branchId];
      if branch.parentProjectRef !in projects {
        return Err(ParentNotFound);
      }
      if branch.projectRef !in projects {
        return Err(ProjectNotFound);
      }
      var projectRef := branch.projectRef;
      var ledger := projects[branch.parentProjectRef].migrations;
      var replay := Reload(projectRef, ledger);
      var status := if replay.Completed? then MigrationsPassed else MigrationsFailed;
      SetStatusKeepsInvariants(branches, branchOrder, branchId, status);
      branches := branches[branchId := branch.(status := status)];
      if replay.Failed? {
        return Err(MigrationsNotApplied);
      }
      r := Ok(LastVersion(ledger));
    }
  }
}
