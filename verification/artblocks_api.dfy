/** The subgraph-facing half of `Utils/parseArtBlocksAPI.js`: per-contract
    paginated fetches, the first-match project search across contracts, the
    flattening of per-contract results, the curation-status workaround for
    projects whose subgraph status is null, and the birthday map. */
module ArtBlocksApi {
  import opened Common
  import opened Pagination

  /** The fields of a subgraph project that the bot reads. */
  datatype Project = Project(
    projectId: nat,
    name: string,
    invocations: int,
    active: bool,
    paused: bool,
    complete: bool,
    curationStatus: Option<string>,
    contract: string)

  /** What the subgraph holds for one core contract: its projects ordered by
      `projectId`, the offsets at which a paginated request fails, and the
      project numbers whose single-project query fails. */
  datatype ContractData = ContractData(
    id: string,
    projects: seq<Project>,
    faults: set<nat>,
    lookupFaults: set<nat>)

  const Factory: string := "factory"

  /** The rows a query with the given `where` filter selects, served with the contract's faults. */
  function Query(c: ContractData, selects: Project -> bool): Remote<Project> {
    Remote(Filter(selects, c.projects), c.faults)
  }

  predicate AnyProject(p: Project) {
    true
  }

  /** `where: { paused: false, active: true, complete: false }` */
  predicate IsOpen(p: Project) {
    !p.paused && p.active && !p.complete
  }

  /** `where: { curationStatus: 'factory', active: true }` */
  predicate IsActiveFactory(p: Project) {
    p.curationStatus == Some(Factory) && p.active
  }

  /** `where: { curationStatus: null, active: true }` */
  predicate IsActiveNull(p: Project) {
    p.curationStatus.None? && p.active
  }

  /** The records of a paginated fetch, or `undefined` when it threw. */
  function Records<T>(res: Result<Trace<T>>): Option<seq<T>> {
    match res
    case Ok(t) => Some(t.records)
    case Failed => None
  }

  /** `_getContractProjects`: every project of the contract, or `undefined`. */
  function ContractProjects(c: ContractData): (r: Option<seq<Project>>)
    ensures r.Some? <==> AnswersAll(Query(c, AnyProject))
    ensures r.Some? ==> r.value == c.projects
  {
    FilterKeepsAll(AnyProject, c.projects);
    Records(FetchAll(Query(c, AnyProject)))
  }

  /** `_getContractOpenProjects`: exactly the open projects, in order, or `undefined`. */
  function ContractOpenProjects(c: ContractData): (r: Option<seq<Project>>)
    ensures r.Some? <==> AnswersAll(Query(c, IsOpen))
    ensures r.Some? ==> r.value == Filter(IsOpen, c.projects)
    ensures r.Some? ==> forall i :: 0 <= i < |r.value| ==> IsOpen(r.value[i]) && r.value[i] in c.projects
    ensures r.Some? ==> forall i :: 0 <= i < |c.projects| && IsOpen(c.projects[i]) ==> c.projects[i] in r.value
  {
    Records(FetchAll(Query(c, IsOpen)))
  }

  /** `_getContractFactoryProjects`: exactly the active factory projects, in order, or `undefined`. */
  function ContractFactoryProjects(c: ContractData): (r: Option<seq<Project>>)
    ensures r.Some? <==> AnswersAll(Query(c, IsActiveFactory))
    ensures r.Some? ==> r.value == Filter(IsActiveFactory, c.projects)
    ensures r.Some? ==> forall i :: 0 <= i < |r.value| ==> IsActiveFactory(r.value[i]) && r.value[i] in c.projects
    ensures r.Some? ==> forall i :: 0 <= i < |c.projects| && IsActiveFactory(c.projects[i]) ==> c.projects[i] in r.value
  {
    Records(FetchAll(Query(c, IsActiveFactory)))
  }

  /** `_getContractProjectCount`: the number of projects, counted page by
      page with the minimal query, agreeing with the full fetch. */
  function ContractProjectCount(c: ContractData): (r: Option<nat>)
    ensures r.Some? <==> ContractProjects(c).Some?
    ensures r.Some? ==> r.value == |c.projects|
  {
    FilterKeepsAll(AnyProject, c.projects);
    CountAll(Query(c, AnyProject))
  }

  /** A single-project query: the project, `null` when the contract has no
      such project, or `undefined` when the query threw. */
  datatype ProjectLookup = Found(project: Project) | NotFound | Errored

  /** `_getContractProject`: the first project of the contract with that number. */
  function ContractProject(c: ContractData, projectId: nat): (l: ProjectLookup)
    ensures l.Errored? <==> projectId in c.lookupFaults
    ensures l.NotFound? <==> projectId !in c.lookupFaults && forall i :: 0 <= i < |c.projects| ==> c.projects[i].projectId != projectId
    ensures l.Found? ==> exists i :: 0 <= i < |c.projects| && c.projects[i] == l.project && l.project.projectId == projectId
  {
    if projectId in c.lookupFaults then Errored
    else
      var matches := Filter((p: Project) => p.projectId == projectId, c.projects);
      if |matches| > 0 then Found(matches[0]) else NotFound
  }

  /** `results.find(el => el !== null && el !== undefined)`. */
  function FirstFound(results: seq<ProjectLookup>): (r: Option<Project>)
    ensures r.None? <==> forall i :: 0 <= i < |results| ==> !results[i].Found?
    ensures r.Some? ==> exists i :: (0 <= i < |results| && results[i] == Found(r.value)
      && forall j :: 0 <= j < i ==> !results[j].Found?)
    decreases |results|
  {
    if results == [] then None
    else if results[0].Found? then Some(results[0].project)
    else
      var r := FirstFound(results[1..]);
      if r.Some? then
        ghost var i :| 0 <= i < |results[1..]| && results[1..][i] == Found(r.value)
          && forall j :: 0 <= j < i ==> !results[1..][j].Found?;
        assert results[i + 1] == Found(r.value);
        r
      else r
  }

  /** `getArtBlocksProject`: the first project with that number, in
      contract order, among the contracts whose query found one; `undefined`
      when none did. A contract whose query threw is skipped. */
  function ArtBlocksProject(contracts: seq<ContractData>, projectId: nat): (r: Option<Project>)
    ensures r.None? <==> forall i :: 0 <= i < |contracts| ==> !ContractProject(contracts[i], projectId).Found?
    ensures r.Some? ==> exists i :: (0 <= i < |contracts| && ContractProject(contracts[i], projectId) == Found(r.value)
      && forall j :: 0 <= j < i ==> !ContractProject(contracts[j], projectId).Found?)
  {
    var results := seq(|contracts|, i requires 0 <= i < |contracts| => ContractProject(contracts[i], projectId));
    assert forall i :: 0 <= i < |contracts| ==> results[i] == ContractProject(contracts[i], projectId);
    FirstFound(results)
  }

  // ---------------------------------------------------------------------
  // Flattening per-contract results

  function Wrap<T>(xs: seq<T>): (r: seq<Option<T>>)
    ensures |r| == |xs|
    ensures forall i :: 0 <= i < |xs| ==> r[i] == Some(xs[i])
  {
    seq(|xs|, i requires 0 <= i < |xs| => Some(xs[i]))
  }

  /** `allArrays.flat()`: each list's elements in order; an `undefined`
      list is not a list, so it stays as one `undefined` element. */
  function Flat<T>(arrays: seq<Option<seq<T>>>): seq<Option<T>>
    decreases |arrays|
  {
    if arrays == [] then []
    else
      var head := match arrays[0] case None => [None] case Some(xs) => Wrap(xs);
      head + Flat(arrays[1..])
  }

  /** The number of `undefined` elements. */
  function Holes<T>(s: seq<Option<T>>): nat
    decreases |s|
  {
    if s == [] then 0 else (if s[0].None? then 1 else 0) + Holes(s[1..])
  }

  /** The defined elements, in order. */
  function Present<T>(s: seq<Option<T>>): seq<T>
    decreases |s|
  {
    if s == [] then [] else (if s[0].Some? then [s[0].value] else []) + Present(s[1..])
  }

  /** The records of every list that was fetched, in order. */
  function Successes<T>(arrays: seq<Option<seq<T>>>): seq<T>
    decreases |arrays|
  {
    if arrays == [] then [] else (if arrays[0].Some? then arrays[0].value else []) + Successes(arrays[1..])
  }

  lemma {:induction false} HolesAppend<T>(a: seq<Option<T>>, b: seq<Option<T>>)
    ensures Holes(a + b) == Holes(a) + Holes(b)
    decreases |a|
  {
    if a != [] {
      assert (a + b)[1..] == a[1..] + b;
      HolesAppend(a[1..], b);
    } else {
      assert a + b == b;
    }
  }

  lemma {:induction false} PresentAppend<T>(a: seq<Option<T>>, b: seq<Option<T>>)
    ensures Present(a + b) == Present(a) + Present(b)
    decreases |a|
  {
    if a != [] {
      assert (a + b)[1..] == a[1..] + b;
      PresentAppend(a[1..], b);
    } else {
      assert a + b == b;
    }
  }

  lemma {:induction false} WrapIsComplete<T>(xs: seq<T>)
    ensures Holes(Wrap(xs)) == 0 && Present(Wrap(xs)) == xs
    decreases |xs|
  {
    if xs != [] {
      assert Wrap(xs)[1..] == Wrap(xs[1..]);
      WrapIsComplete(xs[1..]);
    }
  }

  /** A list that could not be fetched contributes exactly one `undefined`
      element to the flattened result, and every fetched record appears in
      it, in order. */
  lemma {:induction false} FlatKeepsFailures<T>(arrays: seq<Option<seq<T>>>)
    ensures Holes(Flat(arrays)) == Holes(arrays)
    ensures Present(Flat(arrays)) == Successes(arrays)
    decreases |arrays|
  {
    if arrays != [] {
      var head := match arrays[0] case None => [None] case Some(xs) => Wrap(xs);
      HolesAppend(head, Flat(arrays[1..]));
      PresentAppend(head, Flat(arrays[1..]));
      if arrays[0].Some? {
        WrapIsComplete(arrays[0].value);
      }
      FlatKeepsFailures(arrays[1..]);
    }
  }

  lemma {:induction false} FlatOfFetched<T>(arrays: seq<Option<seq<T>>>)
    requires forall i :: 0 <= i < |arrays| ==> arrays[i].Some?
    ensures Flat(arrays) == Wrap(Successes(arrays))
    decreases |arrays|
  {
    if arrays != [] {
      FlatOfFetched(arrays[1..]);
    }
  }

  /** `contractsToGet.map(fetch)`: one fetch per contract, in contract order. */
  function PerContract(contracts: seq<ContractData>, fetch: ContractData -> Option<seq<Project>>): (r: seq<Option<seq<Project>>>)
    ensures |r| == |contracts|
    ensures forall i :: 0 <= i < |contracts| ==> r[i] == fetch(contracts[i])
  {
    seq(|contracts|, i requires 0 <= i < |contracts| => fetch(contracts[i]))
  }

  /** The rows `rows` selects from each contract, contract by contract. */
  function AllRows(contracts: seq<ContractData>, rows: ContractData -> seq<Project>): seq<Project>
    decreases |contracts|
  {
    if contracts == [] then [] else rows(contracts[0]) + AllRows(contracts[1..], rows)
  }

  function ProjectsOf(c: ContractData): seq<Project> {
    c.projects
  }

  function OpenProjectsOf(c: ContractData): seq<Project> {
    Filter(IsOpen, c.projects)
  }

  /** When every contract answers, the flattened fetches hold every
      contract's rows, in contract order, with no hole. */
  lemma AllAnswered(contracts: seq<ContractData>, fetch: ContractData -> Option<seq<Project>>, rows: ContractData -> seq<Project>)
    requires forall i :: 0 <= i < |contracts| && fetch(contracts[i]).Some? ==> fetch(contracts[i]).value == rows(contracts[i])
    ensures (forall i :: 0 <= i < |contracts| ==> fetch(contracts[i]).Some?)
      ==> Flat(PerContract(contracts, fetch)) == Wrap(AllRows(contracts, rows))
  {
    if forall i :: 0 <= i < |contracts| ==> fetch(contracts[i]).Some? {
      FlatOfFetched(PerContract(contracts, fetch));
      SuccessesOfAll(contracts, fetch, rows);
    }
  }

  lemma {:induction false} SuccessesOfAll(contracts: seq<ContractData>, fetch: ContractData -> Option<seq<Project>>, rows: ContractData -> seq<Project>)
    requires forall i :: 0 <= i < |contracts| ==> fetch(contracts[i]) == Some(rows(contracts[i]))
    ensures Successes(PerContract(contracts, fetch)) == AllRows(contracts, rows)
    decreases |contracts|
  {
    if contracts != [] {
      assert PerContract(contracts, fetch)[1..] == PerContract(contracts[1..], fetch);
      SuccessesOfAll(contracts[1..], fetch, rows);
    }
  }

  /** `getContractsProjects`: the flattened per-contract fetches. Each
      contract whose fetch threw leaves one `undefined` element and the call
      as a whole still succeeds; when every contract answers, the result is
      every project of every contract, in contract order, with no hole. */
  function ContractsProjects(contracts: seq<ContractData>): (r: seq<Option<Project>>)
    ensures Holes(r) == Holes(PerContract(contracts, ContractProjects))
    ensures Present(r) == Successes(PerContract(contracts, ContractProjects))
    ensures (forall i :: 0 <= i < |contracts| ==> AnswersAll(Query(contracts[i], AnyProject)))
      ==> r == Wrap(AllRows(contracts, ProjectsOf))
  {
    FlatKeepsFailures(PerContract(contracts, ContractProjects));
    AllAnswered(contracts, ContractProjects, ProjectsOf);
    Flat(PerContract(contracts, ContractProjects))
  }

  /** `getContractsOpenProjects`: the flattened per-contract open-project
      fetches, with one `undefined` element per contract whose fetch threw;
      when every contract answers, every open project of every contract, in
      contract order, with no hole. */
  function ContractsOpenProjects(contracts: seq<ContractData>): (r: seq<Option<Project>>)
    ensures Holes(r) == Holes(PerContract(contracts, ContractOpenProjects))
    ensures Present(r) == Successes(PerContract(contracts, ContractOpenProjects))
    ensures forall i :: 0 <= i < |r| && r[i].Some? ==> IsOpen(r[i].value)
    ensures (forall i :: 0 <= i < |contracts| ==> AnswersAll(Query(contracts[i], IsOpen)))
      ==> r == Wrap(AllRows(contracts, OpenProjectsOf))
  {
    var arrays := PerContract(contracts, ContractOpenProjects);
    FlatKeepsFailures(arrays);
    FlatOnlyFrom(arrays, IsOpen);
    AllAnswered(contracts, ContractOpenProjects, OpenProjectsOf);
    Flat(arrays)
  }

  /** Flattening works list by list: the flattened concatenation is the
      concatenation of the flattened parts. */
  lemma {:induction false} FlatAppend<T>(a: seq<Option<seq<T>>>, b: seq<Option<seq<T>>>)
    ensures Flat(a + b) == Flat(a) + Flat(b)
    decreases |a|
  {
    if a == [] {
      assert a + b == b;
    } else {
      assert (a + b)[0] == a[0];
      assert (a + b)[1..] == a[1..] + b;
      FlatAppend(a[1..], b);
    }
  }

  lemma PerContractAppend(a: seq<ContractData>, b: seq<ContractData>, fetch: ContractData -> Option<seq<Project>>)
    ensures PerContract(a + b, fetch) == PerContract(a, fetch) + PerContract(b, fetch)
  {
    assert forall i :: 0 <= i < |a + b| ==> (a + b)[i] == if i < |a| then a[i] else b[i - |a|];
  }

  /** The flattened fetches of `a + b` are those of `a` followed by those of
      `b`, so each contract's elements sit at its own place in the result. */
  lemma ContractsProjectsAppend(a: seq<ContractData>, b: seq<ContractData>)
    ensures ContractsProjects(a + b) == ContractsProjects(a) + ContractsProjects(b)
  {
    PerContractAppend(a, b, ContractProjects);
    FlatAppend(PerContract(a, ContractProjects), PerContract(b, ContractProjects));
  }

  /** One contract contributes its projects, or one `undefined` element in
      its place when its fetch throws. */
  lemma ContractsProjectsOne(c: ContractData)
    ensures ContractsProjects([c]) == if AnswersAll(Query(c, AnyProject)) then Wrap(c.projects) else [None]
  {
    assert PerContract([c], ContractProjects) == [ContractProjects(c)];
    assert Flat([ContractProjects(c)]) == (match ContractProjects(c) case None => [None] case Some(xs) => Wrap(xs)) + Flat([]);
  }

  lemma ContractsOpenProjectsAppend(a: seq<ContractData>, b: seq<ContractData>)
    ensures ContractsOpenProjects(a + b) == ContractsOpenProjects(a) + ContractsOpenProjects(b)
  {
    PerContractAppend(a, b, ContractOpenProjects);
    FlatAppend(PerContract(a, ContractOpenProjects), PerContract(b, ContractOpenProjects));
  }

  lemma ContractsOpenProjectsOne(c: ContractData)
    ensures ContractsOpenProjects([c]) == if AnswersAll(Query(c, IsOpen)) then Wrap(Filter(IsOpen, c.projects)) else [None]
  {
    assert PerContract([c], ContractOpenProjects) == [ContractOpenProjects(c)];
    assert Flat([ContractOpenProjects(c)]) == (match ContractOpenProjects(c) case None => [None] case Some(xs) => Wrap(xs)) + Flat([]);
  }

  lemma {:induction false} FlatOnlyFrom<T>(arrays: seq<Option<seq<T>>>, p: T -> bool)
    requires forall i :: 0 <= i < |arrays| && arrays[i].Some? ==> forall j :: 0 <= j < |arrays[i].value| ==> p(arrays[i].value[j])
    ensures forall i :: 0 <= i < |Flat(arrays)| && Flat(arrays)[i].Some? ==> p(Flat(arrays)[i].value)
    decreases |arrays|
  {
    if arrays != [] {
      FlatOnlyFrom(arrays[1..], p);
    }
  }

  // ---------------------------------------------------------------------
  // Curation statuses of null-status projects

  /** `curationStatusCache`: project number to the `curation_status` the
      token API reported (`None` when it reported none). */
  type StatusCache = map<nat, Option<string>>

  /** The statuses of a list of projects (or the error that rejected
      `Promise.all`), the cache once every request has settled, and the
      project numbers requested from the token API, in list order. */
  datatype StatusRun = StatusRun(statuses: Result<seq<Option<string>>>, cache: StatusCache, fetched: seq<nat>)

  /** What the callback for a project with number `id` resolves to: the
      status cached when the call began, or the token API's answer. */
  function StatusOf(cache: StatusCache, fetchStatus: nat -> Result<Option<string>>, id: nat): Result<Option<string>> {
    if id in cache then Ok(cache[id]) else fetchStatus(id)
  }

  /** The numbers the callbacks request, in list order: one request per
      project whose number was not cached when the call began, so a number
      shared by several such projects is requested once for each. */
  function Uncached(ps: seq<Project>, cache: StatusCache): (ids: seq<nat>)
    ensures |ids| <= |ps|
    ensures forall i :: 0 <= i < |ids| ==> ids[i] !in cache
    ensures forall j :: 0 <= j < |ps| && ps[j].projectId !in cache ==> ps[j].projectId in ids
    decreases |ps|
  {
    if ps == [] then []
    else (if ps[0].projectId in cache then [] else [ps[0].projectId]) + Uncached(ps[1..], cache)
  }

  /** The cache once every request has settled: each request that answered
      has written its status for its number. All writes for one number
      write the same status, so the order in which they land is irrelevant. */
  function WriteBack(cache: StatusCache, ids: seq<nat>, fetchStatus: nat -> Result<Option<string>>): StatusCache {
    var answered := set i | 0 <= i < |ids| && fetchStatus(ids[i]).Ok? :: ids[i];
    map id | id in cache.Keys + answered :: if id in cache then cache[id] else fetchStatus(id).value
  }

  /** The lookups of `_getContractNullFactoryProjects`, under
      `Promise.all(nullProjects.map(...))`. Every callback tests the cache
      before any request settles, so each project whose number was not
      cached when the call began is requested, and each answer is written
      back. The call succeeds exactly when every request does, with the
      statuses in list order; a rejected request rejects the whole call,
      while the answers of the others are still written back. */
  function ResolveStatuses(ps: seq<Project>, cache: StatusCache, fetchStatus: nat -> Result<Option<string>>): (out: StatusRun)
    ensures forall i :: 0 <= i < |out.fetched| ==> out.fetched[i] !in cache
    ensures forall i :: 0 <= i < |ps| && ps[i].projectId !in cache ==> ps[i].projectId in out.fetched
    ensures forall id :: id in cache ==> id in out.cache && out.cache[id] == cache[id]
    ensures forall id :: id in out.cache && id !in cache ==>
      id in out.fetched && fetchStatus(id).Ok? && out.cache[id] == fetchStatus(id).value
    ensures forall i :: 0 <= i < |out.fetched| && fetchStatus(out.fetched[i]).Ok? ==> out.fetched[i] in out.cache
    ensures out.statuses.Ok? <==> forall i :: 0 <= i < |ps| && ps[i].projectId !in cache ==> fetchStatus(ps[i].projectId).Ok?
    ensures out.statuses.Ok? ==> |out.statuses.value| == |ps|
    ensures out.statuses.Ok? ==> forall i :: 0 <= i < |ps| ==>
      ps[i].projectId in out.cache && out.statuses.value[i] == out.cache[ps[i].projectId]
      && Ok(out.statuses.value[i]) == StatusOf(cache, fetchStatus, ps[i].projectId)
  {
    var ids := Uncached(ps, cache);
    var settled := forall i :: 0 <= i < |ps| ==> StatusOf(cache, fetchStatus, ps[i].projectId).Ok?;
    var statuses :=
      if settled then Ok(seq(|ps|, i requires 0 <= i < |ps| && settled => StatusOf(cache, fetchStatus, ps[i].projectId).value))
      else Failed;
    StatusRun(statuses, WriteBack(cache, ids, fetchStatus), ids)
  }

  /** Two projects sharing a number that is not cached both request it: the
      second callback tests the cache before the first answer is written. */
  lemma SharedNumberRequestedTwice(p: Project, q: Project, cache: StatusCache, fetchStatus: nat -> Result<Option<string>>)
    requires p.projectId == q.projectId && p.projectId !in cache
    ensures ResolveStatuses([p, q], cache, fetchStatus).fetched == [p.projectId, p.projectId]
  {
    assert [p, q][1..] == [q];
    assert [q][1..] == [];
    assert Uncached([q], cache) == [q.projectId];
  }

  /** `nullProjects.filter((_, i) => curationStatus[i] === 'factory')`. */
  function KeepFactory(ps: seq<Project>, statuses: seq<Option<string>>): seq<Project>
    requires |statuses| == |ps|
    decreases |ps|
  {
    if ps == [] then []
    else (if statuses[0] == Some(Factory) then [ps[0]] else []) + KeepFactory(ps[1..], statuses[1..])
  }

  /** The project's cached status is `factory`. */
  function IsFactoryIn(cache: StatusCache): Project -> bool {
    (p: Project) => p.projectId in cache && cache[p.projectId] == Some(Factory)
  }

  /** The status the call sees for the project is `factory`: the cached one
      when its number was cached, else the token API's answer. */
  function IsFactoryBy(cache: StatusCache, fetchStatus: nat -> Result<Option<string>>): Project -> bool {
    (p: Project) => StatusOf(cache, fetchStatus, p.projectId) == Ok(Some(Factory))
  }

  /** The index-wise filter keeps exactly the projects `keep` accepts, when
      `keep` accepts a project exactly when its status is `factory`. */
  lemma {:induction false} KeepFactoryFilters(ps: seq<Project>, statuses: seq<Option<string>>, keep: Project -> bool)
    requires |statuses| == |ps|
    requires forall i :: 0 <= i < |ps| ==> (keep(ps[i]) <==> statuses[i] == Some(Factory))
    ensures KeepFactory(ps, statuses) == Filter(keep, ps)
    decreases |ps|
  {
    if ps != [] {
      KeepFactoryFilters(ps[1..], statuses[1..], keep);
    }
  }

  /** A property holds of every active null-status project the query
      selects exactly when it holds of every such project of the contract. */
  lemma SelectedAll(all: seq<Project>, q: Project -> bool)
    ensures (forall k :: 0 <= k < |Filter(IsActiveNull, all)| ==> q(Filter(IsActiveNull, all)[k]))
      <==> (forall i :: 0 <= i < |all| && IsActiveNull(all[i]) ==> q(all[i]))
  {
    var selected := Filter(IsActiveNull, all);
    if forall k :: 0 <= k < |selected| ==> q(selected[k]) {
      forall i | 0 <= i < |all| && IsActiveNull(all[i])
        ensures q(all[i])
      {
        var k :| 0 <= k < |selected| && selected[k] == all[i];
      }
    } else {
      var k :| 0 <= k < |selected| && !q(selected[k]);
      var i :| 0 <= i < |all| && all[i] == selected[k];
    }
  }

  /** The project's number is cached, or its request answers. */
  function Resolvable(cache: StatusCache, fetchStatus: nat -> Result<Option<string>>): Project -> bool {
    (p: Project) => StatusOf(cache, fetchStatus, p.projectId).Ok?
  }

  /** On success, the index-wise filter keeps the projects whose status,
      as the call sees it or as cached afterwards, is `factory`. */
  lemma ResolvedFactory(ps: seq<Project>, cache: StatusCache, fetchStatus: nat -> Result<Option<string>>)
    requires ResolveStatuses(ps, cache, fetchStatus).statuses.Ok?
    ensures var run := ResolveStatuses(ps, cache, fetchStatus);
      && KeepFactory(ps, run.statuses.value) == Filter(IsFactoryBy(cache, fetchStatus), ps)
      && KeepFactory(ps, run.statuses.value) == Filter(IsFactoryIn(run.cache), ps)
  {
    var run := ResolveStatuses(ps, cache, fetchStatus);
    KeepFactoryFilters(ps, run.statuses.value, IsFactoryIn(run.cache));
    KeepFactoryFilters(ps, run.statuses.value, IsFactoryBy(cache, fetchStatus));
  }

  /** Every active null-status project whose number is not cached gets an
      answer from the token API. */
  predicate NullRequestsAnswer(c: ContractData, cache: StatusCache, fetchStatus: nat -> Result<Option<string>>) {
    forall i :: 0 <= i < |c.projects| && IsActiveNull(c.projects[i]) && c.projects[i].projectId !in cache ==>
      fetchStatus(c.projects[i].projectId).Ok?
  }

  lemma SelectedResolvable(all: seq<Project>, cache: StatusCache, fetchStatus: nat -> Result<Option<string>>)
    ensures var selected := Filter(IsActiveNull, all);
      (forall k :: 0 <= k < |selected| && selected[k].projectId !in cache ==> fetchStatus(selected[k].projectId).Ok?)
      <==> (forall i :: 0 <= i < |all| && IsActiveNull(all[i]) && all[i].projectId !in cache ==> fetchStatus(all[i].projectId).Ok?)
  {
    SelectedAll(all, Resolvable(cache, fetchStatus));
  }

  lemma SelectedCached(all: seq<Project>, cache: StatusCache)
    ensures var selected := Filter(IsActiveNull, all);
      (forall k :: 0 <= k < |selected| ==> selected[k].projectId in cache)
      ==> (forall i :: 0 <= i < |all| && IsActiveNull(all[i]) ==> all[i].projectId in cache)
  {
    SelectedAll(all, (p: Project) => p.projectId in cache);
  }

  /** The outcome of `_getContractNullFactoryProjects`: its list (or
      `undefined`), the status cache afterwards, and the numbers requested
      from the token API. */
  datatype NullFactoryRun = NullFactoryRun(projects: Option<seq<Project>>, cache: StatusCache, fetched: seq<nat>)

  /** The lookups and the filter that follow the page fetch. */
  function FactoryAmong(ps: seq<Project>, cache: StatusCache, fetchStatus: nat -> Result<Option<string>>): (out: NullFactoryRun)
    ensures out.projects.Some? <==> forall i :: 0 <= i < |ps| && ps[i].projectId !in cache ==> fetchStatus(ps[i].projectId).Ok?
    ensures out.projects.Some? ==> out.projects.value == Filter(IsFactoryBy(cache, fetchStatus), ps)
    ensures out.projects.Some? ==> out.projects.value == Filter(IsFactoryIn(out.cache), ps)
    ensures out.projects.Some? ==> forall i :: 0 <= i < |ps| ==> ps[i].projectId in out.cache
    ensures forall id :: id in cache ==> id in out.cache && out.cache[id] == cache[id]
    ensures forall id :: id in out.cache && id !in cache ==> fetchStatus(id).Ok? && out.cache[id] == fetchStatus(id).value
    ensures forall i :: 0 <= i < |out.fetched| ==> out.fetched[i] !in cache
  {
    var run := ResolveStatuses(ps, cache, fetchStatus);
    match run.statuses
    case Failed => NullFactoryRun(None, run.cache, run.fetched)
    case Ok(statuses) =>
      ResolvedFactory(ps, cache, fetchStatus);
      NullFactoryRun(Some(KeepFactory(ps, statuses)), run.cache, run.fetched)
  }

  /** `_getContractNullFactoryProjects`: the active null-status projects whose
      curation status is `factory`, in order, where a cached status wins over
      the token API. The list is defined exactly when the page fetch
      succeeds and every uncached number's request answers. A cached number
      is never requested, a cached status is never overwritten, and every
      new entry is the token API's answer. */
  function ContractNullFactoryProjects(c: ContractData, cache: StatusCache, fetchStatus: nat -> Result<Option<string>>): (out: NullFactoryRun)
    ensures out.projects.Some? <==> AnswersAll(Query(c, IsActiveNull)) && NullRequestsAnswer(c, cache, fetchStatus)
    ensures out.projects.Some? ==> out.projects.value == Filter(IsFactoryBy(cache, fetchStatus), Filter(IsActiveNull, c.projects))
    ensures out.projects.Some? ==> out.projects.value == Filter(IsFactoryIn(out.cache), Filter(IsActiveNull, c.projects))
    ensures forall id :: id in cache ==> id in out.cache && out.cache[id] == cache[id]
    ensures forall id :: id in out.cache && id !in cache ==> fetchStatus(id).Ok? && out.cache[id] == fetchStatus(id).value
    ensures forall i :: 0 <= i < |out.fetched| ==> out.fetched[i] !in cache
    ensures !AnswersAll(Query(c, IsActiveNull)) ==> out == NullFactoryRun(None, cache, [])
    ensures out.projects.Some? ==> forall i :: 0 <= i < |c.projects| && IsActiveNull(c.projects[i]) ==> c.projects[i].projectId in out.cache
  {
    match FetchAll(Query(c, IsActiveNull))
    case Failed => NullFactoryRun(None, cache, [])
    case Ok(t) =>
      var out := FactoryAmong(t.records, cache, fetchStatus);
      SelectedResolvable(c.projects, cache, fetchStatus);
      SelectedCached(c.projects, out.cache);
      out
  }

  // ---------------------------------------------------------------------
  // Birthdays

  /** A `projects_metadata` row: `"<contract>-<projectId>"` and its `start_datetime`. */
  datatype StartRow = StartRow(id: string, startDatetime: Option<string>)

  /** The last row with the given id. */
  function LastRowFor(rows: seq<StartRow>, id: string): (r: Option<StartRow>)
    ensures r.None? <==> forall i :: 0 <= i < |rows| ==> rows[i].id != id
    ensures r.Some? ==> exists i :: (0 <= i < |rows| && rows[i] == r.value && r.value.id == id
      && forall j :: i < j < |rows| ==> rows[j].id != id)
    decreases |rows|
  {
    if rows == [] then None
    else
      var rest := LastRowFor(rows[1..], id);
      if rest.Some? then
        ghost var i :| 0 <= i < |rows[1..]| && rows[1..][i] == rest.value && rest.value.id == id
          && forall j :: i < j < |rows[1..]| ==> rows[1..][j].id != id;
        assert rows[i + 1] == rest.value;
        rest
      else if rows[0].id == id then Some(rows[0])
      else None
  }

  /** `allProjects.forEach(proj => bdayMapping[proj.id] = proj.start_datetime)`. */
  function AssignAll(m: map<string, Option<string>>, rows: seq<StartRow>): map<string, Option<string>>
    decreases |rows|
  {
    if rows == [] then m else AssignAll(m[rows[0].id := rows[0].startDatetime], rows[1..])
  }

  lemma {:induction false} AssignAllLastWins(m: map<string, Option<string>>, rows: seq<StartRow>)
    ensures forall k :: LastRowFor(rows, k).Some? ==>
      k in AssignAll(m, rows) && AssignAll(m, rows)[k] == LastRowFor(rows, k).value.startDatetime
    ensures forall k :: LastRowFor(rows, k).None? ==>
      (k in AssignAll(m, rows) <==> k in m) && (k in m ==> AssignAll(m, rows)[k] == m[k])
    decreases |rows|
  {
    if rows != [] {
      AssignAllLastWins(m[rows[0].id := rows[0].startDatetime], rows[1..]);
    }
  }

  /** `getProjectsBirthdays`: id to `start_datetime`, a later row
      overwriting an earlier one with the same id; the empty map when any
      request throws. */
  function ProjectsBirthdays(r: Remote<StartRow>): (m: map<string, Option<string>>)
    ensures !AnswersAll(r) ==> m == map[]
    ensures AnswersAll(r) ==> forall k :: k in m <==> LastRowFor(r.rows, k).Some?
    ensures AnswersAll(r) ==> forall k :: k in m ==> m[k] == LastRowFor(r.rows, k).value.startDatetime
  {
    match FetchAll(r)
    case Failed => map[]
    case Ok(t) =>
      AssignAllLastWins(map[], t.records);
      AssignAll(map[], t.records)
  }
}
