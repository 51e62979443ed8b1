/** Grouping retained owners into quarantined claims under the owner's reviewed mappings, and the calls that
    carry an import through its stores. */
module LegacyOwners {
  import opened Sums
  import opened AdmissionModel

  datatype RepositoryRow = RepositoryRow(binding: Hash, keys: seq<ResourceKey>, evidence: Hash)
  datatype RunnerRow = RunnerRow(record: Hash, key: ResourceKey, evidence: Hash)
  datatype Configuration = Configuration(repositories: map<Hash, RepositoryRow>, runners: map<Hash, RunnerRow>)

  predicate ValidRepositoryRow(r: RepositoryRow) {
    1 <= |r.keys| <= 4 && (forall key | key in r.keys :: !key.Runner?) && Distinct(r.keys)
  }

  predicate ValidConfiguration(repositories: seq<RepositoryRow>, runners: seq<RunnerRow>) {
    && |repositories| <= 2000 && |runners| <= 2000
    && (forall i | 0 <= i < |repositories| :: ValidRepositoryRow(repositories[i]))
    && (forall i, j | 0 <= i < j < |repositories| :: repositories[i].binding != repositories[j].binding)
    && (forall i | 0 <= i < |runners| :: runners[i].key.Runner?)
    && (forall i, j | 0 <= i < j < |runners| :: runners[i].record != runners[j].record)
  }

  /** The mappings are accepted exactly when no binding and no record is mapped twice; then each row is found under its name. */
  method Configure(repositories: seq<RepositoryRow>, runners: seq<RunnerRow>) returns (c: Option<Configuration>)
    ensures c.Some? <==> ValidConfiguration(repositories, runners)
    ensures c.Some? ==> c.value.repositories.Keys == (set r | r in repositories :: r.binding)
                        && forall r | r in repositories :: r.binding in c.value.repositories && c.value.repositories[r.binding] == r
    ensures c.Some? ==> c.value.runners.Keys == (set r | r in runners :: r.record)
                        && forall r | r in runners :: r.record in c.value.runners && c.value.runners[r.record] == r
  {
    if |repositories| > 2000 || |runners| > 2000 { return None; }
    var repos := MapRepositories(repositories);
    if repos.None? { return None; }
    var found := MapRunners(runners);
    if found.None? { return None; }
    c := Some(Configuration(repos.value, found.value));
  }

  method MapRepositories(rows: seq<RepositoryRow>) returns (m: Option<map<Hash, RepositoryRow>>)
    ensures m.Some? <==> (forall i | 0 <= i < |rows| :: ValidRepositoryRow(rows[i]))
                         && forall i, j | 0 <= i < j < |rows| :: rows[i].binding != rows[j].binding
    ensures m.Some? ==> m.value.Keys == (set r | r in rows :: r.binding)
                        && forall r | r in rows :: r.binding in m.value && m.value[r.binding] == r
  {
    var repos: map<Hash, RepositoryRow> := map[];
    for i := 0 to |rows|
      invariant repos.Keys == set j | 0 <= j < i :: rows[j].binding
      invariant forall j | 0 <= j < i :: ValidRepositoryRow(rows[j]) && repos[rows[j].binding] == rows[j]
      invariant forall j, l | 0 <= j < l < i :: rows[j].binding != rows[l].binding
    {
      var row := rows[i];
      if row.binding in repos || !ValidRepositoryRow(row) { return None; }
      repos := repos[row.binding := row];
    }
    m := Some(repos);
  }

  method MapRunners(rows: seq<RunnerRow>) returns (m: Option<map<Hash, RunnerRow>>)
    ensures m.Some? <==> (forall i | 0 <= i < |rows| :: rows[i].key.Runner?)
                         && forall i, j | 0 <= i < j < |rows| :: rows[i].record != rows[j].record
    ensures m.Some? ==> m.value.Keys == (set r | r in rows :: r.record)
                        && forall r | r in rows :: r.record in m.value && m.value[r.record] == r
  {
    var found: map<Hash, RunnerRow> := map[];
    for i := 0 to |rows|
      invariant found.Keys == set j | 0 <= j < i :: rows[j].record
      invariant forall j | 0 <= j < i :: rows[j].key.Runner? && found[rows[j].record] == rows[j]
      invariant forall j, l | 0 <= j < l < i :: rows[j].record != rows[l].record
    {
      var row := rows[i];
      if row.record in found || !row.key.Runner? { return None; }
      found := found[row.record := row];
    }
    m := Some(found);
  }

  // ---------- one claim per retained worker ----------

  function ClaimId(enrollmentId: Id, o: Owner): (Id, Id, Id) {
    (enrollmentId, o.workspaceId, o.workerId)
  }

  function Mapped(c: Configuration, o: Owner): Option<(set<ResourceKey>, Hash)> {
    match o
    case WorkerOwner(_, _, binding, _, _) =>
      if binding.Some? && binding.value in c.repositories
      then Some((Elements(c.repositories[binding.value].keys), c.repositories[binding.value].evidence)) else None
    case RunnerOwner(_, _, record) =>
      if record in c.runners then Some(({c.runners[record].key}, c.runners[record].evidence)) else None
  }

  function KeysOf(c: Configuration): Owner -> set<ResourceKey> {
    o => if Mapped(c, o).Some? then Mapped(c, o).value.0 else {}
  }

  function EvidenceOf(c: Configuration): Owner -> set<Hash> {
    o => if Mapped(c, o).Some? then {Mapped(c, o).value.1} else {}
  }

  function NativesOf(): Owner -> set<Native> {
    (o: Owner) => if o.WorkerOwner? && o.native.Some? then {o.native.value} else {}
  }

  function PendingOf(): Owner -> set<Id> {
    (o: Owner) => if o.WorkerOwner? && o.clientThread.Some? then {o.clientThread.value} else {}
  }

  function IssuesOf(c: Configuration): Owner -> set<LegacyIssue> {
    (o: Owner) =>
      if o.WorkerOwner?
      then (if Mapped(c, o).Some? then {} else {RepositoryMappingUnknown}) + (if o.native.Some? then {} else {NativeUnresolved})
      else if Mapped(c, o).Some? then {} else {RunnerMappingUnknown}
  }

  function UsedBindings(c: Configuration): Owner -> set<Hash> {
    (o: Owner) => if o.WorkerOwner? && Mapped(c, o).Some? then {o.binding.value} else {}
  }

  function UsedRecords(c: Configuration): Owner -> set<Hash> {
    (o: Owner) => if o.RunnerOwner? && Mapped(c, o).Some? then {o.record} else {}
  }

  function Gather<T>(owners: seq<Owner>, f: Owner -> set<T>): set<T> {
    if owners == [] then {} else Gather(owners[..|owners| - 1], f) + f(owners[|owners| - 1])
  }

  lemma {:induction false} Gathered<T>(owners: seq<Owner>, f: Owner -> set<T>, x: T)
    ensures x in Gather(owners, f) <==> exists o | o in owners :: x in f(o)
  {
    if owners != [] {
      var last := owners[|owners| - 1];
      Gathered(owners[..|owners| - 1], f, x);
      assert owners == owners[..|owners| - 1] + [last];
      if x in f(last) { assert last in owners; }
    }
  }

  /** The owners that belong to one claim, in their order. */
  function Versions(enrollmentId: Id, owners: seq<Owner>, id: (Id, Id, Id)): seq<Owner> {
    if owners == [] then []
    else Versions(enrollmentId, owners[..|owners| - 1], id)
         + if ClaimId(enrollmentId, owners[|owners| - 1]) == id then [owners[|owners| - 1]] else []
  }

  function Names(enrollmentId: Id, owners: seq<Owner>): set<(Id, Id, Id)> {
    set i | 0 <= i < |owners| :: ClaimId(enrollmentId, owners[i])
  }

  /** What has been collected from the versions seen so far. */
  datatype Tally = Tally(keys: set<ResourceKey>, natives: set<Native>, pending: set<Id>, evidence: set<Hash>,
                         issues: set<LegacyIssue>, bindings: set<Hash>, records: set<Hash>)

  function Tallied(versions: seq<Owner>, c: Configuration): Tally {
    Tally(Gather(versions, KeysOf(c)), Gather(versions, NativesOf()), Gather(versions, PendingOf()), Gather(versions, EvidenceOf(c)),
          Gather(versions, IssuesOf(c)), Gather(versions, UsedBindings(c)), Gather(versions, UsedRecords(c)))
  }

  function Absorb(t: Tally, c: Configuration, o: Owner): Tally {
    Tally(t.keys + KeysOf(c)(o), t.natives + NativesOf()(o), t.pending + PendingOf()(o), t.evidence + EvidenceOf(c)(o),
          t.issues + IssuesOf(c)(o), t.bindings + UsedBindings(c)(o), t.records + UsedRecords(c)(o))
  }

  predicate HasWorker(versions: seq<Owner>) {
    exists v | v in versions :: v.WorkerOwner?
  }

  function FinishClaim(id: (Id, Id, Id), versions: seq<Owner>, t: Tally, worker: bool): LegacyClaim {
    LegacyClaim(id, versions, t.keys, t.natives, t.pending, t.evidence,
                t.issues + (if worker then {} else {RunnerWithoutWorker}) + (if |t.natives| > 1 then {ConflictingNatives} else {}))
  }

  /** The claim of one worker: everything its versions map to, and every gap they leave. */
  function ClaimOf(id: (Id, Id, Id), versions: seq<Owner>, c: Configuration): LegacyClaim {
    FinishClaim(id, versions, Tallied(versions, c), HasWorker(versions))
  }

  lemma TalliedStep(versions: seq<Owner>, i: nat, c: Configuration)
    requires i < |versions|
    ensures Tallied(versions[..i + 1], c) == Absorb(Tallied(versions[..i], c), c, versions[i])
  {
    assert versions[..i + 1][..i] == versions[..i];
  }

  lemma WorkerStep(versions: seq<Owner>, i: nat)
    requires i < |versions|
    ensures HasWorker(versions[..i + 1]) <==> HasWorker(versions[..i]) || versions[i].WorkerOwner?
  {
    assert versions[..i + 1] == versions[..i] + [versions[i]];
    assert versions[i] in versions[..i + 1];
  }

  method BuildClaim(id: (Id, Id, Id), versions: seq<Owner>, c: Configuration)
    returns (claim: LegacyClaim, bindings: set<Hash>, records: set<Hash>)
    ensures claim == ClaimOf(id, versions, c)
    ensures bindings == Gather(versions, UsedBindings(c)) && records == Gather(versions, UsedRecords(c))
  {
    var t := Tally({}, {}, {}, {}, {}, {}, {});
    var worker := false;
    for i := 0 to |versions|
      invariant t == Tallied(versions[..i], c)
      invariant worker <==> HasWorker(versions[..i])
    {
      TalliedStep(versions, i, c);
      WorkerStep(versions, i);
      t := Absorb(t, c, versions[i]);
      worker := worker || versions[i].WorkerOwner?;
    }
    assert versions[..|versions|] == versions;
    claim, bindings, records := FinishClaim(id, versions, t, worker), t.bindings, t.records;
  }

  predicate MappingsUsed(owners: seq<Owner>, c: Configuration) {
    && c.repositories.Keys == Gather(owners, UsedBindings(c))
    && c.runners.Keys == Gather(owners, UsedRecords(c))
  }

  /** `claims` holds `g(id)` for each `id` among `done`, once, in some order. */
  ghost predicate Listed<K>(done: set<K>, g: K -> LegacyClaim, name: LegacyClaim -> K, claims: seq<LegacyClaim>) {
    && (forall i, j | 0 <= i < j < |claims| :: name(claims[i]) != name(claims[j]))
    && (forall i | 0 <= i < |claims| :: name(claims[i]) in done && claims[i] == g(name(claims[i])))
    && (forall id | id in done :: exists i | 0 <= i < |claims| :: name(claims[i]) == id)
  }

  lemma ListedPush<K>(done: set<K>, g: K -> LegacyClaim, name: LegacyClaim -> K, claims: seq<LegacyClaim>, id: K)
    requires Listed(done, g, name, claims) && id !in done && name(g(id)) == id
    ensures Listed(done + {id}, g, name, claims + [g(id)])
  {
    var all := claims + [g(id)];
    forall x | x in done + {id} ensures exists i | 0 <= i < |all| :: name(all[i]) == x {
      if x == id {
        assert name(all[|claims|]) == x;
      } else {
        var i :| 0 <= i < |claims| && name(claims[i]) == x;
        assert name(all[i]) == x;
      }
    }
  }

  function NameOf(): LegacyClaim -> (Id, Id, Id) {
    (c: LegacyClaim) => c.id
  }

  function ClaimIn(groups: map<(Id, Id, Id), seq<Owner>>, c: Configuration): ((Id, Id, Id)) -> LegacyClaim {
    (id: (Id, Id, Id)) => ClaimOf(id, if id in groups then groups[id] else [], c)
  }

  ghost predicate GroupsAll(enrollmentId: Id, owners: seq<Owner>, c: Configuration, claims: seq<LegacyClaim>) {
    && (forall i, j | 0 <= i < j < |claims| :: claims[i].id != claims[j].id)
    && (forall id :: id in Names(enrollmentId, owners) <==> exists i | 0 <= i < |claims| :: claims[i].id == id)
    && (forall i | 0 <= i < |claims| :: claims[i] == ClaimOf(claims[i].id, Versions(enrollmentId, owners, claims[i].id), c))
  }

  ghost predicate UnionOver<K, X(!new)>(done: set<K>, h: K -> set<X>, used: set<X>) {
    forall x :: x in used <==> exists id | id in done :: x in h(id)
  }

  lemma UnionPush<K, X(!new)>(done: set<K>, h: K -> set<X>, used: set<X>, id: K)
    requires UnionOver(done, h, used)
    ensures UnionOver(done + {id}, h, used + h(id))
  {
  }

  // The groups are visited in some order, each once.
  function Elems<K>(order: seq<K>): set<K> {
    if order == [] then {} else Elems(order[..|order| - 1]) + {order[|order| - 1]}
  }

  predicate Once<K(==)>(order: seq<K>) {
    order == [] || (Once(order[..|order| - 1]) && order[|order| - 1] !in Elems(order[..|order| - 1]))
  }

  function Each<K, V>(order: seq<K>, g: K -> V): seq<V> {
    if order == [] then [] else Each(order[..|order| - 1], g) + [g(order[|order| - 1])]
  }

  function United<K, X>(order: seq<K>, h: K -> set<X>): set<X> {
    if order == [] then {} else United(order[..|order| - 1], h) + h(order[|order| - 1])
  }

  lemma {:induction false} EachIsListed<K>(order: seq<K>, g: K -> LegacyClaim, name: LegacyClaim -> K)
    requires Once(order) && forall id | id in Elems(order) :: name(g(id)) == id
    ensures Listed(Elems(order), g, name, Each(order, g))
  {
    if order != [] {
      var before := order[..|order| - 1];
      EachIsListed(before, g, name);
      ListedPush(Elems(before), g, name, Each(before, g), order[|order| - 1]);
    }
  }

  lemma {:induction false} UnitedIsUnion<K, X(!new)>(order: seq<K>, h: K -> set<X>)
    ensures UnionOver(Elems(order), h, United(order, h))
  {
    if order != [] {
      var before := order[..|order| - 1];
      UnitedIsUnion(before, h);
      UnionPush(Elems(before), h, United(before, h), order[|order| - 1]);
    }
  }

  function UsedIn(groups: map<(Id, Id, Id), seq<Owner>>, f: Owner -> set<Hash>): ((Id, Id, Id)) -> set<Hash> {
    (id: (Id, Id, Id)) => Gather(if id in groups then groups[id] else [], f)
  }

  /** The owners seen so far, in order, under the name of each claim. */
  ghost predicate Grouped(enrollmentId: Id, owners: seq<Owner>, groups: map<(Id, Id, Id), seq<Owner>>) {
    && groups.Keys == Names(enrollmentId, owners)
    && forall id :: Versions(enrollmentId, owners, id) == if id in groups then groups[id] else []
  }

  lemma GroupedPush(enrollmentId: Id, owners: seq<Owner>, groups: map<(Id, Id, Id), seq<Owner>>, i: nat)
    requires i < |owners| && Grouped(enrollmentId, owners[..i], groups)
    ensures var id := ClaimId(enrollmentId, owners[i]);
            Grouped(enrollmentId, owners[..i + 1], groups[id := (if id in groups then groups[id] else []) + [owners[i]]])
  {
    assert owners[..i + 1][..i] == owners[..i];
    NamesPush(enrollmentId, owners, i);
  }

  method GroupOwners(enrollmentId: Id, owners: seq<Owner>) returns (groups: map<(Id, Id, Id), seq<Owner>>)
    ensures Grouped(enrollmentId, owners, groups)
  {
    groups := map[];
    for i := 0 to |owners|
      invariant Grouped(enrollmentId, owners[..i], groups)
    {
      var id := ClaimId(enrollmentId, owners[i]);
      GroupedPush(enrollmentId, owners, groups, i);
      groups := groups[id := (if id in groups then groups[id] else []) + [owners[i]]];
    }
    assert owners[..|owners|] == owners;
  }

  /** Names for what one group yields, so that the loop over the groups need not look inside. */
  datatype Yield = Yield(claim: ((Id, Id, Id)) -> LegacyClaim, bindings: ((Id, Id, Id)) -> set<Hash>, records: ((Id, Id, Id)) -> set<Hash>)

  ghost predicate Yields(y: Yield, groups: map<(Id, Id, Id), seq<Owner>>, c: Configuration) {
    && (forall id {:trigger ClaimOf(id, groups[id], c)} | id in groups :: y.claim(id) == ClaimOf(id, groups[id], c))
    && (forall id {:trigger Gather(groups[id], UsedBindings(c))} | id in groups :: y.bindings(id) == Gather(groups[id], UsedBindings(c)))
    && (forall id {:trigger Gather(groups[id], UsedRecords(c))} | id in groups :: y.records(id) == Gather(groups[id], UsedRecords(c)))
  }

  method BuildOne(groups: map<(Id, Id, Id), seq<Owner>>, c: Configuration, id: (Id, Id, Id), ghost y: Yield)
    returns (claim: LegacyClaim, bindings: set<Hash>, records: set<Hash>)
    requires id in groups && Yields(y, groups, c)
    ensures claim == y.claim(id) && claim.id == id && bindings == y.bindings(id) && records == y.records(id)
  {
    claim, bindings, records := BuildClaim(id, groups[id], c);
  }

  /** What the loop over the groups has made of the names it has visited. */
  ghost predicate Built(names: set<(Id, Id, Id)>, rest: set<(Id, Id, Id)>, order: seq<(Id, Id, Id)>, y: Yield,
                        claims: seq<LegacyClaim>, bindings: set<Hash>, records: set<Hash>) {
    && rest <= names && Elems(order) == names - rest && Once(order)
    && claims == Each(order, y.claim) && bindings == United(order, y.bindings) && records == United(order, y.records)
  }

  lemma BuiltPush(names: set<(Id, Id, Id)>, rest: set<(Id, Id, Id)>, order: seq<(Id, Id, Id)>, y: Yield,
                  claims: seq<LegacyClaim>, bindings: set<Hash>, records: set<Hash>, id: (Id, Id, Id))
    requires Built(names, rest, order, y, claims, bindings, records) && id in rest
    ensures Built(names, rest - {id}, order + [id], y, claims + [y.claim(id)], bindings + y.bindings(id), records + y.records(id))
  {
    assert (order + [id])[..|order|] == order;
  }

  method BuildClaims(groups: map<(Id, Id, Id), seq<Owner>>, c: Configuration, ghost y: Yield)
    returns (claims: seq<LegacyClaim>, bindings: set<Hash>, records: set<Hash>, ghost order: seq<(Id, Id, Id)>)
    requires Yields(y, groups, c)
    ensures Built(groups.Keys, {}, order, y, claims, bindings, records)
  {
    claims, bindings, records, order := [], {}, {}, [];
    var rest := groups.Keys;
    while rest != {}
      invariant Built(groups.Keys, rest, order, y, claims, bindings, records)
      decreases |rest|
    {
      var id :| id in rest;
      var claim, b, r := BuildOne(groups, c, id, y);
      BuiltPush(groups.Keys, rest, order, y, claims, bindings, records, id);
      order := order + [id];
      claims, bindings, records := claims + [claim], bindings + b, records + r;
      rest := rest - {id};
    }
  }

  /** Every retained owner goes to the claim of its worker, no mapping is left unreferenced, and nothing is invented. */
  method ClaimsFor(enrollmentId: Id, owners: seq<Owner>, c: Configuration) returns (claims: Option<seq<LegacyClaim>>)
    ensures claims.Some? <==> MappingsUsed(owners, c)
    ensures claims.Some? ==> GroupsAll(enrollmentId, owners, c, claims.value)
  {
    var groups := GroupOwners(enrollmentId, owners);
    ghost var y := Yield(ClaimIn(groups, c), UsedIn(groups, UsedBindings(c)), UsedIn(groups, UsedRecords(c)));
    assert Yields(y, groups, c);
    var list, bindings, records, order := BuildClaims(groups, c, y);
    BuiltMeans(enrollmentId, owners, c, groups, order, list, bindings, records);
    if bindings != c.repositories.Keys || records != c.runners.Keys { return None; }
    claims := Some(list);
  }

  lemma BuiltMeans(enrollmentId: Id, owners: seq<Owner>, c: Configuration, groups: map<(Id, Id, Id), seq<Owner>>,
                   order: seq<(Id, Id, Id)>, list: seq<LegacyClaim>, bindings: set<Hash>, records: set<Hash>)
    requires Grouped(enrollmentId, owners, groups)
    requires Built(groups.Keys, {}, order, Yield(ClaimIn(groups, c), UsedIn(groups, UsedBindings(c)), UsedIn(groups, UsedRecords(c))),
                   list, bindings, records)
    ensures bindings == Gather(owners, UsedBindings(c)) && records == Gather(owners, UsedRecords(c))
    ensures GroupsAll(enrollmentId, owners, c, list)
  {
    assert Elems(order) == groups.Keys;
    UnitedIsUnion(order, UsedIn(groups, UsedBindings(c)));
    UnitedIsUnion(order, UsedIn(groups, UsedRecords(c)));
    UsedByGroups(enrollmentId, owners, groups, UsedBindings(c), bindings);
    UsedByGroups(enrollmentId, owners, groups, UsedRecords(c), records);
    AllListed(enrollmentId, owners, c, groups, order);
  }

  lemma AllListed(enrollmentId: Id, owners: seq<Owner>, c: Configuration, groups: map<(Id, Id, Id), seq<Owner>>, order: seq<(Id, Id, Id)>)
    requires Grouped(enrollmentId, owners, groups) && Once(order) && Elems(order) == groups.Keys
    ensures GroupsAll(enrollmentId, owners, c, Each(order, ClaimIn(groups, c)))
  {
    EachIsListed(order, ClaimIn(groups, c), NameOf());
    ListedGroups(enrollmentId, owners, c, groups, Each(order, ClaimIn(groups, c)));
  }

  lemma ListedGroups(enrollmentId: Id, owners: seq<Owner>, c: Configuration, groups: map<(Id, Id, Id), seq<Owner>>, list: seq<LegacyClaim>)
    requires Grouped(enrollmentId, owners, groups)
    requires Listed(groups.Keys, ClaimIn(groups, c), NameOf(), list)
    ensures GroupsAll(enrollmentId, owners, c, list)
  {
    var g, name := ClaimIn(groups, c), NameOf();
    forall i | 0 <= i < |list| ensures list[i] == ClaimOf(list[i].id, Versions(enrollmentId, owners, list[i].id), c) {
      assert list[i] == g(name(list[i]));
    }
    forall id ensures id in Names(enrollmentId, owners) <==> exists i | 0 <= i < |list| :: list[i].id == id {
      if id in groups {
        var i :| 0 <= i < |list| && name(list[i]) == id;
        assert list[i].id == id;
      } else {
        assert forall i | 0 <= i < |list| :: name(list[i]) in groups.Keys;
      }
    }
    forall i, j | 0 <= i < j < |list| ensures list[i].id != list[j].id {
      assert name(list[i]) != name(list[j]);
    }
  }

  lemma NamesPush(enrollmentId: Id, owners: seq<Owner>, i: nat)
    requires i < |owners|
    ensures Names(enrollmentId, owners[..i + 1]) == Names(enrollmentId, owners[..i]) + {ClaimId(enrollmentId, owners[i])}
  {
    var a, b := owners[..i + 1], owners[..i];
    assert forall j | 0 <= j < i :: a[j] == b[j];
    assert a[i] == owners[i];
  }

  /** Membership in a group is membership in the owners under that name. */
  lemma {:induction false} VersionsAreOwners(enrollmentId: Id, owners: seq<Owner>, id: (Id, Id, Id), o: Owner)
    ensures o in Versions(enrollmentId, owners, id) <==> o in owners && ClaimId(enrollmentId, o) == id
  {
    if owners != [] {
      VersionsAreOwners(enrollmentId, owners[..|owners| - 1], id, o);
      assert owners == owners[..|owners| - 1] + [owners[|owners| - 1]];
    }
  }

  lemma UsedByGroups(enrollmentId: Id, owners: seq<Owner>, groups: map<(Id, Id, Id), seq<Owner>>, f: Owner -> set<Hash>, used: set<Hash>)
    requires Grouped(enrollmentId, owners, groups)
    requires UnionOver(groups.Keys, UsedIn(groups, f), used)
    ensures used == Gather(owners, f)
  {
    var h := UsedIn(groups, f);
    forall x ensures x in used <==> x in Gather(owners, f) {
      Gathered(owners, f, x);
      if x in used {
        var id :| id in groups.Keys && x in h(id);
        Gathered(groups[id], f, x);
        var o :| o in groups[id] && x in f(o);
        VersionsAreOwners(enrollmentId, owners, id, o);
      }
      if o :| o in owners && x in f(o) {
        var id := ClaimId(enrollmentId, o);
        var k :| 0 <= k < |owners| && owners[k] == o;
        assert id in Names(enrollmentId, owners);
        VersionsAreOwners(enrollmentId, owners, id, o);
        Gathered(groups[id], f, x);
        assert id in groups.Keys && x in h(id);
      }
    }
  }

  /** Each retained owner is a version of exactly one claim, so a bundle of these claims is accepted for import. */
  lemma EachOwnerOnce(enrollmentId: Id, owners: seq<Owner>, c: Configuration, claims: seq<LegacyClaim>, o: Owner)
    requires GroupsAll(enrollmentId, owners, c, claims) && o in owners
    ensures exists i | 0 <= i < |claims| :: o in claims[i].versions && forall j | 0 <= j < |claims| && j != i :: o !in claims[j].versions
  {
    var k :| 0 <= k < |owners| && owners[k] == o;
    var id := ClaimId(enrollmentId, o);
    assert id in Names(enrollmentId, owners);
    var i :| 0 <= i < |claims| && claims[i].id == id;
    forall j | 0 <= j < |claims| ensures o in claims[j].versions <==> j == i {
      VersionsAreOwners(enrollmentId, owners, claims[j].id, o);
      assert claims[j].id == id ==> j == i;
    }
    assert o in claims[i].versions;
  }

  lemma ClaimsAreImportable(bundle: Bundle, owners: seq<Owner>, c: Configuration)
    requires GroupsAll(bundle.enrollmentId, owners, c, bundle.claims) && ValidPolicy(bundle.policy) && |bundle.claims| <= 2000
    ensures ValidBundle(bundle)
  {
    forall i | 0 <= i < |bundle.claims| ensures bundle.claims[i].id.0 == bundle.enrollmentId && bundle.claims[i].versions != [] {
      var id := bundle.claims[i].id;
      assert id in Names(bundle.enrollmentId, owners);
      var k :| 0 <= k < |owners| && ClaimId(bundle.enrollmentId, owners[k]) == id;
      VersionsAreOwners(bundle.enrollmentId, owners, id, owners[k]);
    }
  }
}
