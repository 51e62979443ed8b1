/** What a quarantined claim holds, in the fields of the owners it was grouped from. */
module LegacyLaws {
  import opened Sums
  import opened AdmissionModel
  import opened LegacyOwners

  /** The owner's reviewed mapping names this key, or gives this evidence, for this owner. */
  predicate MapsTo(c: Configuration, o: Owner, key: ResourceKey) {
    match o
    case WorkerOwner(_, _, binding, _, _) => binding.Some? && binding.value in c.repositories && key in c.repositories[binding.value].keys
    case RunnerOwner(_, _, record) => record in c.runners && key == c.runners[record].key
  }

  predicate Evidences(c: Configuration, o: Owner, evidence: Hash) {
    match o
    case WorkerOwner(_, _, binding, _, _) => binding.Some? && binding.value in c.repositories && evidence == c.repositories[binding.value].evidence
    case RunnerOwner(_, _, record) => record in c.runners && evidence == c.runners[record].evidence
  }

  predicate Unmapped(c: Configuration, o: Owner) {
    match o
    case WorkerOwner(_, _, binding, _, _) => binding.None? || binding.value !in c.repositories
    case RunnerOwner(_, _, record) => record !in c.runners
  }

  lemma KeysExactly(id: (Id, Id, Id), versions: seq<Owner>, c: Configuration, key: ResourceKey, evidence: Hash)
    ensures key in ClaimOf(id, versions, c).resourceKeys <==> exists o | o in versions :: MapsTo(c, o, key)
    ensures evidence in ClaimOf(id, versions, c).evidence <==> exists o | o in versions :: Evidences(c, o, evidence)
  {
    Gathered(versions, KeysOf(c), key);
    Gathered(versions, EvidenceOf(c), evidence);
    forall o ensures key in KeysOf(c)(o) <==> MapsTo(c, o, key) {
      if o.WorkerOwner? && o.binding.Some? && o.binding.value in c.repositories {
        assert key in Elements(c.repositories[o.binding.value].keys) <==> key in c.repositories[o.binding.value].keys;
      }
    }
    assert forall o :: evidence in EvidenceOf(c)(o) <==> Evidences(c, o, evidence);
  }

  /** Some version is a worker's that was bound to this native task. */
  predicate NamesNative(versions: seq<Owner>, n: Native) {
    exists o | o in versions :: o.WorkerOwner? && o.native == Some(n)
  }

  lemma NativesExactly(id: (Id, Id, Id), versions: seq<Owner>, c: Configuration, n: Native, client: Id)
    ensures n in ClaimOf(id, versions, c).natives <==> NamesNative(versions, n)
    ensures client in ClaimOf(id, versions, c).pending <==> exists o | o in versions :: o.WorkerOwner? && o.clientThread == Some(client)
  {
    Gathered(versions, NativesOf(), n);
    Gathered(versions, PendingOf(), client);
    assert forall o: Owner :: n in NativesOf()(o) <==> o.WorkerOwner? && o.native == Some(n);
    assert forall o: Owner :: client in PendingOf()(o) <==> o.WorkerOwner? && o.clientThread == Some(client);
  }

  lemma GathersIssue(versions: seq<Owner>, c: Configuration, issue: LegacyIssue)
    ensures issue in Gather(versions, IssuesOf(c))
            <==> match issue
                 case RepositoryMappingUnknown => exists o | o in versions :: o.WorkerOwner? && Unmapped(c, o)
                 case NativeUnresolved => exists o | o in versions :: o.WorkerOwner? && o.native.None?
                 case RunnerMappingUnknown => exists o | o in versions :: o.RunnerOwner? && Unmapped(c, o)
                 case _ => false
  {
    Gathered(versions, IssuesOf(c), issue);
    assert forall o: Owner :: issue in IssuesOf(c)(o)
             <==> (issue == RepositoryMappingUnknown && o.WorkerOwner? && Unmapped(c, o))
                  || (issue == NativeUnresolved && o.WorkerOwner? && o.native.None?)
                  || (issue == RunnerMappingUnknown && o.RunnerOwner? && Unmapped(c, o));
  }

  /** Each gap of a claim is named exactly when some version leaves it, when no version is a worker's own, or when two
      versions name different native tasks. */
  lemma IssuesExactly(id: (Id, Id, Id), versions: seq<Owner>, c: Configuration)
    ensures var claim := ClaimOf(id, versions, c);
            && (RepositoryMappingUnknown in claim.issues <==> exists o | o in versions :: o.WorkerOwner? && Unmapped(c, o))
            && (NativeUnresolved in claim.issues <==> exists o | o in versions :: o.WorkerOwner? && o.native.None?)
            && (RunnerMappingUnknown in claim.issues <==> exists o | o in versions :: o.RunnerOwner? && Unmapped(c, o))
            && (RunnerWithoutWorker in claim.issues <==> forall o | o in versions :: o.RunnerOwner?)
            && (ConflictingNatives in claim.issues <==> exists n, m | NamesNative(versions, n) && NamesNative(versions, m) :: n != m)
            && claim.id == id && claim.versions == versions
  {
    GathersIssue(versions, c, RepositoryMappingUnknown);
    GathersIssue(versions, c, NativeUnresolved);
    GathersIssue(versions, c, RunnerMappingUnknown);
    GathersIssue(versions, c, RunnerWithoutWorker);
    GathersIssue(versions, c, ConflictingNatives);
    assert HasWorker(versions) <==> !forall o | o in versions :: o.RunnerOwner?;
    var natives := ClaimOf(id, versions, c).natives;
    forall n ensures n in natives <==> NamesNative(versions, n) { NativesExactly(id, versions, c, n, ""); }
    MoreThanOne(natives);
  }

  lemma MoreThanOne(natives: set<Native>)
    ensures |natives| > 1 <==> exists n, m | n in natives && m in natives :: n != m
  {
    if |natives| > 1 {
      var n :| n in natives;
      assert |natives - {n}| > 0;
      var m :| m in natives - {n};
      assert n in natives && m in natives && n != m;
    } else if n, m :| n in natives && m in natives && n != m {
      SubsetSize({n, m}, natives);
    }
  }

  lemma {:induction false} SubsetSize<T>(a: set<T>, b: set<T>)
    requires a <= b
    ensures |a| <= |b|
    decreases |a|
  {
    if a != {} {
      var x :| x in a;
      SubsetSize(a - {x}, b - {x});
    }
  }

  /** Mappings are accepted if and only if there are at most 2000 of each kind, no binding and no record is mapped twice,
      and each names one to four different repository keys, or a runner key. */
  lemma ConfigurationExactly(repositories: seq<RepositoryRow>, runners: seq<RunnerRow>)
    ensures ValidConfiguration(repositories, runners)
            <==> && |repositories| <= 2000 && |runners| <= 2000
                 && (forall r | r in repositories ::
                       && 1 <= |r.keys| <= 4 && (forall key | key in r.keys :: key.RepoLocal? || key.RepoRemote?)
                       && forall i, j | 0 <= i < j < |r.keys| :: r.keys[i] != r.keys[j])
                 && (forall r | r in runners :: r.key.Runner?)
                 && (forall i, j | 0 <= i < j < |repositories| :: repositories[i].binding != repositories[j].binding)
                 && (forall i, j | 0 <= i < j < |runners| :: runners[i].record != runners[j].record)
  {
    assert forall i | 0 <= i < |repositories| :: repositories[i] in repositories;
    assert forall i | 0 <= i < |runners| :: runners[i] in runners;
  }

  /** The mappings are all used if and only if each repository binding is some worker's and each runner record some runner's. */
  lemma UsedExactly(owners: seq<Owner>, c: Configuration)
    ensures MappingsUsed(owners, c)
            <==> (forall b | b in c.repositories :: exists o | o in owners :: o.WorkerOwner? && o.binding == Some(b))
                 && (forall r | r in c.runners :: exists o | o in owners :: o.RunnerOwner? && o.record == r)
  {
    forall b: Hash ensures b in Gather(owners, UsedBindings(c)) <==> b in c.repositories && exists o | o in owners :: o.WorkerOwner? && o.binding == Some(b) {
      Gathered(owners, UsedBindings(c), b);
      assert forall o: Owner :: b in UsedBindings(c)(o) <==> o.WorkerOwner? && o.binding == Some(b) && b in c.repositories;
    }
    forall r: Hash ensures r in Gather(owners, UsedRecords(c)) <==> r in c.runners && exists o | o in owners :: o.RunnerOwner? && o.record == r {
      Gathered(owners, UsedRecords(c), r);
      assert forall o: Owner :: r in UsedRecords(c)(o) <==> o.RunnerOwner? && o.record == r && r in c.runners;
    }
  }

  /** The versions of a claim are the retained owners of its worker, each as often as it was retained. */
  lemma {:induction false} VersionsExactly(enrollmentId: Id, owners: seq<Owner>, id: (Id, Id, Id), o: Owner)
    ensures multiset(Versions(enrollmentId, owners, id))[o]
            == if enrollmentId == id.0 && o.workspaceId == id.1 && o.workerId == id.2 then multiset(owners)[o] else 0
  {
    if owners != [] {
      VersionsExactly(enrollmentId, owners[..|owners| - 1], id, o);
      assert owners == owners[..|owners| - 1] + [owners[|owners| - 1]];
    }
  }

  /** And they are in the order of the owners: `at` are their places. */
  lemma {:induction false} VersionsInOrder(enrollmentId: Id, owners: seq<Owner>, id: (Id, Id, Id)) returns (at: seq<nat>)
    ensures |at| == |Versions(enrollmentId, owners, id)| && (forall i, j | 0 <= i < j < |at| :: at[i] < at[j])
    ensures forall i | 0 <= i < |at| :: at[i] < |owners| && Versions(enrollmentId, owners, id)[i] == owners[at[i]]
  {
    if owners == [] {
      at := [];
    } else {
      var n := |owners| - 1;
      at := VersionsInOrder(enrollmentId, owners[..n], id);
      if ClaimId(enrollmentId, owners[n]) == id { at := at + [n]; }
    }
  }
}
