/** The worklist that computes the production closure, and why it is exact. */
module LockClosure {
  import opened Wrappers
  import opened Strings
  import opened LockKeys
  import opened Lockfile

  type PackageMap = map<string, seq<string>>

  function VersionsOf(pairs: set<Package>, name: string): set<string> {
    set p | p in pairs && p.name == name :: p.version
  }

  function VersionSets(pairs: set<Package>): map<string, set<string>> {
    map name | name in (set p | p in pairs :: p.name) :: VersionsOf(pairs, name)
  }

  /** Every package name with its versions, ascending. */
  function Grouped(pairs: set<Package>): PackageMap {
    var sets := VersionSets(pairs);
    map name | name in sets :: Sorted(sets[name])
  }

  lemma VersionsOfMore(pairs: set<Package>, p: Package, name: string)
    ensures VersionsOf(pairs + {p}, name) == VersionsOf(pairs, name) + if name == p.name then {p.version} else {}
    ensures name !in VersionSets(pairs) ==> VersionsOf(pairs, name) == {}
  {
  }

  lemma VersionSetsOfMore(pairs: set<Package>, p: Package)
    ensures var sets := VersionSets(pairs);
            VersionSets(pairs + {p})
            == sets[p.name := (if p.name in sets then sets[p.name] else {}) + {p.version}]
  {
    var more := pairs + {p};
    assert (set q | q in more :: q.name) == (set q | q in pairs :: q.name) + {p.name};
    var sets := VersionSets(pairs);
    forall name | name in VersionSets(more)
      ensures VersionsOf(more, name)
           == if name == p.name then (if p.name in sets then sets[p.name] else {}) + {p.version}
              else VersionsOf(pairs, name)
    {
      VersionsOfMore(pairs, p, name);
    }
  }

  ghost predicate IsListing(strings: seq<string>, s: set<string>) {
    IsSorted(strings) && forall x :: x in strings <==> x in s
  }

  /** The map from the names of the packages to ascending listings of their versions: there is one only. */
  lemma GroupedIsTheListing(pairs: set<Package>, packages: PackageMap)
    ensures packages == Grouped(pairs) <==>
            && packages.Keys == (set p | p in pairs :: p.name)
            && forall name | name in packages :: IsListing(packages[name], VersionsOf(pairs, name))
  {
    var grouped := Grouped(pairs);
    assert grouped.Keys == (set p | p in pairs :: p.name);
    forall name | name in grouped
      ensures IsListing(grouped[name], VersionsOf(pairs, name))
    {
    }
    if packages.Keys == grouped.Keys
       && forall name | name in packages :: IsListing(packages[name], VersionsOf(pairs, name)) {
      forall name | name in packages
        ensures packages[name] == grouped[name]
      {
        SortedIsUnique(packages[name], grouped[name]);
      }
    }
  }

  method BuildPackageMap(pairs: set<Package>) returns (result: Result<PackageMap, AuditError>)
    ensures result == if pairs == {} then Err(AuditError) else Ok(Grouped(pairs))
  {
    if pairs == {} {
      return Err(AuditError);
    }
    var packages: map<string, set<string>> := map[];
    var todo := pairs;
    while todo != {}
      invariant todo <= pairs
      invariant packages == VersionSets(pairs - todo)
      decreases todo
    {
      hide VersionSets;
      var pair :| pair in todo;
      VersionSetsOfMore(pairs - todo, pair);
      assert pairs - (todo - {pair}) == pairs - todo + {pair};
      todo := todo - {pair};
      packages := packages[pair.name := (if pair.name in packages then packages[pair.name] else {}) + {pair.version}];
    }
    assert pairs - todo == pairs;
    result := Ok(map name | name in packages :: Sorted(packages[name]));
  }

  /** Some reachable reference has this snapshot key. */
  ghost predicate IsReachableKey(document: Fields, key: string)
    requires HasImporters(document)
  {
    exists r :: Reachable(document, r) && SnapshotKey(r) == key
  }

  /** The packages of a set of snapshot keys. */
  function PackagesOf(keys: set<string>): set<Package>
    requires forall k | k in keys :: RegistryPackageKey(k).Ok?
  {
    set k | k in keys :: RegistryPackageKey(k).value
  }

  /** Every reachable key lies behind the queue or the visited keys. */
  ghost predicate IsFrontier(document: Fields, queue: set<Reference>, visited: set<string>)
    requires HasImporters(document)
  {
    && (forall r | r in Roots(document) :: r in queue || SnapshotKey(r) in visited)
    && (forall from, to | SnapshotKey(from) in visited && IsEdge(Snapshots(document), from, to) ::
          to in queue || SnapshotKey(to) in visited)
  }

  /** What the worklist keeps. */
  ghost predicate IsProgress(document: Fields, registry: set<Package>, queue: set<Reference>, visited: set<string>) {
    && HasImporters(document)
    && (forall r | r in queue :: Reachable(document, r))
    && (forall k | k in visited :: IsReachableKey(document, k) && IsSound(Snapshots(document), registry, k))
    && IsFrontier(document, queue, visited)
  }

  lemma StartsProgress(document: Fields, registry: set<Package>)
    requires HasImporters(document)
    ensures IsProgress(document, registry, Roots(document), {})
  {
    forall r | r in Roots(document)
      ensures Reachable(document, r)
    {
      RootIsReachable(document, r);
    }
  }

  /** Dropping a reference whose snapshot was already visited. */
  lemma SkipKeepsProgress(document: Fields, registry: set<Package>, queue: set<Reference>, r: Reference,
                          visited: set<string>)
    requires IsProgress(document, registry, queue + {r}, visited) && SnapshotKey(r) in visited
    ensures IsProgress(document, registry, queue, visited)
  {
    hide IsEdge, Reachable, IsSound, IsReachableKey, SnapshotKey;
  }

  lemma VisitKeepsFrontier(document: Fields, queue: set<Reference>, r: Reference, visited: set<string>)
    requires HasImporters(document) && IsFrontier(document, queue + {r}, visited)
    requires HasSnapshot(Snapshots(document), SnapshotKey(r))
    ensures IsFrontier(document, queue + References(Snapshots(document)[Name(SnapshotKey(r))].fields),
                       visited + {SnapshotKey(r)})
  {
    var key := SnapshotKey(r);
    var more := References(Snapshots(document)[Name(key)].fields);
    hide References, Roots, Snapshots, HasGroups;
    forall from, to | SnapshotKey(from) in visited + {key} && IsEdge(Snapshots(document), from, to)
      ensures to in queue + more || SnapshotKey(to) in visited + {key}
    {
      if SnapshotKey(from) == key {
        assert to in more;
      }
    }
  }

  /** Visiting a sound snapshot and queueing its references. */
  lemma VisitKeepsProgress(document: Fields, registry: set<Package>, queue: set<Reference>, r: Reference,
                           visited: set<string>)
    requires IsProgress(document, registry, queue + {r}, visited)
    requires IsSound(Snapshots(document), registry, SnapshotKey(r))
    ensures IsProgress(document, registry, queue + References(Snapshots(document)[Name(SnapshotKey(r))].fields),
                       visited + {SnapshotKey(r)})
  {
    hide Reachable, IsReachableKey, IsFrontier, SnapshotKey, References, Roots, Snapshots, HasGroups, HasImporters,
         RegistryPackageKey;
    ReferencesAreReachable(document, r);
    KeyIsReachable(document, r);
    VisitKeepsFrontier(document, queue, r, visited);
  }

  lemma KeyIsReachable(document: Fields, r: Reference)
    requires HasImporters(document) && Reachable(document, r)
    ensures IsReachableKey(document, SnapshotKey(r))
  {
  }

  lemma ReferencesAreReachable(document: Fields, r: Reference)
    requires HasImporters(document) && Reachable(document, r) && HasSnapshot(Snapshots(document), SnapshotKey(r))
    ensures forall to | to in References(Snapshots(document)[Name(SnapshotKey(r))].fields) :: Reachable(document, to)
  {
    hide Reachable, References;
    forall to | to in References(Snapshots(document)[Name(SnapshotKey(r))].fields)
      ensures Reachable(document, to)
    {
      EdgeIsReachable(document, r, to);
    }
  }

  /** An exhausted worklist has visited exactly the reachable keys. */
  lemma ExhaustedIsExact(document: Fields, registry: set<Package>, visited: set<string>)
    requires IsProgress(document, registry, {}, visited)
    ensures forall k :: k in visited <==> IsReachableKey(document, k)
    ensures visited == {} <==> Roots(document) == {}
  {
    assert IsClosed(document, visited);
    hide IsEdge, IsSound, Reachable, IsClosed;
    ClosedHoldsReachable(document, visited);
    forall r | r in Roots(document)
      ensures SnapshotKey(r) in visited
    {
      RootIsReachable(document, r);
    }
    forall k | k in visited
      ensures Roots(document) != {}
    {
      var r :| Reachable(document, r) && SnapshotKey(r) == k;
      ReachableHasRoot(document, r);
    }
  }

  lemma ReachableHasRoot(document: Fields, r: Reference)
    requires HasImporters(document) && Reachable(document, r)
    ensures Roots(document) != {}
  {
    var path :| IsPath(document, path) && path[|path| - 1] == r;
    assert path[0] in Roots(document);
  }

  method CollectRoots(document: Fields) returns (result: Result<seq<Reference>, AuditError>)
    ensures result.Ok? <==> HasImporters(document)
    ensures result.Ok? ==> Elements(result.value) == Roots(document)
  {
    var importers := Get(document, "importers");
    if !importers.Dict? {
      return Err(AuditError);
    }
    var queue: seq<Reference> := [];
    var todo := importers.fields.Keys;
    while todo != {}
      invariant todo <= importers.fields.Keys
      invariant forall k | k in importers.fields && k !in todo ::
                  importers.fields[k].Dict? && HasGroups(importers.fields[k].fields)
      invariant Elements(queue)
             == set k, r | k in importers.fields && k !in todo && r in References(importers.fields[k].fields) :: r
      decreases todo
    {
      var key :| key in todo;
      if !importers.fields[key].Dict? {
        return Err(AuditError);
      }
      var appended := AppendReferences(importers.fields[key].fields, queue);
      if appended.Err? {
        return Err(AuditError);
      }
      todo := todo - {key};
      queue := appended.value;
    }
    result := Ok(queue);
  }

  /** The packages a trustworthy document needs in production: those of its reachable snapshots. */
  ghost predicate IsProductionPackage(document: Fields, p: Package)
    requires HasImporters(document)
  {
    exists key :: IsReachableKey(document, key) && RegistryPackageKey(key) == Ok(p)
  }

  lemma ElementsOfPop(queue: seq<Reference>)
    requires queue != []
    ensures Elements(queue) == Elements(queue[..|queue| - 1]) + {queue[|queue| - 1]}
  {
  }

  /** The closure succeeds exactly on trustworthy documents, and then returns precisely the packages
      of the snapshots reachable from the importers, each name with its versions ascending. */
  method ProductionPackages(document: Fields) returns (result: Result<PackageMap, AuditError>)
    ensures result.Ok? <==> IsTrustworthy(document)
    ensures result.Ok? ==> exists pairs ::
              (forall p :: p in pairs <==> IsProductionPackage(document, p)) && result.value == Grouped(pairs)
  {
    hide IsProgress, Reachable, IsReachableKey, Roots, HasImporters, HasRegistry, RegistryPackages, References,
         RegistryPackageKey, Grouped, HasGroups, Elements;
    var registry := RegistryPairs(document);
    if registry.Err? {
      return Err(AuditError);
    }
    var roots := CollectRoots(document);
    if roots.Err? || !Get(document, "snapshots").Dict? {
      return Err(AuditError);
    }
    var snapshots := Snapshots(document);
    var queue := roots.value;
    var selected: set<Package> := {};
    var visited: set<string> := {};
    ghost var unvisited := snapshots.Keys;
    StartsProgress(document, registry.value);
    while queue != []
      invariant IsProgress(document, registry.value, Elements(queue), visited)
      invariant forall k | k in visited :: RegistryPackageKey(k).Ok?
      invariant selected == PackagesOf(visited)
      invariant unvisited == set k | k in snapshots && !(k.Name? && k.name in visited)
      decreases unvisited, |queue|
    {
      var last := |queue| - 1;
      var reference := queue[last];
      ElementsOfPop(queue);
      queue := queue[..last];
      var key := SnapshotKey(reference);
      if key in visited {
        SkipKeepsProgress(document, registry.value, Elements(queue), reference, visited);
        continue;
      }
      QueuedIsReachable(document, registry.value, Elements(queue), reference, visited);
      if Name(key) !in snapshots || !snapshots[Name(key)].Dict? {
        return Err(AuditError);
      }
      var package := RegistryPackageKey(key);
      if package.Err? || package.value !in registry.value {
        return Err(AuditError);
      }
      var appended := AppendReferences(snapshots[Name(key)].fields, queue);
      if appended.Err? {
        return Err(AuditError);
      }
      VisitKeepsProgress(document, registry.value, Elements(queue), reference, visited);
      visited := visited + {key};
      selected := selected + {package.value};
      queue := appended.value;
      unvisited := unvisited - {Name(key)};
    }
    NothingQueued(queue);
    ExhaustedIsExact(document, registry.value, visited);
    ExhaustedIsTrustworthy(document, registry.value, visited);
    SelectedIsProduction(document, visited);
    result := BuildPackageMap(selected);
  }

  lemma NothingQueued(queue: seq<Reference>)
    requires queue == []
    ensures Elements(queue) == {}
  {
  }

  lemma QueuedIsReachable(document: Fields, registry: set<Package>, queue: set<Reference>, r: Reference,
                          visited: set<string>)
    requires IsProgress(document, registry, queue + {r}, visited)
    ensures HasImporters(document) && Reachable(document, r)
  {
  }

  lemma ExhaustedIsTrustworthy(document: Fields, registry: set<Package>, visited: set<string>)
    requires IsProgress(document, registry, {}, visited)
    requires HasRegistry(document) && registry == RegistryPackages(document) && Get(document, "snapshots").Dict?
    ensures IsTrustworthy(document) <==> visited != {}
  {
    ExhaustedIsExact(document, registry, visited);
    forall r | Reachable(document, r)
      ensures IsSound(Snapshots(document), registry, SnapshotKey(r))
    {
      assert IsReachableKey(document, SnapshotKey(r));
    }
  }

  lemma SelectedIsProduction(document: Fields, visited: set<string>)
    requires HasImporters(document) && forall k :: k in visited <==> IsReachableKey(document, k)
    requires forall k | k in visited :: RegistryPackageKey(k).Ok?
    ensures forall p :: p in PackagesOf(visited) <==> IsProductionPackage(document, p)
    ensures PackagesOf(visited) == {} <==> visited == {}
  {
    hide IsReachableKey, RegistryPackageKey;
    forall k | k in visited
      ensures RegistryPackageKey(k).value in PackagesOf(visited)
    {
    }
  }

  /** The production audit asks about no package the full audit would not. */
  lemma ProductionIsRegistered(document: Fields, p: Package)
    requires IsTrustworthy(document) && IsProductionPackage(document, p)
    ensures p in RegistryPackages(document)
  {
    var key :| IsReachableKey(document, key) && RegistryPackageKey(key) == Ok(p);
    var r :| Reachable(document, r) && SnapshotKey(r) == key;
    assert IsSound(Snapshots(document), RegistryPackages(document), SnapshotKey(r));
  }

  // ---- Integrity

  /** The record has an integrity, and not an empty one. */
  predicate IsHashed(metadata: Node) {
    && metadata.Dict?
    && var resolution := Get(metadata.fields, "resolution");
    && resolution.Dict?
    && var integrity := Get(resolution.fields, "integrity");
    && integrity.Text? && integrity.text != ""
  }

  /** Some record that spells the package has an integrity. */
  predicate HasIntegrity(packages: Fields, p: Package) {
    exists k | k in packages :: k.Name? && RegistryPackageKey(k.name) == Ok(p) && IsHashed(packages[k])
  }

  predicate IsAcceptableRegistry(packages: Fields) {
    forall k | k in packages :: IsAcceptableRecord(k, packages[k])
  }

  /** The lockfile version the program reads. */
  predicate IsSupported(document: Fields) {
    var version := Get(document, "lockfileVersion");
    version.Text? && "9" <= version.text
  }

  /** Every package a document with these records is found to need in production has an integrity. */
  ghost predicate KeepsIntegrity(packages: Fields) {
    forall document, p |
      && Get(document, "packages") == Dict(packages) && IsSupported(document)
      && IsTrustworthy(document) && IsProductionPackage(document, p) ::
      HasIntegrity(packages, p)
  }

  /** A lockfile whose one importer needs one package. */
  function SoleRootLockfile(packages: Fields, r: Reference): Fields {
    map[Name("lockfileVersion") := Text("9.0"), Name("packages") := Dict(packages),
        Name("importers") := Dict(map[Name(".") := SoleImporter(r)]),
        Name("snapshots") := Dict(map[Name(SnapshotKey(r)) := Dict(map[])])]
  }

  function SoleImporter(r: Reference): Node {
    Dict(map[Name("dependencies") := Dict(map[Name(r.name) := Text(r.reference)])])
  }

  lemma SoleRootSections(packages: Fields, r: Reference)
    ensures var document := SoleRootLockfile(packages, r);
            && IsSupported(document) && Get(document, "packages") == Dict(packages)
            && Get(document, "importers") == Dict(map[Name(".") := SoleImporter(r)])
            && Get(document, "snapshots").Dict? && Snapshots(document) == map[Name(SnapshotKey(r)) := Dict(map[])]
  {
    hide SoleImporter, SnapshotKey;
  }

  lemma SoleImporterNeeds(r: Reference)
    requires !IsLocal(r.reference)
    ensures HasGroups(SoleImporter(r).fields) && References(SoleImporter(r).fields) == {r}
  {
    var owner := SoleImporter(r).fields;
    var group := GetOrEmpty(owner, "dependencies");
    assert group == Dict(map[Name(r.name) := Text(r.reference)]);
    assert GetOrEmpty(owner, "optionalDependencies") == Dict(map[]);
    hide IsLocal;
    assert GroupReferences(group) == {r} by {
      assert Name(r.name) in group.fields && AsReference(group.fields[Name(r.name)]) == Ok(r.reference);
    }
  }

  lemma SoleRoots(document: Fields, r: Reference)
    requires Get(document, "importers") == Dict(map[Name(".") := SoleImporter(r)]) && !IsLocal(r.reference)
    ensures HasImporters(document) && Roots(document) == {r}
  {
    SoleImporterNeeds(r);
    hide SoleImporter, HasGroups, References, IsLocal;
    var importers := Get(document, "importers").fields;
    assert Name(".") in importers && importers[Name(".")] == SoleImporter(r);
  }

  lemma NoReferences(owner: Fields)
    requires owner == map[]
    ensures HasGroups(owner) && References(owner) == {}
  {
  }

  lemma SoleSnapshotIsClosed(document: Fields, root: Reference, key: string)
    requires HasImporters(document) && Roots(document) == {root} && SnapshotKey(root) == key
    requires Snapshots(document) == map[Name(key) := Dict(map[])]
    ensures IsClosed(document, {key})
    ensures HasSnapshot(Snapshots(document), key)
  {
    NoReferences(Snapshots(document)[Name(key)].fields);
    hide Roots, HasImporters, References, HasGroups, Snapshots;
  }

  lemma SoleRootIsTrustworthy(document: Fields, root: Reference, key: string, p: Package)
    requires HasImporters(document) && Roots(document) == {root} && SnapshotKey(root) == key
    requires HasRegistry(document) && Get(document, "snapshots").Dict? && IsClosed(document, {key})
    requires IsSound(Snapshots(document), RegistryPackages(document), key) && RegistryPackageKey(key) == Ok(p)
    ensures IsTrustworthy(document) && IsProductionPackage(document, p)
  {
    hide RegistryPackageKey, RegistryPackages, Roots, HasImporters, HasRegistry, Snapshots, IsSound, IsClosed,
         Reachable;
    ClosedHoldsReachable(document, {key});
    RootIsReachable(document, root);
    KeyIsReachable(document, root);
  }

  /** The packages of a registry, by its records. */
  lemma RegistryOf(document: Fields, packages: Fields)
    requires Get(document, "packages") == Dict(packages) && IsAcceptableRegistry(packages)
    ensures HasRegistry(document)
    ensures forall p :: p in RegistryPackages(document) <==>
              exists k | k in packages :: IsLocked(packages[k].fields) && RegistryPackageKey(k.name) == Ok(p)
  {
    hide IsLocked, RegistryPackageKey;
  }

  /** A reference whose snapshot key spells the package. */
  lemma RootOfPackage(raw: string, p: Package) returns (r: Reference)
    requires RegistryPackageKey(raw) == Ok(p)
    ensures RegistryPackageKey(SnapshotKey(r)) == Ok(p) && !IsLocal(r.reference)
  {
    KeySpellsPackage(raw, p);
    r := Reference("/" + p.name, p.version);
    hide RegistryPackageKey;
    var key := SnapshotKey(r);
    assert key == "/" + (p.name + "@" + p.version + "");
    SpelledKey(key, p, "");
  }

  /** Any package a record locks can be a production package. */
  lemma LockedCanBeNeeded(packages: Fields, k: Key, p: Package) returns (document: Fields)
    requires IsAcceptableRegistry(packages) && k in packages && IsLocked(packages[k].fields)
    requires k.Name? && RegistryPackageKey(k.name) == Ok(p)
    ensures Get(document, "packages") == Dict(packages) && IsSupported(document)
    ensures IsTrustworthy(document) && IsProductionPackage(document, p)
  {
    hide IsLocked, RegistryPackageKey, RegistryPackages, Roots, HasImporters, HasRegistry, HasGroups, IsSupported,
         IsAcceptableRecord, Snapshots, SnapshotKey, SoleRootLockfile, IsTrustworthy, IsProductionPackage, IsLocal,
         IsClosed;
    var root := RootOfPackage(k.name, p);
    var key := SnapshotKey(root);
    document := SoleRootLockfile(packages, root);
    SoleRootSections(packages, root);
    SoleRoots(document, root);
    RegistryOf(document, packages);
    SoleSnapshotIsClosed(document, root, key);
    SoleRootIsTrustworthy(document, root, key, p);
  }

  /** Production packages have an integrity, in every document with these package records, exactly when
      wherever a record is locked, by its tarball it may be, some record of that package has one. */
  lemma IntegrityIsKeptIff(packages: Fields)
    requires IsAcceptableRegistry(packages)
    ensures KeepsIntegrity(packages) <==>
            forall k | k in packages && IsLocked(packages[k].fields) ::
              HasIntegrity(packages, RegistryPackageKey(k.name).value)
  {
    hide IsLocked, RegistryPackageKey, HasIntegrity, IsTrustworthy, IsProductionPackage, IsSupported;
    if KeepsIntegrity(packages) {
      forall k | k in packages && IsLocked(packages[k].fields)
        ensures HasIntegrity(packages, RegistryPackageKey(k.name).value)
      {
        assert IsAcceptableRecord(k, packages[k]);
        var document := LockedCanBeNeeded(packages, k, RegistryPackageKey(k.name).value);
      }
    }
    if forall k | k in packages && IsLocked(packages[k].fields) ::
         HasIntegrity(packages, RegistryPackageKey(k.name).value) {
      EveryPackageIsHashed(packages);
    }
  }

  /** Also in documents of other lockfile versions. */
  lemma EveryPackageIsHashed(packages: Fields)
    requires IsAcceptableRegistry(packages)
    requires forall k | k in packages && IsLocked(packages[k].fields) ::
               HasIntegrity(packages, RegistryPackageKey(k.name).value)
    ensures forall document, p |
              && Get(document, "packages") == Dict(packages)
              && IsTrustworthy(document) && IsProductionPackage(document, p) ::
              HasIntegrity(packages, p)
  {
    forall document, p |
      Get(document, "packages") == Dict(packages) && IsTrustworthy(document) && IsProductionPackage(document, p)
      ensures HasIntegrity(packages, p)
    {
      hide IsLocked, RegistryPackageKey, HasIntegrity, IsProductionPackage, Reachable, RegistryPackages;
      ProductionIsRegistered(document, p);
      RegistryOf(document, packages);
    }
  }

  /** A package record whose only resolution is an empty tarball address. */
  function UnhashedRecord(): Node {
    Dict(map[Name("resolution") := Dict(map[Name("tarball") := Text("")])])
  }

  lemma UnhashedKey(key: string, p: Package)
    requires key == "a@1" && p == Package("a", "1")
    ensures RegistryPackageKey(key) == Ok(p)
  {
    hide RegistryPackageKey;
    assert key == p.name + "@" + p.version + "";
    SpelledKey(key, p, "");
  }

  lemma UnhashedIsLocked()
    ensures IsLocked(UnhashedRecord().fields) && !IsHashed(UnhashedRecord())
  {
  }

  /** Not every accepted package has an integrity: a trustworthy lockfile can hold one with a tarball
      address alone, even an empty one. */
  lemma PackageWithoutIntegrityIsAccepted() returns (document: Fields, p: Package)
    ensures IsSupported(document) && IsTrustworthy(document) && IsProductionPackage(document, p)
    ensures Get(document, "packages") == Dict(map[Name("a@1") := UnhashedRecord()])
    ensures !HasIntegrity(Get(document, "packages").fields, p)
  {
    var packages := map[Name("a@1") := UnhashedRecord()];
    p := Package("a", "1");
    UnhashedKey("a@1", p);
    UnhashedIsLocked();
    hide IsLocked, IsHashed, UnhashedRecord, RegistryPackageKey, IsTrustworthy, IsProductionPackage, IsSupported;
    document := LockedCanBeNeeded(packages, Name("a@1"), p);
  }
}
