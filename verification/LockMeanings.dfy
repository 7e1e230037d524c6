/** The production closure in the lockfile's own field names, and the fields it never reads. */
module LockMeanings {
  import opened Wrappers
  import opened Strings
  import opened LockKeys
  import opened Lockfile
  import opened LockClosure

  // ---- Edges and roots

  /** The node names this reference, as text or under `version`. */
  predicate Names(n: Node, reference: string) {
    || n == Text(reference)
    || (n.Dict? && Name("version") in n.fields && n.fields[Name("version")] == Text(reference))
  }

  /** The field lists this reference to a package that is not in the workspace itself. */
  predicate Lists(owner: Fields, field: string, r: Reference) {
    && Name(field) in owner && owner[Name(field)].Dict?
    && Name(r.name) in owner[Name(field)].fields && Names(owner[Name(field)].fields[Name(r.name)], r.reference)
    && !("file:" <= r.reference) && !("link:" <= r.reference) && !("workspace:" <= r.reference)
  }

  lemma GroupLists(owner: Fields, field: string, r: Reference)
    requires IsAcceptableGroup(GetOrEmpty(owner, field))
    ensures r in GroupReferences(GetOrEmpty(owner, field)) <==> Lists(owner, field, r)
  {
    var group := GetOrEmpty(owner, field);
    if r in GroupReferences(group) {
      var k :| k in group.fields && !IsLocal(AsReference(group.fields[k]).value)
            && r == Reference(k.name, AsReference(group.fields[k]).value);
      assert k == Name(r.name);
    }
    if Lists(owner, field, r) {
      assert AsReference(group.fields[Name(r.name)]) == Ok(r.reference);
    }
  }

  /** An importer or snapshot needs in production exactly the non-local references under its dependencies and
      its optional dependencies. */
  lemma ReferencesIff(owner: Fields, r: Reference)
    requires HasGroups(owner)
    ensures r in References(owner) <==> Lists(owner, "dependencies", r) || Lists(owner, "optionalDependencies", r)
  {
    assert PRODUCTION_GROUPS == ["dependencies", "optionalDependencies"];
    assert PRODUCTION_GROUPS[0] in PRODUCTION_GROUPS && PRODUCTION_GROUPS[1] in PRODUCTION_GROUPS;
    hide IsAcceptableGroup, GroupReferences, Lists;
    GroupLists(owner, "dependencies", r);
    GroupLists(owner, "optionalDependencies", r);
  }

  predicate ListsInProduction(owner: Fields, r: Reference) {
    Lists(owner, "dependencies", r) || Lists(owner, "optionalDependencies", r)
  }

  /** The roots are what some importer lists, the edges what the snapshot under a key lists. */
  lemma RootsAndEdgesIff(document: Fields, from: Reference, to: Reference)
    requires HasImporters(document)
    ensures to in Roots(document) <==>
            exists k | k in Get(document, "importers").fields ::
              ListsInProduction(Get(document, "importers").fields[k].fields, to)
    ensures var key := Name(from.name + "@" + from.reference);
            IsEdge(Snapshots(document), from, to) <==>
            && HasSnapshot(Snapshots(document), from.name + "@" + from.reference)
            && ListsInProduction(Snapshots(document)[key].fields, to)
  {
    hide HasGroups, References, Lists;
    var importers := Get(document, "importers").fields;
    forall k | k in importers
      ensures to in References(importers[k].fields) <==> ListsInProduction(importers[k].fields, to)
    {
      ReferencesIff(importers[k].fields, to);
    }
    var snapshot := from.name + "@" + from.reference;
    if HasSnapshot(Snapshots(document), snapshot) {
      ReferencesIff(Snapshots(document)[Name(snapshot)].fields, to);
    }
  }

  /** Whatever an importer, or the snapshot of a reachable reference, lists as optional is reached. */
  lemma OptionalIsReached(document: Fields, owner: Fields, r: Reference)
    requires HasImporters(document) && Lists(owner, "optionalDependencies", r)
    requires (exists k | k in Get(document, "importers").fields :: Get(document, "importers").fields[k] == Dict(owner))
          || (exists from | Reachable(document, from) ::
                && HasSnapshot(Snapshots(document), SnapshotKey(from))
                && Snapshots(document)[Name(SnapshotKey(from))] == Dict(owner))
    ensures Reachable(document, r)
  {
    hide Lists, HasGroups, References, Roots, Snapshots, IsEdge, Reachable;
    if k :| k in Get(document, "importers").fields && Get(document, "importers").fields[k] == Dict(owner) {
      RootsAndEdgesIff(document, r, r);
      RootIsReachable(document, r);
    } else {
      var from :| && Reachable(document, from) && HasSnapshot(Snapshots(document), SnapshotKey(from))
                  && Snapshots(document)[Name(SnapshotKey(from))] == Dict(owner);
      RootsAndEdgesIff(document, from, r);
      EdgeIsReachable(document, from, r);
    }
  }

  // ---- What is never read

  predicate SameField(a: Fields, b: Fields, field: string) {
    (Name(field) in a <==> Name(field) in b) && (Name(field) in a ==> a[Name(field)] == b[Name(field)])
  }

  /** Equal but for fields other than the two production groups. */
  predicate SameProduction(a: Node, b: Node) {
    || a == b
    || (a.Dict? && b.Dict? && SameField(a.fields, b.fields, "dependencies")
        && SameField(a.fields, b.fields, "optionalDependencies"))
  }

  ghost predicate SameSection(a: Node, b: Node) {
    || a == b
    || (a.Dict? && b.Dict? && a.fields.Keys == b.fields.Keys
        && forall k | k in a.fields :: SameProduction(a.fields[k], b.fields[k]))
  }

  /** The same package records, and importers and snapshots that differ outside their production groups only. */
  ghost predicate SameClosure(a: Fields, b: Fields) {
    && Get(a, "packages") == Get(b, "packages")
    && SameSection(Get(a, "importers"), Get(b, "importers"))
    && SameSection(Get(a, "snapshots"), Get(b, "snapshots"))
  }

  lemma SameReferences(a: Node, b: Node)
    requires a.Dict? && b.Dict? && SameProduction(a, b)
    ensures HasGroups(a.fields) <==> HasGroups(b.fields)
    ensures HasGroups(a.fields) ==> References(a.fields) == References(b.fields)
  {
    assert PRODUCTION_GROUPS == ["dependencies", "optionalDependencies"];
    assert GetOrEmpty(a.fields, "dependencies") == GetOrEmpty(b.fields, "dependencies");
    assert GetOrEmpty(a.fields, "optionalDependencies") == GetOrEmpty(b.fields, "optionalDependencies");
    hide IsAcceptableGroup, GroupReferences;
  }

  lemma SameImporters(a: Fields, b: Fields)
    requires SameSection(Get(a, "importers"), Get(b, "importers"))
    ensures HasImporters(a) ==> HasImporters(b) && Roots(a) == Roots(b)
  {
    hide HasGroups, References, SameProduction;
    if HasImporters(a) {
      var x, y := Get(a, "importers").fields, Get(b, "importers").fields;
      if x != y {
        forall k | k in x
          ensures y[k].Dict? && HasGroups(y[k].fields) && References(x[k].fields) == References(y[k].fields)
        {
          DictLikeDict(x[k], y[k]);
          SameReferences(x[k], y[k]);
        }
      }
    }
  }

  lemma DictLikeDict(a: Node, b: Node)
    requires SameProduction(a, b)
    ensures a.Dict? <==> b.Dict?
  {
  }

  lemma SameSnapshots(a: Fields, b: Fields, key: string)
    requires SameSection(Get(a, "snapshots"), Get(b, "snapshots"))
    ensures Get(a, "snapshots").Dict? <==> Get(b, "snapshots").Dict?
    ensures HasSnapshot(Snapshots(a), key) <==> HasSnapshot(Snapshots(b), key)
    ensures HasSnapshot(Snapshots(a), key) ==>
              References(Snapshots(a)[Name(key)].fields) == References(Snapshots(b)[Name(key)].fields)
  {
    hide HasGroups, References, SameProduction;
    if Snapshots(a) != Snapshots(b) && Name(key) in Snapshots(a) {
      var x, y := Snapshots(a)[Name(key)], Snapshots(b)[Name(key)];
      DictLikeDict(x, y);
      if x.Dict? {
        SameReferences(x, y);
      }
    }
  }

  lemma SameEdges(a: Fields, b: Fields)
    requires SameSection(Get(a, "snapshots"), Get(b, "snapshots"))
    ensures forall from, to :: IsEdge(Snapshots(a), from, to) <==> IsEdge(Snapshots(b), from, to)
  {
    forall from, to
      ensures IsEdge(Snapshots(a), from, to) <==> IsEdge(Snapshots(b), from, to)
    {
      hide HasSnapshot, References, Snapshots, SameSection;
      SameSnapshots(a, b, SnapshotKey(from));
    }
  }

  lemma ReachedLikewise(a: Fields, b: Fields, r: Reference)
    requires HasImporters(a) && HasImporters(b) && Roots(a) == Roots(b) && Reachable(a, r)
    requires forall from, to :: IsEdge(Snapshots(a), from, to) <==> IsEdge(Snapshots(b), from, to)
    ensures Reachable(b, r)
  {
    hide IsEdge, Roots, HasImporters, Snapshots;
    var path :| IsPath(a, path) && path[|path| - 1] == r;
    assert IsPath(b, path);
  }

  lemma SameReached(a: Fields, b: Fields)
    requires SameClosure(a, b) && HasImporters(a)
    ensures HasImporters(b) && Roots(a) == Roots(b)
    ensures forall r :: Reachable(a, r) <==> Reachable(b, r)
  {
    hide IsEdge, Reachable, SameSection, Roots, HasImporters;
    SameImporters(a, b);
    SameEdges(a, b);
    forall r
      ensures Reachable(a, r) <==> Reachable(b, r)
    {
      if Reachable(a, r) {
        ReachedLikewise(a, b, r);
      }
      if Reachable(b, r) {
        ReachedLikewise(b, a, r);
      }
    }
  }

  lemma TrustedLikewise(a: Fields, b: Fields)
    requires SameClosure(a, b) && IsTrustworthy(a)
    ensures IsTrustworthy(b)
  {
    hide IsEdge, Reachable, SameSection, Roots, HasImporters, HasSnapshot, RegistryPackageKey, Snapshots;
    SameReached(a, b);
    assert HasRegistry(b) && RegistryPackages(a) == RegistryPackages(b);
    hide HasRegistry, RegistryPackages;
    SameSnapshots(a, b, "");
    forall r | Reachable(b, r)
      ensures IsSound(Snapshots(b), RegistryPackages(b), SnapshotKey(r))
    {
      SameSnapshots(a, b, SnapshotKey(r));
    }
  }

  lemma SymmetricClosure(a: Fields, b: Fields)
    requires SameClosure(a, b)
    ensures SameClosure(b, a)
  {
  }

  /** Development dependencies, peers and every other field of an importer or a snapshot but its two
      production groups change neither whether the closure succeeds nor what it returns. */
  lemma OtherFieldsAreIrrelevant(a: Fields, b: Fields)
    requires SameClosure(a, b)
    ensures IsTrustworthy(a) <==> IsTrustworthy(b)
    ensures IsTrustworthy(a) ==>
              HasImporters(a) && HasImporters(b) && forall p :: IsProductionPackage(a, p) <==> IsProductionPackage(b, p)
  {
    hide SameClosure, Reachable, RegistryPackageKey, Roots, Snapshots;
    SymmetricClosure(a, b);
    if IsTrustworthy(a) {
      TrustedLikewise(a, b);
      SameReached(a, b);
    }
    if IsTrustworthy(b) {
      TrustedLikewise(b, a);
    }
  }

  // ---- Records

  /** A record is locked by an integrity that is text and not empty, or, where the integrity is missing, empty
      or otherwise falsy, by a tarball that is text. */
  lemma LockedIff(record: Fields)
    ensures IsLocked(record) <==>
            && Name("resolution") in record && record[Name("resolution")].Dict?
            && var resolution := record[Name("resolution")].fields;
            && var integrity := if Name("integrity") in resolution then resolution[Name("integrity")] else Other(false);
            || (integrity.Text? && integrity.text != "")
            || (integrity in {Text(""), Dict(map[]), Other(false)}
                && Name("tarball") in resolution && resolution[Name("tarball")].Text?)
  {
  }

  /** The registry is accepted exactly if every key is text, every record a mapping, and the key of every
      locked record spells a package. */
  lemma RegistryIff(document: Fields)
    ensures HasRegistry(document) <==>
            && Name("packages") in document && document[Name("packages")].Dict?
            && forall k | k in document[Name("packages")].fields ::
                 var record := document[Name("packages")].fields[k];
                 k.Name? && record.Dict? && (IsLocked(record.fields) ==> RegistryPackageKey(k.name).Ok?)
  {
  }
}
