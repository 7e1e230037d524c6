/** The production closure of a pnpm lockfile. */
module Lockfile {
  import opened Wrappers
  import opened Strings
  import opened LockKeys

  datatype Key = Name(name: string) | NotAString(id: int)

  /** A parsed YAML value; `Other` is anything that is neither text nor a mapping. */
  datatype Node = Text(text: string) | Dict(fields: Fields) | Other(truthy: bool)

  type Fields = map<Key, Node>

  datatype Reference = Reference(name: string, reference: string)

  const PRODUCTION_GROUPS := ["dependencies", "optionalDependencies"]

  function Get(fields: Fields, name: string): Node {
    if Name(name) in fields then fields[Name(name)] else Other(false)
  }

  function GetOrEmpty(fields: Fields, name: string): Node {
    if Name(name) in fields then fields[Name(name)] else Dict(map[])
  }

  predicate IsTruthy(n: Node) {
    match n
    case Text(text) => text != ""
    case Dict(fields) => fields != map[]
    case Other(truthy) => truthy
  }

  // ---- Registry packages

  /** The integrity, or the tarball where the integrity is missing or empty, is text. */
  predicate IsLocked(metadata: Fields) {
    var resolution := Get(metadata, "resolution");
    && resolution.Dict?
    && var integrity := Get(resolution.fields, "integrity");
    && (if IsTruthy(integrity) then integrity else Get(resolution.fields, "tarball")).Text?
  }

  /** What the package record under one key contributes, if it is acceptable. */
  predicate IsAcceptableRecord(key: Key, metadata: Node) {
    && key.Name? && metadata.Dict?
    && (IsLocked(metadata.fields) ==> RegistryPackageKey(key.name).Ok?)
  }

  predicate HasRegistry(document: Fields) {
    var packages := Get(document, "packages");
    packages.Dict? && forall k | k in packages.fields :: IsAcceptableRecord(k, packages.fields[k])
  }

  /** The packages locked by an acceptable registry. */
  function RegistryPackages(document: Fields): set<Package>
    requires HasRegistry(document)
  {
    var packages := Get(document, "packages").fields;
    set k | k in packages && IsLocked(packages[k].fields) :: RegistryPackageKey(k.name).value
  }

  method RegistryPairs(document: Fields) returns (result: Result<set<Package>, AuditError>)
    ensures result.Ok? <==> HasRegistry(document)
    ensures result.Ok? ==> result.value == RegistryPackages(document)
  {
    var packages := Get(document, "packages");
    if !packages.Dict? {
      return Err(AuditError);
    }
    var pairs: set<Package> := {};
    var todo := packages.fields.Keys;
    while todo != {}
      invariant todo <= packages.fields.Keys
      invariant forall k | k in packages.fields && k !in todo :: IsAcceptableRecord(k, packages.fields[k])
      invariant pairs == set k | k in packages.fields && k !in todo && IsLocked(packages.fields[k].fields)
                             :: RegistryPackageKey(k.name).value
      decreases todo
    {
      var key :| key in todo;
      var metadata := packages.fields[key];
      if !key.Name? || !metadata.Dict? {
        return Err(AuditError);
      }
      todo := todo - {key};
      if IsLocked(metadata.fields) {
        var pair := RegistryPackageKey(key.name);
        if pair.Err? {
          return Err(AuditError);
        }
        pairs := pairs + {pair.value};
      }
    }
    result := Ok(pairs);
  }

  // ---- Production references

  function AsReference(n: Node): Result<string, AuditError> {
    match n
    case Text(text) => Ok(text)
    case Dict(fields) => if Get(fields, "version").Text? then Ok(Get(fields, "version").text) else Err(AuditError)
    case Other(_) => Err(AuditError)
  }

  predicate IsLocal(reference: string) {
    "file:" <= reference || "link:" <= reference || "workspace:" <= reference
  }

  predicate IsAcceptableGroup(group: Node) {
    group.Dict? && forall k | k in group.fields :: k.Name? && AsReference(group.fields[k]).Ok?
  }

  /** The registry references of one dependency group. */
  function GroupReferences(group: Node): set<Reference>
    requires IsAcceptableGroup(group)
  {
    set k | k in group.fields && !IsLocal(AsReference(group.fields[k]).value)
      :: Reference(k.name, AsReference(group.fields[k]).value)
  }

  predicate HasGroups(owner: Fields) {
    forall g | g in PRODUCTION_GROUPS :: IsAcceptableGroup(GetOrEmpty(owner, g))
  }

  /** The production references of an importer or a snapshot. */
  function References(owner: Fields): set<Reference>
    requires HasGroups(owner)
  {
    GroupReferences(GetOrEmpty(owner, PRODUCTION_GROUPS[0])) + GroupReferences(GetOrEmpty(owner, PRODUCTION_GROUPS[1]))
  }

  function Elements<T>(s: seq<T>): set<T> {
    set x | x in s
  }

  lemma ElementsOfAppend<T>(s: seq<T>, x: T)
    ensures Elements(s + [x]) == Elements(s) + {x}
  {
  }

  method AppendGroup(group: Node, queue: seq<Reference>) returns (result: Result<seq<Reference>, AuditError>)
    ensures result.Ok? <==> IsAcceptableGroup(group)
    ensures result.Ok? ==> Elements(result.value) == Elements(queue) + GroupReferences(group)
  {
    if !group.Dict? {
      return Err(AuditError);
    }
    var more := queue;
    var todo := group.fields.Keys;
    while todo != {}
      invariant todo <= group.fields.Keys
      invariant forall k | k in group.fields && k !in todo :: k.Name? && AsReference(group.fields[k]).Ok?
      invariant Elements(more) == Elements(queue)
                + set k | k in group.fields && k !in todo && !IsLocal(AsReference(group.fields[k]).value)
                    :: Reference(k.name, AsReference(group.fields[k]).value)
      decreases todo
    {
      var key :| key in todo;
      if !key.Name? {
        return Err(AuditError);
      }
      var reference := AsReference(group.fields[key]);
      if reference.Err? {
        return Err(AuditError);
      }
      todo := todo - {key};
      if !IsLocal(reference.value) {
        ElementsOfAppend(more, Reference(key.name, reference.value));
        more := more + [Reference(key.name, reference.value)];
      }
    }
    result := Ok(more);
  }

  method AppendReferences(owner: Fields, queue: seq<Reference>) returns (result: Result<seq<Reference>, AuditError>)
    ensures result.Ok? <==> HasGroups(owner)
    ensures result.Ok? ==> Elements(result.value) == Elements(queue) + References(owner)
  {
    result := AppendGroup(GetOrEmpty(owner, PRODUCTION_GROUPS[0]), queue);
    if result.Ok? {
      result := AppendGroup(GetOrEmpty(owner, PRODUCTION_GROUPS[1]), result.value);
    }
  }

  // ---- Reachability

  function SnapshotKey(r: Reference): string {
    r.name + "@" + r.reference
  }

  predicate HasImporters(document: Fields) {
    var importers := Get(document, "importers");
    && importers.Dict?
    && forall k | k in importers.fields :: importers.fields[k].Dict? && HasGroups(importers.fields[k].fields)
  }

  /** The references the importers need in production. */
  function Roots(document: Fields): set<Reference>
    requires HasImporters(document)
  {
    var importers := Get(document, "importers").fields;
    set k, r | k in importers && r in References(importers[k].fields) :: r
  }

  function Snapshots(document: Fields): Fields {
    var snapshots := Get(document, "snapshots");
    if snapshots.Dict? then snapshots.fields else map[]
  }

  /** A snapshot is under this key, with readable production groups. */
  predicate HasSnapshot(snapshots: Fields, key: string) {
    && Name(key) in snapshots && snapshots[Name(key)].Dict?
    && HasGroups(snapshots[Name(key)].fields)
  }

  /** The second reference is a production dependency of the first one's snapshot. */
  predicate IsEdge(snapshots: Fields, from: Reference, to: Reference) {
    HasSnapshot(snapshots, SnapshotKey(from)) && to in References(snapshots[Name(SnapshotKey(from))].fields)
  }

  ghost predicate IsPath(document: Fields, path: seq<Reference>)
    requires HasImporters(document)
  {
    && path != [] && path[0] in Roots(document)
    && forall i | 0 <= i < |path| - 1 :: IsEdge(Snapshots(document), path[i], path[i + 1])
  }

  ghost predicate Reachable(document: Fields, r: Reference)
    requires HasImporters(document)
  {
    exists path :: IsPath(document, path) && path[|path| - 1] == r
  }

  /** The snapshot under a key is present, readable, and of a locked registry package. */
  predicate IsSound(snapshots: Fields, registry: set<Package>, key: string) {
    && HasSnapshot(snapshots, key)
    && RegistryPackageKey(key).Ok? && RegistryPackageKey(key).value in registry
  }

  /** Everything the audit demands of a document before it answers. */
  ghost predicate IsTrustworthy(document: Fields) {
    && HasRegistry(document) && HasImporters(document) && Get(document, "snapshots").Dict?
    && (forall r | Reachable(document, r) ::
          IsSound(Snapshots(document), RegistryPackages(document), SnapshotKey(r)))
    && Roots(document) != {}
  }

  lemma RootIsReachable(document: Fields, r: Reference)
    requires HasImporters(document) && r in Roots(document)
    ensures Reachable(document, r)
  {
    assert IsPath(document, [r]);
  }

  lemma EdgeIsReachable(document: Fields, from: Reference, to: Reference)
    requires HasImporters(document)
    requires Reachable(document, from) && IsEdge(Snapshots(document), from, to)
    ensures Reachable(document, to)
  {
    hide IsEdge, Roots, HasImporters, Snapshots;
    var path :| IsPath(document, path) && path[|path| - 1] == from;
    var longer := path + [to];
    assert IsPath(document, longer) by {
      forall i | 0 <= i < |longer| - 1
        ensures IsEdge(Snapshots(document), longer[i], longer[i + 1])
      {
        if i < |path| - 1 {
          assert IsEdge(Snapshots(document), path[i], path[i + 1]);
        }
      }
    }
    assert longer[|longer| - 1] == to;
  }

  /** Keys closed under roots and edges hold every reachable key. */
  ghost predicate IsClosed(document: Fields, keys: set<string>)
    requires HasImporters(document)
  {
    && (forall r | r in Roots(document) :: SnapshotKey(r) in keys)
    && forall from, to | SnapshotKey(from) in keys && IsEdge(Snapshots(document), from, to)
         :: SnapshotKey(to) in keys
  }

  lemma {:induction false} ClosedHoldsPath(document: Fields, keys: set<string>, path: seq<Reference>, n: nat)
    requires HasImporters(document) && IsClosed(document, keys)
    requires IsPath(document, path) && n < |path|
    ensures SnapshotKey(path[n]) in keys
  {
    if n > 0 {
      ClosedHoldsPath(document, keys, path, n - 1);
      assert IsEdge(Snapshots(document), path[n - 1], path[n - 1 + 1]);
    }
  }

  lemma ClosedHoldsReachable(document: Fields, keys: set<string>)
    requires HasImporters(document) && IsClosed(document, keys)
    ensures forall r | Reachable(document, r) :: SnapshotKey(r) in keys
  {
    forall r | Reachable(document, r)
      ensures SnapshotKey(r) in keys
    {
      var path :| IsPath(document, path) && path[|path| - 1] == r;
      ClosedHoldsPath(document, keys, path, |path| - 1);
    }
  }
}
