/**
 * A dependency bundled with the editor (src/Dependency/BundledDependency.js):
 * an identifier and a store, from which the router mount point, the dependency
 * key and the initializer that registers it are derived.
 */
module Dependency {
  import opened Wrappers
  import opened Strings
  import opened MappedEntry

  /** `getIdentifier()` and `getFileSystem()`, which subclasses supply. */
  datatype BundledDependency = BundledDependency(identifier: string, fileSystem: Store)

  /** The provider registration the initializer performs (`registerDependencyProvider`). */
  datatype Registration = Registration(dependencyKey: string, uri: string, startDepth: int)

  /** `getBaseUri()`: the store's own root, the target of the dependency's binding. */
  function BaseUri(d: BundledDependency): (r: string)
    ensures r == "file:///"
  {
    "file:///"
  }

  /** `getMountPoint()`: `file:///<id>/`. */
  function MountPoint(d: BundledDependency): (r: string)
    ensures StartsWith(r, "file:///") && EndsWithSlash(r) && |r| == |d.identifier| + 9
    ensures r[8..|r| - 1] == d.identifier
  {
    "file:///" + d.identifier + "/"
  }

  /** `getDependencyName()`: `@<id>`. */
  function DependencyName(d: BundledDependency): (r: string)
    ensures |r| == |d.identifier| + 1 && r[0] == '@' && r[1..] == d.identifier
  {
    "@" + d.identifier
  }

  /** What `getInitializer()`'s function does when run: register the mount point under the key. */
  function Initializer(d: BundledDependency): (r: Registration)
    ensures r.dependencyKey == DependencyName(d) && r.uri == MountPoint(d) && r.startDepth == 0
  {
    Registration(DependencyName(d), MountPoint(d), 0)
  }

  /** Two dependencies share a key or a mount point only when they share an identifier. */
  lemma NamesDistinguish(a: BundledDependency, b: BundledDependency)
    ensures DependencyName(a) == DependencyName(b) <==> a.identifier == b.identifier
    ensures MountPoint(a) == MountPoint(b) <==> a.identifier == b.identifier
  {
    if DependencyName(a) == DependencyName(b) {
      assert a.identifier == DependencyName(a)[1..];
    }
    if MountPoint(a) == MountPoint(b) {
      assert a.identifier == MountPoint(a)[8..|MountPoint(a)| - 1];
    }
  }

  /** The mount point already ends with `/`, so the binding keeps it as given. */
  lemma MountPointKept(d: BundledDependency)
    ensures NewEntry(MountPoint(d), BaseUri(d), d.fileSystem).sourceBaseUri == MountPoint(d)
    ensures NewEntry(MountPoint(d), BaseUri(d), d.fileSystem).targetBaseUri == BaseUri(d)
  {
  }

  /** The dependency's binding sends `file:///<id>/<rest>` to `file:///<rest>` in its store. */
  lemma DependencyAddress(d: BundledDependency, rest: string)
    ensures Map(NewEntry(MountPoint(d), BaseUri(d), d.fileSystem), MountPoint(d) + rest) == Some("file:///" + rest)
  {
    MapSuffix(NewEntry(MountPoint(d), BaseUri(d), d.fileSystem), rest);
  }
}
