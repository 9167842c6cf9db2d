/** Properties of the router's binding list: first match, mount order and `umount`. */
module MappedFsProps {
  import opened Wrappers
  import opened Strings
  import opened ErrorFactory
  import opened MappedEntry
  import opened MappedFs

  /** For bindings built by the constructor, the truthiness test adds nothing to `map`. */
  lemma MapsIffMap(e: MappedFileSystemEntry, location: string)
    requires Normal(e)
    ensures Maps(e, location) <==> Map(e, location).Some?
  {
    if Map(e, location).Some? {
      MapNonEmpty(e, location);
    }
  }

  /** The router takes the first binding, in registration order, that maps the address. */
  lemma {:induction false} RouteFirstMatch(bindings: seq<MappedFileSystemEntry>, location: string, i: nat)
    requires i < |bindings| && Maps(bindings[i], location)
    requires forall j :: 0 <= j < i ==> !Maps(bindings[j], location)
    ensures Route(bindings, location) == Ok((bindings[i].fileSystem, Map(bindings[i], location).value))
    decreases i
  {
    if i > 0 {
      assert !Maps(bindings[0], location);
      RouteFirstMatch(bindings[1..], location, i - 1);
    }
  }

  /** The router answers exactly when some binding maps the address; otherwise EACCES. */
  lemma {:induction false} RouteDefined(bindings: seq<MappedFileSystemEntry>, location: string)
    ensures Route(bindings, location).Ok? <==> exists i :: 0 <= i < |bindings| && Maps(bindings[i], location)
    ensures Route(bindings, location).Err? ==> Route(bindings, location) == Fail(EACCES, location)
    decreases |bindings|
  {
    if |bindings| > 0 {
      RouteDefined(bindings[1..], location);
      if Route(bindings[1..], location).Ok? {
        var i :| 0 <= i < |bindings[1..]| && Maps(bindings[1..][i], location);
        assert Maps(bindings[i + 1], location);
      }
      if exists i :: 0 <= i < |bindings| && Maps(bindings[i], location) {
        var i :| 0 <= i < |bindings| && Maps(bindings[i], location);
        if i > 0 {
          assert Maps(bindings[1..][i - 1], location);
        }
      }
    }
  }

  /** A binding mounted later never takes an address an earlier one maps. */
  lemma {:induction false} MountKeepsRoutes(bindings: seq<MappedFileSystemEntry>, e: MappedFileSystemEntry, location: string)
    ensures Route(bindings, location).Ok? ==> Route(bindings + [e], location) == Route(bindings, location)
    ensures Route(bindings, location).Err? ==>
      Route(bindings + [e], location) ==
        if Maps(e, location) then Ok((e.fileSystem, Map(e, location).value)) else Fail(EACCES, location)
    decreases |bindings|
  {
    if |bindings| == 0 {
      assert bindings + [e] == [e];
    } else {
      assert (bindings + [e])[1..] == bindings[1..] + [e];
      MountKeepsRoutes(bindings[1..], e, location);
    }
  }

  /**
   * First match, not longest prefix: with `file:///x/` mounted before
   * `file:///x/y/`, the address `file:///x/y/z` goes to the first store, as its
   * target followed by `y/z`.
   */
  lemma FirstMatchShadows(a: Store, targetA: string, b: Store, targetB: string)
    ensures Route([NewEntry("file:///x/", targetA, a), NewEntry("file:///x/y/", targetB, b)], "file:///x/y/z") ==
      Ok((a, EnsureEndingSlash(targetA) + "y/z"))
  {
    var first := NewEntry("file:///x/", targetA, a);
    assert "file:///x/y/z" == first.sourceBaseUri + "y/z";
    MapSuffix(first, "y/z");
    MapNonEmpty(first, "file:///x/y/z");
  }

  /** `umount` keeps the order of what it keeps: it works piece by piece. */
  lemma {:induction false} WithoutAppend(a: seq<MappedFileSystemEntry>, b: seq<MappedFileSystemEntry>, sourceBaseUri: string)
    ensures Without(a + b, sourceBaseUri) == Without(a, sourceBaseUri) + Without(b, sourceBaseUri)
    decreases |a|
  {
    if |a| == 0 {
      assert a + b == b;
    } else {
      assert (a + b)[1..] == a[1..] + b;
      WithoutAppend(a[1..], b, sourceBaseUri);
    }
  }

  /** Unmounting a prefix no binding has changes nothing. */
  lemma {:induction false} UmountUnknown(bindings: seq<MappedFileSystemEntry>, sourceBaseUri: string)
    requires forall i :: 0 <= i < |bindings| ==> bindings[i].sourceBaseUri != sourceBaseUri
    ensures Without(bindings, sourceBaseUri) == bindings
    decreases |bindings|
  {
    if |bindings| > 0 {
      UmountUnknown(bindings[1..], sourceBaseUri);
    }
  }

  /**
   * The stored prefixes end with `/`, so `umount` of a prefix without one removes
   * nothing, even when it was mounted under that very spelling.
   */
  lemma UmountNeedsSlash(bindings: seq<MappedFileSystemEntry>, sourceBaseUri: string)
    requires forall i :: 0 <= i < |bindings| ==> Normal(bindings[i])
    requires !EndsWithSlash(sourceBaseUri)
    ensures Without(bindings, sourceBaseUri) == bindings
  {
    UmountUnknown(bindings, sourceBaseUri);
  }

  /** After `umount(s)` no binding with source `s` is ever taken. */
  lemma UmountRemoves(bindings: seq<MappedFileSystemEntry>, sourceBaseUri: string, location: string)
    requires Route(Without(bindings, sourceBaseUri), location).Ok?
    ensures exists i :: 0 <= i < |bindings| && bindings[i].sourceBaseUri != sourceBaseUri && Maps(bindings[i], location)
  {
    var kept := Without(bindings, sourceBaseUri);
    RouteDefined(kept, location);
    var i :| 0 <= i < |kept| && Maps(kept[i], location);
    var j :| 0 <= j < |bindings| && bindings[j] == kept[i];
  }
}
