/**
 * Errors as the stores raise them and as ErrorFactory builds and classifies them
 * (src/Externals/ErrorFactory.js). Every store error is an `Error` whose message is
 * "<code>: <detail>"; the language service tells them apart with a prefix test.
 */
module ErrorFactory {
  import opened Strings

  /** A thrown value: an `Error` (or subclass) with its `name` and `message`, or anything else. */
  datatype Thrown = Error(name: string, message: string) | Other

  /** The outcome of an operation: a value, or the value it throws (a rejected promise). */
  datatype Result<+T> = Ok(value: T) | Err(error: Thrown)

  const EACCES := "EACCES"
  const ENOENT := "ENOENT"
  const EEXIST := "EEXIST"
  const EISDIR := "EISDIR"
  const ENOTDIR := "ENOTDIR"
  const EPERM := "EPERM"

  /** `createKind(kind, message)`: a plain `Error` whose message starts with the kind. */
  function CreateKind(kind: string, message: string): (e: Thrown)
    ensures e.Error? && e.name == "Error"
    ensures |e.message| == |kind| + 2 + |message|
    ensures e.message[..|kind|] == kind && e.message[|kind|..|kind| + 2] == ": "
    ensures e.message[|kind| + 2..] == message
  {
    Error("Error", kind + ": " + message)
  }

  /** `isKind(e, kind)`: `e` is an `Error` and its message starts with `kind`. */
  predicate IsKind(e: Thrown, kind: string)
    ensures IsKind(e, kind) ==> e.Error? && |kind| <= |e.message|
    ensures e.Error? && kind == "" ==> IsKind(e, kind)
  {
    e.Error? && StartsWith(e.message, kind)
  }

  /** The failure a store raises for `kind` at `address`. */
  function Fail<T>(kind: string, address: string): (r: Result<T>)
    ensures r.Err? && IsKind(r.error, kind)
  {
    Err(CreateKind(kind, address))
  }

  /** An error built by `CreateKind` is of its own kind. */
  lemma CreateKindIsKind(kind: string, message: string)
    ensures IsKind(CreateKind(kind, message), kind)
  {
  }

  /** `IsKind` is a prefix test: every prefix of the kind matches too. */
  lemma IsKindPrefix(kind: string, message: string, prefix: string)
    requires StartsWith(kind, prefix)
    ensures IsKind(CreateKind(kind, message), prefix)
  {
    var m := CreateKind(kind, message).message;
    assert m[..|prefix|] == m[..|kind|][..|prefix|];
  }

  /** A value that is not an `Error` is of no kind. */
  lemma IsKindOther(kind: string)
    ensures !IsKind(Other, kind)
  {
  }

  /** Two strings one of which starts the other agree on their first `n` characters. */
  lemma PrefixAgree(m: string, p: string, n: nat)
    requires n <= |p| <= |m| && m[..|p|] == p
    ensures m[..n] == p[..n]
  {
    forall i | 0 <= i < n
      ensures m[..n][i] == p[..n][i]
    {
      assert m[..|p|][i] == m[i];
    }
  }

  /** The six store codes are told apart: an error of one code is of no other code. */
  lemma CodesDistinct(code: string, other: string, message: string)
    requires code in {EACCES, ENOENT, EEXIST, EISDIR, ENOTDIR, EPERM}
    requires other in {EACCES, ENOENT, EEXIST, EISDIR, ENOTDIR, EPERM}
    ensures IsKind(CreateKind(code, message), other) <==> code == other
  {
    var m := CreateKind(code, message).message;
    // the six codes already differ in their first four characters
    assert m[..4] == code[..4];
    if IsKind(CreateKind(code, message), other) {
      assert m[..|other|] == other && |other| >= 4;
      PrefixAgree(m, other, 4);
      assert code[..4] == other[..4];
      assert EACCES[..4] == "EACC" && ENOENT[..4] == "ENOE" && EEXIST[..4] == "EEXI";
      assert EISDIR[..4] == "EISD" && ENOTDIR[..4] == "ENOT" && EPERM[..4] == "EPER";
    }
  }
}
