/**
 * The one-slot cache of computed decorations (src/DecorationsCache.js), keyed by
 * the document version they were computed for.
 */
module Decorations {
  import opened Wrappers

  /** One colour mark over `[from, to)` with the class of a token type. */
  datatype Mark = Mark(from: int, to: int, tokenType: string)

  /** A decoration set, built by adding marks one at a time. */
  type DecorationSet = seq<Mark>

  /** `Decoration.none`. */
  const NONE: DecorationSet := []

  class DecorationsCache {
    var version: Option<int>
    var decorations: DecorationSet

    /** A new cache: no version (`null`) and no decorations. */
    constructor()
      ensures version == None && decorations == NONE
    {
      version := None;
      decorations := NONE;
    }

    /** `set(version, decorations)`: both fields are overwritten; returns the cache. */
    method Set(v: int, d: DecorationSet) returns (self: DecorationsCache)
      modifies this
      ensures version == Some(v) && decorations == d && self == this
      ensures Has(Some(v)) && Get() == d
      ensures forall w :: w != Some(v) ==> !Has(w)
    {
      version := Some(v);
      decorations := d;
      self := this;
    }

    /** `has(version)`: strict equality with the stored version, `null` included. */
    predicate Has(v: Option<int>)
      reads this
      ensures v.None? ==> (Has(v) <==> version.None?)
      ensures version.Some? ==> (Has(v) <==> v.Some? && v.value == version.value)
    {
      version == v
    }

    /** `get()`. */
    function Get(): DecorationSet
      reads this
    {
      decorations
    }

    /** `flush()`: back to the state of a new cache; only `has(null)` holds afterwards. */
    method Flush() returns (self: DecorationsCache)
      modifies this
      ensures version == None && decorations == NONE && self == this
      ensures Has(None) && forall n: int :: !Has(Some(n))
      ensures Get() == NONE
    {
      version := None;
      decorations := NONE;
      self := this;
    }
  }
}
