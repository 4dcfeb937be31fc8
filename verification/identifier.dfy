/** Entity identifiers (src/entity.ts). An identifier is a (name, variant)
    pair; in the source it is also a function that, applied to a new variant,
    returns the sibling identifier with the same name. Here that application is
    `Sibling`. The source writes the name into a field called `type`, while the
    tests and the `Entity` type read it as `kind`; the model keeps one field,
    `name`, for both. */
module Identifier {

  /** The variant an identifier gets when none is given. */
  const DefaultVariant: string := "default"

  datatype Id = Id(name: string, variant: string)

  /** `entity(type, variant = "default")`. */
  function Entity(name: string, variant: string := DefaultVariant): (id: Id)
    ensures id.name == name && id.variant == variant
  {
    Id(name, variant)
  }

  /** Calling an identifier with `variant`: `entity(type, variant)` again,
      with the name captured from the identifier being called. */
  function Sibling(id: Id, variant: string): (r: Id)
    ensures r.name == id.name && r.variant == variant
    ensures r == Entity(id.name, variant)
  {
    Entity(id.name, variant)
  }

  /** Two identifiers belong to the same family when they share a name;
      `getAll` returns a whole family. */
  predicate SameKind(a: Id, b: Id)
  {
    a.name == b.name
  }

  /** Applying an identifier to a chain of variants, left to right:
      `id(vs[0])(vs[1])...`. */
  function DeriveAll(id: Id, vs: seq<string>): Id
    decreases |vs|
  {
    if |vs| == 0 then id else DeriveAll(Sibling(id, vs[0]), vs[1..])
  }

  lemma OmittedVariantIsDefault(name: string)
    ensures Entity(name) == Id(name, "default")
  {
  }

  /** `entity(t, a)(b)` is `entity(t, b)`: the original variant plays no part. */
  lemma SiblingIgnoresVariant(name: string, a: string, b: string)
    ensures Sibling(Entity(name, a), b) == Entity(name, b)
    ensures SameKind(Entity(name, a), Sibling(Entity(name, a), b))
  {
  }

  /** Applying an identifier to its own variant gives it back. */
  lemma SiblingOfOwnVariant(id: Id)
    ensures Sibling(id, id.variant) == id
  {
  }

  /** However many times an identifier is applied, the result keeps the
      name and carries only the last variant. */
  lemma {:induction false} DerivationKeepsName(id: Id, vs: seq<string>)
    ensures SameKind(DeriveAll(id, vs), id)
    ensures |vs| > 0 ==> DeriveAll(id, vs) == Entity(id.name, vs[|vs| - 1])
    ensures |vs| == 0 ==> DeriveAll(id, vs) == id
    decreases |vs|
  {
    if |vs| > 0 {
      DerivationKeepsName(Sibling(id, vs[0]), vs[1..]);
    }
  }
}
