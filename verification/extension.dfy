/** `defineExtension` (src/extension.ts): the older name of the identifier
    constructor. It builds the same (name, variant) pair as `entity` and has its
    own copy of the default-variant constant. */
module Extension {
  import opened Identifier

  const DefaultExtensionVariant: string := "default"

  /** `defineExtension(type, variant = "default")`. */
  function DefineExtension(name: string, variant: string := DefaultExtensionVariant): (id: Id)
    ensures id.name == name && id.variant == variant
    ensures SameKind(id, Entity(name))
  {
    Entity(name, variant)
  }

  lemma OmittedExtensionVariantIsDefault(name: string)
    ensures DefineExtension(name) == Id(name, "default")
  {
  }

  /** Applying an extension identifier to `b` gives `defineExtension(type, b)`,
      whatever its own variant was, and the two constructors agree. */
  lemma ExtensionSibling(name: string, a: string, b: string)
    ensures Sibling(DefineExtension(name, a), b) == DefineExtension(name, b)
    ensures DefineExtension(name, a) == Entity(name, a)
    ensures DefineExtension(name) == Entity(name)
  {
  }
}
