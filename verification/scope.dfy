/** Scope keys (src/const.ts). A scope is a list of path segments; the
    registry is keyed by its `stringify()`, the segments joined with "/". The
    root scope has no segments. */
module Scope {
  import Strings
  import Identifier

  type ScopePath = seq<string>

  const RootScope: ScopePath := []

  /** `ENTITY_VARIANT_DEFAULT`. */
  const EntityVariantDefault: string := "default"

  /** `scope.stringify()`, that is `scope.join('/')`. */
  function Stringify(scope: ScopePath): string
  {
    Strings.Join(scope, '/')
  }

  lemma RootStringifiesToEmpty()
    ensures |RootScope| == 0
    ensures Stringify(RootScope) == ""
  {
  }

  lemma SingleSegmentUnchanged(segment: string)
    ensures Stringify([segment]) == segment
  {
  }

  /** Stringifying a longer path puts one "/" between the two halves. */
  lemma {:induction false} StringifyAppend(a: ScopePath, b: ScopePath)
    requires |a| > 0 && |b| > 0
    ensures Stringify(a + b) == Stringify(a) + "/" + Stringify(b)
    decreases |a|
  {
    if |a| == 1 {
      assert (a + b)[1..] == b;
    } else {
      assert (a + b)[1..] == a[1..] + b;
      StringifyAppend(a[1..], b);
    }
  }

  /** The key identifies the path: splitting it on "/" gives the segments
      back, as long as the path is not the root and no segment holds a "/". */
  lemma StringifyRoundTrip(scope: ScopePath)
    requires |scope| > 0
    requires forall i :: 0 <= i < |scope| ==> '/' !in scope[i]
    ensures Strings.Split(Stringify(scope), '/') == scope
  {
    Strings.SplitJoin(scope, '/');
  }

  /** The default variant of const.ts is the one entity.ts uses. */
  lemma DefaultVariantsAgree()
    ensures EntityVariantDefault == Identifier.DefaultVariant == "default"
  {
  }
}
