/** The errors the container raises. `EntityNotFound`, `MissingDependency` and
    `CircularDependency` are the error classes the tests import;
    `BadDependencyPattern` is the message thrown by the synthesized factory for
    an array dependency of the wrong length. */
module Errors {
  import opened Identifier

  datatype Error =
    | EntityNotFound(id: Id)
      /** A binding's own dependency was not found: `missing` was asked for
          while building `requester`. */
    | MissingDependency(missing: Id, requester: Id)
      /** `path` is the in-flight stack followed by the repeated identifier. */
    | CircularDependency(path: seq<Id>)
    | RecursionLimit(path: seq<Id>)
    | BadDependencyPattern(length: nat)
    | RegistrationConflict(id: Id)
}
