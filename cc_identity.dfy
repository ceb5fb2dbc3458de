/**
 * The top-level copy of the identity actor (actors/cc_actor_identity.c).
 * Its `init`, `set_state` and `fire` are those of the standard identity
 * actor and are modelled once, by `StdIdentity.Identity`. Two things
 * differ: `get_attributes` has no check for a missing state, and the actor
 * type is registered in the runtime's actor-type list by `register`.
 */
module CcIdentity {
  import opened Wrappers
  import opened CcToken
  import opened CcCommon
  import opened StdIdentity
  import opened Text

  /** The name the type is registered under. */
  const TypeName := "std.Identity"

  /** `get_attributes` of this copy: the state is dereferenced unchecked, so it must exist; "dump" and "last" are appended. */
  method GetAttributes(actor: Identity, managed: CcList<Value>)
    requires actor.dump.Some?
    modifies managed
    ensures managed.items == old(managed.items) + Attributes(actor.dump.value)
  {
    var d := actor.dump.value;
    managed.AddN("dump", 4, Bool(d), EncodedSize(Bool(d)));
    managed.AddN("last", 4, Nil, EncodedSize(Nil));
    assert Prefix("dump", 4) == "dump" && Prefix("last", 4) == "last";
  }

  /** The entry `register` appends: the type's functions under "std.Identity", sized as one pointer. */
  function Registration<T>(impl: T, pointerSize: nat): Item<T>
  {
    Item(TypeName, impl, pointerSize, true)
  }

  /** `register`: appends the identity type to the actor-type list. */
  method Register<T>(actorTypes: CcList<T>, impl: T, pointerSize: nat)
    modifies actorTypes
    ensures actorTypes.items == old(actorTypes.items) + [Registration(impl, pointerSize)]
  {
    actorTypes.AddN(TypeName, 12, impl, pointerSize);
    assert Prefix(TypeName, 12) == TypeName;
  }

  /**
   * After registering into a list where no earlier type name is a prefix of
   * "std.Identity", looking the name up finds the identity type.
   */
  lemma RegisteredTypeFound<T>(earlier: seq<Item<T>>, impl: T, pointerSize: nat)
    requires FirstPrefixOf(earlier, TypeName).None?
    ensures Lookup(earlier + [Registration(impl, pointerSize)], TypeName) == Some(impl)
  {
    LookupAppended(earlier, Registration(impl, pointerSize));
  }
}
