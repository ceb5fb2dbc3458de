/**
 * The capability layer of the C runtime (calvinsys/cc_calvinsys.c): a
 * table of named capabilities and a table of the objects actors opened on
 * them, each keyed by a string in the runtime's string-keyed list. An
 * object dispatches `can_read`, `read`, `can_write`, `write` and `close` to
 * callbacks its capability's `open` installed.
 *
 * What a capability's own functions answer (its `open`, `can_read`, `read`,
 * `write`) is outside this module: each is a parameter of the method that
 * calls it. Actors record the capability calls they make as `SysCall`s.
 */
module CcCalvinsys {
  import opened Wrappers
  import opened Text
  import opened CcToken
  import opened CcCommon

  /** One call an actor makes into the capability layer. */
  datatype SysCall =
    | OpenCall(capability: string, period: Option<Value>)
    | CloseCall(id: string)
    | ReadCall(id: string)
    | WriteCall(id: string, data: Option<Value>, size: nat)

  /** A registered capability: whether it has an `open` function. */
  datatype Capability = Capability(hasOpen: bool)

  /** The callbacks an object's `open` installed. */
  datatype Callbacks = Callbacks(canRead: bool, read: bool, canWrite: bool, write: bool, close: bool)

  /** An open object: the capability it was opened on, the actor owning it and its callbacks. */
  datatype Obj = Obj(capability: string, owner: string, callbacks: Callbacks)

  /** The objects owned by `actor`, in table order. */
  function Owned(objects: seq<Item<Obj>>, actor: string): seq<Item<Obj>>
  {
    if |objects| == 0 then []
    else (if objects[0].data.owner == actor then [objects[0]] else []) + Owned(objects[1..], actor)
  }

  /** The objects of one actor are exactly the objects whose owner it is. */
  lemma {:induction false} OwnedMembers(objects: seq<Item<Obj>>, actor: string)
    ensures forall x :: x in Owned(objects, actor) <==> x in objects && x.data.owner == actor
  {
    if |objects| > 0 {
      OwnedMembers(objects[1..], actor);
      assert objects == [objects[0]] + objects[1..];
    }
  }

  class Calvinsys {
    var capabilities: seq<Item<Capability>>
    var objects: seq<Item<Obj>>

    /** `cc_calvinsys_init`: no capabilities, no objects. */
    constructor ()
      ensures capabilities == [] && objects == []
    {
      capabilities := [];
      objects := [];
    }

    /** The object `id` names, if any: the first one whose id is a prefix of `id`, as the list lookup finds it. */
    function Object(id: string): Option<Obj>
      reads this
    {
      Lookup(objects, id)
    }

    /** `create_capability`: a name already registered is refused and nothing changes; otherwise the capability is appended. */
    method CreateCapability(name: string, hasOpen: bool) returns (r: CcResult)
      modifies this`capabilities
      ensures Lookup(old(capabilities), name).Some? ==> r == Fail && capabilities == old(capabilities)
      ensures Lookup(old(capabilities), name).None? ==>
        r == Success && capabilities == old(capabilities) + [Item(name, Capability(hasOpen), 0, true)]
    {
      var existing := Lookup(capabilities, name);
      if existing.Some? {
        return Fail;
      }
      capabilities := capabilities + [Item(Prefix(name, |name|), Capability(hasOpen), 0, true)];
      r := Success;
    }

    /** `delete_capability`: removes the capability `name` finds. */
    method DeleteCapability(name: string)
      modifies this`capabilities
      ensures capabilities == RemoveFirst(old(capabilities), name)
    {
      capabilities := RemoveFirst(capabilities, name);
    }

    /**
     * `cc_calvinsys_open` for `actor` with the freshly generated `id`: an
     * unknown capability, or one without `open`, gives NULL and adds
     * nothing. Otherwise the object is added and the capability's `open`
     * runs; `installed` is what it installs, None when it fails, in which case
     * the object is removed again.
     */
    method Open(actor: string, name: string, id: string, installed: Option<Callbacks>) returns (r: Option<string>)
      modifies this`objects
      ensures var c := Lookup(capabilities, name);
        c.None? || !c.value.hasOpen ==> r.None? && objects == old(objects)
      ensures var c := Lookup(capabilities, name);
        c.Some? && c.value.hasOpen && installed.None? ==> r.None? && objects == RemoveFirst(old(objects) + [Item(id, Obj(name, actor, Callbacks(false, false, false, false, false)), 0, true)], id)
      ensures var c := Lookup(capabilities, name);
        c.Some? && c.value.hasOpen && installed.Some? ==> r == Some(id) && objects == old(objects) + [Item(id, Obj(name, actor, installed.value), 0, true)]
    {
      var capability := Lookup(capabilities, name);
      if capability.None? || !capability.value.hasOpen {
        return None;
      }
      objects := objects + [Item(Prefix(id, |id| + 1), Obj(name, actor, Callbacks(false, false, false, false, false)), 0, true)];
      if installed.None? {
        objects := RemoveFirst(objects, id);
        return None;
      }
      objects := objects[|objects| - 1 := Item(id, Obj(name, actor, installed.value), 0, true)];
      r := Some(id);
    }

    /** `can_read`: false for an unknown id or without the callback, otherwise what the callback answers. */
    method CanRead(id: string, answer: bool) returns (r: bool)
      ensures r == (Object(id).Some? && Object(id).value.callbacks.canRead && answer)
    {
      var obj := Lookup(objects, id);
      r := obj.Some? && obj.value.callbacks.canRead && answer;
    }

    /** `can_write`: false for an unknown id or without the callback, otherwise what the callback answers. */
    method CanWrite(id: string, answer: bool) returns (r: bool)
      ensures r == (Object(id).Some? && Object(id).value.callbacks.canWrite && answer)
    {
      var obj := Lookup(objects, id);
      r := obj.Some? && obj.value.callbacks.canWrite && answer;
    }

    /** `read`: fails for an unknown id or without the callback, otherwise returns what the callback reads (None when it fails). */
    method Read(id: string, reading: Option<Token>) returns (r: Option<Token>)
      ensures Object(id).None? || !Object(id).value.callbacks.read ==> r.None?
      ensures Object(id).Some? && Object(id).value.callbacks.read ==> r == reading
    {
      var obj := Lookup(objects, id);
      if obj.None? || !obj.value.callbacks.read {
        return None;
      }
      r := reading;
    }

    /** `write`: fails for an unknown id or without the callback, otherwise reports what the callback reports. */
    method Write(id: string, accepted: bool) returns (r: CcResult)
      ensures Object(id).None? || !Object(id).value.callbacks.write ==> r == Fail
      ensures Object(id).Some? && Object(id).value.callbacks.write ==> r == BoolAsResult(!accepted)
    {
      var obj := Lookup(objects, id);
      if obj.None? || !obj.value.callbacks.write {
        return Fail;
      }
      r := if accepted then Success else Fail;
    }

    /** `close`: the object `id` names is removed; an unknown id changes nothing. */
    method Close(id: string)
      modifies this`objects
      ensures objects == RemoveFirst(old(objects), id)
    {
      objects := RemoveFirst(objects, id);
    }

    /** `get_number_of_attributes`: the number of objects `actor` owns, counted by walking the table. */
    method NumberOfAttributes(actor: string) returns (n: nat)
      ensures n == |Owned(objects, actor)|
    {
      n := 0;
      var i := 0;
      while i < |objects|
        invariant 0 <= i <= |objects|
        invariant n + |Owned(objects[i..], actor)| == |Owned(objects, actor)|
      {
        assert objects[i..][1..] == objects[i + 1..];
        if objects[i].data.owner == actor {
          n := n + 1;
        }
        i := i + 1;
      }
    }

    /**
     * The entries of the "_calvinsys" attribute `get_attributes` writes for
     * `actor`: one per owned object, its id with its capability's name. No
     * object gives the empty map.
     */
    method AttributeEntries(actor: string) returns (entries: seq<(string, string)>)
      ensures |entries| == |Owned(objects, actor)|
      ensures forall k | 0 <= k < |entries| ::
        entries[k] == (Owned(objects, actor)[k].id, Owned(objects, actor)[k].data.capability)
    {
      entries := [];
      var i := 0;
      while i < |objects|
        invariant 0 <= i <= |objects|
        invariant Owned(objects[..i], actor) + Owned(objects[i..], actor) == Owned(objects, actor)
        invariant |entries| == |Owned(objects[..i], actor)|
        invariant forall k | 0 <= k < |entries| ::
          entries[k] == (Owned(objects[..i], actor)[k].id, Owned(objects[..i], actor)[k].data.capability)
      {
        OwnedSplit(objects[..i], objects[i], actor);
        assert objects[..i + 1] == objects[..i] + [objects[i]];
        assert objects[i..][1..] == objects[i + 1..];
        if objects[i].data.owner == actor {
          entries := entries + [(objects[i].id, objects[i].data.capability)];
        }
        i := i + 1;
      }
      assert objects[..i] == objects;
    }
  }

  /** Appending one object to a table appends it to its owner's objects and to no one else's. */
  lemma {:induction false} OwnedSplit(objects: seq<Item<Obj>>, x: Item<Obj>, actor: string)
    ensures Owned(objects + [x], actor) == Owned(objects, actor) + (if x.data.owner == actor then [x] else [])
  {
    if |objects| > 0 {
      assert (objects + [x])[1..] == objects[1..] + [x];
      OwnedSplit(objects[1..], x, actor);
    } else {
      assert Owned([x], actor) == (if x.data.owner == actor then [x] else []) + Owned([], actor);
    }
  }

  /** Opening with a fresh id and a failing `open` leaves the object table as it was. */
  lemma FailedOpenRestores(objects: seq<Item<Obj>>, x: Item<Obj>)
    requires FirstPrefixOf(objects, x.id).None?
    ensures RemoveFirst(objects + [x], x.id) == objects
  {
    RemoveAppended(objects, x);
  }

  /** After a successful open with a fresh id, the returned id names the new object, with the callbacks `open` installed. */
  lemma OpenedFound(objects: seq<Item<Obj>>, x: Item<Obj>)
    requires FirstPrefixOf(objects, x.id).None?
    ensures Lookup(objects + [x], x.id) == Some(x.data)
  {
    LookupAppended(objects, x);
  }

  /** Closing an object just opened with a fresh id gives the table back. */
  lemma CloseAfterOpen(objects: seq<Item<Obj>>, x: Item<Obj>)
    requires FirstPrefixOf(objects, x.id).None?
    ensures RemoveFirst(objects + [x], x.id) == objects && Lookup(objects, x.id).None?
  {
    RemoveAppended(objects, x);
  }
}
