/**
 * The default non-preemptive scheduler
 * (runtime/north/scheduler/np_scheduler/cc_scheduler.c). One call walks the
 * node's actor list once: an actor marked DO_DELETE is freed and skipped,
 * an ENABLED actor is fired, and every other actor, fired or not, has each
 * in-port and then each out-port transmitted.
 *
 * What an actor's `fire` does is the actor type's own code; here whether it
 * reported firing is the oracle `fire`. The effect of one transmit is
 * `CcPort.Node.Transmit`; the scheduler gives back the ports in the order
 * it transmits them.
 */
module CcScheduler {
  import opened Wrappers
  import opened CcActor
  import opened CcPort

  /** What the scheduler reads of an actor when it reaches it: its state and its in-ports followed by its out-ports. */
  datatype Entry = Entry(actor: Actor, state: ActorState, ports: seq<Port>)

  /** The entries of the listed actors, in order; nothing the scheduler does changes what it reads. */
  function Entries(actors: seq<Actor>): (r: seq<Entry>)
    reads (set a | a in actors)`state, (set a | a in actors)`inPorts, (set a | a in actors)`outPorts
    ensures |r| == |actors|
    ensures forall i | 0 <= i < |actors| :: r[i] == Entry(actors[i], actors[i].state, actors[i].inPorts + actors[i].outPorts)
  {
    if |actors| == 0 then []
    else [Entry(actors[0], actors[0].state, actors[0].inPorts + actors[0].outPorts)] + Entries(actors[1..])
  }

  /** What one round did: whether any actor fired, the actors fired, the ports transmitted and the actors freed, each in order. */
  datatype Round = Round(fired: bool, called: seq<Actor>, transmitted: seq<Port>, deleted: seq<Actor>)

  /** One round's work followed by another's. */
  function Join(a: Round, b: Round): Round
  {
    Round(a.fired || b.fired, a.called + b.called, a.transmitted + b.transmitted, a.deleted + b.deleted)
  }

  /** The work of one round on one actor. */
  function Visit(e: Entry, fire: Actor -> bool): Round
  {
    if e.state == ActorDoDelete then Round(false, [], [], [e.actor])
    else
      var enabled := e.state == ActorEnabled;
      Round(enabled && fire(e.actor), if enabled then [e.actor] else [], e.ports, [])
  }

  /** The work of one round of `fire_actors` over the entries of the listed actors, in list order. */
  function RoundOf(entries: seq<Entry>, fire: Actor -> bool): Round
  {
    if |entries| == 0 then Round(false, [], [], [])
    else Join(Visit(entries[0], fire), RoundOf(entries[1..], fire))
  }

  /** The actor list after `cc_list_remove(&node->actors, key)`: the first actor whose id is a prefix of `key` is unlisted. */
  function WithoutActor(actors: seq<Actor>, key: string): (r: seq<Actor>)
    reads (set a | a in actors)`id
    ensures |r| <= |actors| && forall a | a in r :: a in actors
  {
    if |actors| == 0 then []
    else if actors[0].id <= key then actors[1..]
    else [actors[0]] + WithoutActor(actors[1..], key)
  }

  /** The actor list after `cc_actor_free` has unlisted each of `deleted` by its id, in order. */
  function Freed(actors: seq<Actor>, deleted: seq<Actor>): (r: seq<Actor>)
    reads (set a | a in actors)`id, (set a | a in deleted)`id
    ensures forall a | a in r :: a in actors
    decreases |deleted|
  {
    if |deleted| == 0 then actors
    else Freed(WithoutActor(actors, deleted[0].id), deleted[1..])
  }

  /** Freeing one more actor unlists it from what the earlier frees left. */
  lemma {:induction false} FreedSnoc(actors: seq<Actor>, deleted: seq<Actor>, a: Actor)
    ensures Freed(actors, deleted + [a]) == WithoutActor(Freed(actors, deleted), a.id)
    decreases |deleted|
  {
    if |deleted| > 0 {
      assert (deleted + [a])[1..] == deleted[1..] + [a];
      FreedSnoc(WithoutActor(actors, deleted[0].id), deleted[1..], a);
    }
  }

  /**
   * `fire_actors`: one round over the node's actor list, as listed when the
   * round starts; what it reads of each actor is what it was at the start,
   * since neither firing nor transmitting changes an actor's state or its
   * port lists. The result is whether any actor fired; `called` and
   * `transmitted` are the actors fired and the ports transmitted, in order.
   * Each DO_DELETE actor is unlisted by its id when it is reached.
   */
  method FireActors(node: Node, fire: Actor -> bool) returns (fired: bool, called: seq<Actor>, transmitted: seq<Port>)
    modifies node`actors
    ensures var round := RoundOf(old(Entries(node.actors)), fire);
      fired == round.fired && called == round.called && transmitted == round.transmitted
      && node.actors == Freed(old(node.actors), round.deleted)
  {
    var list := node.actors;
    var entries := Entries(list);
    ghost var deleted: seq<Actor> := [];
    ghost var done := Round(false, [], [], []);
    fired, called, transmitted := false, [], [];
    var i := 0;
    while i < |entries|
      invariant 0 <= i <= |entries|
      invariant done == Round(fired, called, transmitted, deleted)
      invariant RoundOf(entries, fire) == Join(done, RoundOf(entries[i..], fire))
      invariant node.actors == Freed(list, deleted)
    {
      var e := entries[i];
      RoundStep(entries, i, done, fire);
      done := Join(done, Visit(e, fire));
      if e.state == ActorDoDelete {
        FreedSnoc(list, deleted, e.actor);
        node.actors := WithoutActor(node.actors, e.actor.id);
        deleted := deleted + [e.actor];
        assert called + [] == called && transmitted + [] == transmitted;
      } else {
        if e.state == ActorEnabled {
          if fire(e.actor) {
            fired := true;
          }
          called := called + [e.actor];
        } else {
          assert called + [] == called;
        }
        transmitted := transmitted + e.ports;
        assert deleted + [] == deleted;
      }
      i := i + 1;
    }
    assert entries[i..] == [];
    assert deleted + [] == deleted && called + [] == called && transmitted + [] == transmitted;
  }

  /** Visiting the next actor moves its work from the rounds to come to the round done so far. */
  lemma RoundStep(entries: seq<Entry>, i: nat, done: Round, fire: Actor -> bool)
    requires i < |entries| && RoundOf(entries, fire) == Join(done, RoundOf(entries[i..], fire))
    ensures RoundOf(entries, fire) == Join(Join(done, Visit(entries[i], fire)), RoundOf(entries[i + 1..], fire))
  {
    assert entries[i..][0] == entries[i] && entries[i..][1..] == entries[i + 1..];
    JoinAssociates(done, Visit(entries[i], fire), RoundOf(entries[i + 1..], fire));
  }

  /** Joining rounds is associative. */
  lemma JoinAssociates(a: Round, b: Round, c: Round)
    ensures Join(Join(a, b), c) == Join(a, Join(b, c))
  {
    assert a.called + b.called + c.called == a.called + (b.called + c.called);
    assert a.transmitted + b.transmitted + c.transmitted == a.transmitted + (b.transmitted + c.transmitted);
    assert a.deleted + b.deleted + c.deleted == a.deleted + (b.deleted + c.deleted);
  }

  /** A round reports firing exactly when some ENABLED actor's `fire` reported it. */
  lemma {:induction false} FiredMeaning(entries: seq<Entry>, fire: Actor -> bool)
    ensures RoundOf(entries, fire).fired <==>
      exists i | 0 <= i < |entries| :: entries[i].state == ActorEnabled && fire(entries[i].actor)
  {
    if |entries| > 0 {
      FiredMeaning(entries[1..], fire);
      if RoundOf(entries[1..], fire).fired {
        var i :| 0 <= i < |entries[1..]| && entries[1..][i].state == ActorEnabled && fire(entries[1..][i].actor);
        assert entries[i + 1] == entries[1..][i];
      }
      assert forall i | 1 <= i < |entries| :: entries[i] == entries[1..][i - 1];
    }
  }

  /** The ENABLED actors, in order. */
  function Enabled(entries: seq<Entry>): (r: seq<Actor>)
  {
    if |entries| == 0 then []
    else (if entries[0].state == ActorEnabled then [entries[0].actor] else []) + Enabled(entries[1..])
  }

  /** An actor is fired exactly when it is listed ENABLED. */
  lemma {:induction false} EnabledMeaning(entries: seq<Entry>, a: Actor)
    ensures a in Enabled(entries) <==> exists i | 0 <= i < |entries| :: entries[i].actor == a && entries[i].state == ActorEnabled
  {
    if |entries| > 0 {
      EnabledMeaning(entries[1..], a);
      assert forall i | 1 <= i < |entries| :: entries[i] == entries[1..][i - 1];
      if a in Enabled(entries[1..]) {
        var i :| 0 <= i < |entries[1..]| && entries[1..][i].actor == a && entries[1..][i].state == ActorEnabled;
        assert entries[i + 1] == entries[1..][i];
      }
    }
  }

  /** The actors fired are the ENABLED ones, each once per listing, in list order. */
  lemma {:induction false} CalledMeaning(entries: seq<Entry>, fire: Actor -> bool)
    ensures RoundOf(entries, fire).called == Enabled(entries)
  {
    if |entries| > 0 {
      CalledMeaning(entries[1..], fire);
    }
  }

  /** The actors not marked DO_DELETE, in order. */
  function Alive(entries: seq<Entry>): (r: seq<Entry>)
    ensures forall e | e in r :: e in entries && e.state != ActorDoDelete
    ensures forall e | e in entries && e.state != ActorDoDelete :: e in r
  {
    if |entries| == 0 then []
    else (if entries[0].state != ActorDoDelete then [entries[0]] else []) + Alive(entries[1..])
  }

  /** The actors of some entries, in order. */
  function Listed(entries: seq<Entry>): (r: seq<Actor>)
    ensures |r| == |entries| && forall i | 0 <= i < |entries| :: r[i] == entries[i].actor
  {
    if |entries| == 0 then [] else [entries[0].actor] + Listed(entries[1..])
  }

  /** The in-ports then the out-ports of each actor in turn. */
  function PortsOf(entries: seq<Entry>): (r: seq<Port>)
  {
    if |entries| == 0 then [] else entries[0].ports + PortsOf(entries[1..])
  }

  /**
   * The ports transmitted are those of the actors not marked DO_DELETE,
   * fired or not: each actor's in-ports, then its out-ports, actor by
   * actor in list order.
   */
  lemma {:induction false} TransmittedMeaning(entries: seq<Entry>, fire: Actor -> bool)
    ensures RoundOf(entries, fire).transmitted == PortsOf(Alive(entries))
  {
    if |entries| > 0 {
      TransmittedMeaning(entries[1..], fire);
      var rest := Alive(entries[1..]);
      var later := RoundOf(entries[1..], fire).transmitted;
      if entries[0].state != ActorDoDelete {
        assert Alive(entries) == [entries[0]] + rest;
        assert ([entries[0]] + rest)[1..] == rest;
        assert RoundOf(entries, fire).transmitted == entries[0].ports + later;
      } else {
        assert Alive(entries) == rest;
        assert RoundOf(entries, fire).transmitted == [] + later == later;
      }
    }
  }

  /** The actors marked DO_DELETE, in order. */
  function Doomed(entries: seq<Entry>): (r: seq<Actor>)
  {
    if |entries| == 0 then []
    else (if entries[0].state == ActorDoDelete then [entries[0].actor] else []) + Doomed(entries[1..])
  }

  /** The actors freed are those marked DO_DELETE, in list order. */
  lemma {:induction false} DeletedMeaning(entries: seq<Entry>, fire: Actor -> bool)
    ensures RoundOf(entries, fire).deleted == Doomed(entries)
    ensures forall a | a in RoundOf(entries, fire).deleted :: exists i | 0 <= i < |entries| :: entries[i].actor == a && entries[i].state == ActorDoDelete
  {
    if |entries| > 0 {
      DeletedMeaning(entries[1..], fire);
      assert forall i | 0 <= i < |entries[1..]| :: entries[1..][i] == entries[i + 1];
    }
  }

  /** No actor's id is a prefix of another's: what the runtime's UUID actor ids guarantee. */
  predicate IdsApart(actors: seq<Actor>)
    reads (set a | a in actors)`id
  {
    forall i, j | 0 <= i < |actors| && 0 <= j < |actors| && i != j :: !(actors[i].id <= actors[j].id)
  }

  /** Freeing after an actor whose id is no prefix of a freed one keeps that actor in front. */
  lemma {:induction false} FreedKeepsFront(a: Actor, actors: seq<Actor>, deleted: seq<Actor>)
    requires forall d | d in deleted :: !(a.id <= d.id)
    ensures Freed([a] + actors, deleted) == [a] + Freed(actors, deleted)
    decreases |deleted|
  {
    if |deleted| > 0 {
      assert ([a] + actors)[1..] == actors;
      FreedKeepsFront(a, WithoutActor(actors, deleted[0].id), deleted[1..]);
    }
  }

  /** The entries of a non-empty list: the first actor's, then the rest's. */
  lemma EntriesTail(actors: seq<Actor>)
    requires |actors| > 0
    ensures Entries(actors) == [Entries(actors)[0]] + Entries(actors[1..])
  {
    assert forall i | 1 <= i < |actors| :: actors[1..][i - 1] == actors[i];
  }

  /** With ids apart, the first actor's id is a prefix of no id of the rest, and the rest's ids are apart. */
  lemma FirstApart(actors: seq<Actor>)
    requires |actors| > 0 && IdsApart(actors)
    ensures IdsApart(actors[1..])
    ensures forall a | a in actors[1..] :: !(actors[0].id <= a.id)
  {
    var rest := actors[1..];
    forall i, j | 0 <= i < |rest| && 0 <= j < |rest| && i != j
      ensures !(rest[i].id <= rest[j].id)
    {
      assert rest[i] == actors[i + 1] && rest[j] == actors[j + 1];
    }
    forall a | a in rest
      ensures !(actors[0].id <= a.id)
    {
      var j :| 0 <= j < |rest| && rest[j] == a;
      assert actors[j + 1] == a;
    }
  }

  /** The actors a round over the entries of `actors` frees are among `actors`. */
  lemma DeletedListed(actors: seq<Actor>, fire: Actor -> bool)
    ensures forall d | d in RoundOf(Entries(actors), fire).deleted :: d in actors
  {
    DeletedMeaning(Entries(actors), fire);
  }

  /**
   * With actor ids apart, the list a round leaves is the actors not marked
   * DO_DELETE, in their order: each free unlists exactly the actor freed.
   */
  lemma {:induction false} RoundLeavesAlive(actors: seq<Actor>, fire: Actor -> bool)
    requires IdsApart(actors)
    ensures Freed(actors, RoundOf(Entries(actors), fire).deleted) == Listed(Alive(Entries(actors)))
  {
    if |actors| > 0 {
      var a, rest := actors[0], actors[1..];
      var es := Entries(actors);
      EntriesTail(actors);
      FirstApart(actors);
      RoundLeavesAlive(rest, fire);
      var later := RoundOf(Entries(rest), fire).deleted;
      DeletedListed(rest, fire);
      assert actors == [a] + rest;
      if a.state == ActorDoDelete {
        assert RoundOf(es, fire).deleted == [a] + later;
        assert WithoutActor(actors, a.id) == rest;
        assert ([a] + later)[1..] == later;
      } else {
        assert RoundOf(es, fire).deleted == later;
        FreedKeepsFront(a, rest, later);
      }
    }
  }
}
