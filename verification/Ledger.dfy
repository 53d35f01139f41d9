/** Bookkeeping of numbered resources: each one created is linked, held by a thread, or deleted, exactly once. */
module Ledger {
  import opened Sequences

  ghost predicate Conserved(linked: seq<nat>, held: map<nat, nat>, deleted: seq<nat>, created: nat) {
    && Distinct(linked) && Distinct(deleted)
    && (forall a, b | a in held && b in held && a != b :: held[a] != held[b])
    && (forall x | x in linked :: x !in deleted && x !in held.Values)
    && (forall x | x in deleted :: x !in held.Values)
    && (forall x | x in linked || x in deleted || x in held.Values :: x < created)
    && (forall x: nat | x < created :: x in linked || x in deleted || x in held.Values)
  }

  ghost function Without(held: map<nat, nat>, id: nat): map<nat, nat> {
    map k | k in held && k != id :: held[k]
  }

  lemma Creating(linked: seq<nat>, held: map<nat, nat>, deleted: seq<nat>, created: nat, id: nat)
    requires Conserved(linked, held, deleted, created) && id !in held
    ensures Conserved(linked, held[id := created], deleted, created + 1)
    ensures Conserved(linked, held, deleted + [created], created + 1)
  {
    var held' := held[id := created];
    assert held'.Values == held.Values + {created} by {
      assert held'[id] == created;
      forall v | v in held.Values ensures v in held'.Values {
        var k :| k in held && held[k] == v;
        assert held'[k] == v;
      }
    }
  }

  lemma Dropping(held: map<nat, nat>, id: nat)
    requires id in held
    requires forall a, b | a in held && b in held && a != b :: held[a] != held[b]
    ensures Without(held, id).Values == held.Values - {held[id]}
  {
    var held' := Without(held, id);
    forall v | v in held.Values - {held[id]} ensures v in held'.Values {
      var k :| k in held && held[k] == v;
      assert held'[k] == v;
    }
  }

  lemma Linking(linked: seq<nat>, held: map<nat, nat>, deleted: seq<nat>, created: nat, id: nat)
    requires Conserved(linked, held, deleted, created) && id in held
    ensures Conserved(linked + [held[id]], Without(held, id), deleted, created)
  {
    Dropping(held, id);
    assert held[id] in held.Values;
  }

  lemma DeletingHeld(linked: seq<nat>, held: map<nat, nat>, deleted: seq<nat>, created: nat, id: nat)
    requires Conserved(linked, held, deleted, created) && id in held
    ensures Conserved(linked, Without(held, id), deleted + [held[id]], created)
  {
    Dropping(held, id);
    assert held[id] in held.Values;
  }

  /** The held resource takes the linked one's place, and the linked one is deleted. */
  lemma Replacing(linked: seq<nat>, held: map<nat, nat>, deleted: seq<nat>, created: nat, id: nat, i: nat)
    requires Conserved(linked, held, deleted, created) && id in held && i < |linked|
    ensures Conserved(linked[i := held[id]], Without(held, id), deleted + [linked[i]], created)
  {
    Dropping(held, id);
    assert held[id] in held.Values;
    var linked' := linked[i := held[id]];
    forall x | x in linked ensures x == linked[i] || x in linked' {
      var k :| 0 <= k < |linked| && linked[k] == x;
      assert k == i || linked'[k] == x;
    }
    assert forall k | 0 <= k < |linked| :: linked[k] in linked;
    assert linked'[i] == held[id] && linked[i] !in linked';
    forall x | x in linked' ensures x == held[id] || x in linked {
      var k :| 0 <= k < |linked'| && linked'[k] == x;
    }
    assert forall k | 0 <= k < |deleted| :: deleted[k] in deleted;
    forall x: nat | x < created
      ensures x in linked' || x in deleted + [linked[i]] || x in Without(held, id).Values
    {
      assert x in linked || x in deleted || x in held.Values;
    }
  }

  lemma DeletingLinked(linked: seq<nat>, held: map<nat, nat>, deleted: seq<nat>, created: nat, i: nat)
    requires Conserved(linked, held, deleted, created) && i < |linked|
    ensures Conserved(linked[..i] + linked[i + 1..], held, deleted + [linked[i]], created)
  {
    var linked' := linked[..i] + linked[i + 1..];
    forall x | x in linked ensures x == linked[i] || x in linked' {
      var k :| 0 <= k < |linked| && linked[k] == x;
      assert k < i ==> linked'[k] == x;
      assert k > i ==> linked'[k - 1] == x;
    }
    assert forall k | 0 <= k < |linked'| :: linked'[k] == if k < i then linked[k] else linked[k + 1];
    forall x | x in linked' ensures x in linked && x != linked[i] {
      var k :| 0 <= k < |linked'| && linked'[k] == x;
      assert linked[if k < i then k else k + 1] == x;
    }
    assert linked[i] in linked;
    assert forall k | 0 <= k < |deleted| :: deleted[k] in deleted;
    forall x: nat | x < created
      ensures x in linked' || x in deleted + [linked[i]] || x in held.Values
    {
      assert x in linked || x in deleted || x in held.Values;
    }
  }

  lemma DeletingAllLinked(linked: seq<nat>, held: map<nat, nat>, deleted: seq<nat>, created: nat)
    requires Conserved(linked, held, deleted, created)
    ensures Conserved([], held, deleted + linked, created)
  {
    assert forall k | 0 <= k < |linked| :: linked[k] in linked;
    assert forall k | 0 <= k < |deleted| :: deleted[k] in deleted;
  }
}
