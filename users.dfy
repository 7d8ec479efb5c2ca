/** The hard-coded users table and its mock fetch `dbMock.users.getByIds`, which every
    example server declares identically and hands to its user loader as batch function. */
module Users {
  import opened Values
  import opened JsArray

  type Id = string

  datatype User = User(id: Id, name: string)

  /** The users table every example server declares. */
  const Seed: seq<User> := [User("1", "Alice"), User("2", "Bob")]

  /** The filter predicate: the user's id is one of the requested ids. */
  function IdIn(ids: seq<Id>): User -> bool
  {
    (u: User) => u.id in ids
  }

  /** `dbMock.users.getByIds`: the rows whose id is requested. Every returned row is a
      table row with a requested id, and every table row with a requested id is returned. */
  function GetByIds(users: seq<User>, ids: seq<Id>): (r: seq<User>)
    ensures |r| <= |users|
    ensures forall i :: 0 <= i < |r| ==> r[i] in users && r[i].id in ids
    ensures forall u :: u in users && u.id in ids ==> u in r
  {
    Filter(users, IdIn(ids))
  }

  /** The result follows the table's order, not the order of `ids`, and keeps each
      matching row as often as the table holds it. */
  lemma {:induction false} GetByIdsInTableOrder(a: seq<User>, b: seq<User>, ids: seq<Id>, u: User)
    ensures GetByIds(a + b, ids) == GetByIds(a, ids) + GetByIds(b, ids)
    ensures multiset(GetByIds(a + b, ids))[u] == if u.id in ids then multiset(a + b)[u] else 0
  {
    FilterAppend(a, b, IdIn(ids));
    FilterCount(a + b, IdIn(ids), u);
  }

  /** As written, the batch function is not aligned with its keys: a batch whose keys
      arrive in the order "2", "1" gets Alice (id "1") back at the position of key "2",
      and a batch with an unknown key gets a shorter result than its key list. */
  lemma GetByIdsNotAligned()
    ensures var r := GetByIds(Seed, ["2", "1"]); |r| == 2 && r[0] == User("1", "Alice") && r[0].id != "2"
    ensures |GetByIds(Seed, ["1", "3"])| == 1
  {
    assert Seed[1..] == [User("2", "Bob")];
    assert Seed[1..][1..] == [];
    assert "1" in ["2", "1"] && "2" in ["2", "1"];
    assert GetByIds(Seed, ["2", "1"]) == [User("1", "Alice")] + [User("2", "Bob")];
    assert "1" in ["1", "3"] && "2" !in ["1", "3"];
    assert GetByIds(Seed, ["1", "3"]) == [User("1", "Alice")];
  }

  /** The first user with the given id, or None when the table has none. */
  function Find(users: seq<User>, id: Id): (r: Option<User>)
    ensures r.Some? ==> r.value in users && r.value.id == id
    ensures r.None? <==> forall i :: 0 <= i < |users| ==> users[i].id != id
  {
    if users == [] then None
    else if users[0].id == id then Some(users[0])
    else Find(users[1..], id)
  }

  /** The batch function the user loader needs: one entry per key, at the key's position,
      holding the user with that id, or None when the table has no such user. */
  function LoadBatch(users: seq<User>, ids: seq<Id>): (r: seq<Option<User>>)
    ensures |r| == |ids|
    ensures forall i :: 0 <= i < |ids| && r[i].Some? ==> r[i].value in users && r[i].value.id == ids[i]
    ensures forall i :: 0 <= i < |ids| && r[i].None? ==> forall u :: u in users ==> u.id != ids[i]
  {
    seq(|ids|, i requires 0 <= i < |ids| => Find(users, ids[i]))
  }

  /** The entry for a key does not depend on the rest of the batch, so a load of `k`
      resolves to the same user however the loader groups keys into batches; the rows
      found are the ones the as-written fetch returns, only placed at their keys. */
  lemma LoadBatchConsistent(users: seq<User>, ks1: seq<Id>, i: nat, ks2: seq<Id>, j: nat)
    requires i < |ks1| && j < |ks2| && ks1[i] == ks2[j]
    ensures LoadBatch(users, ks1)[i] == LoadBatch(users, ks2)[j] == LoadBatch(users, [ks1[i]])[0]
    ensures LoadBatch(users, ks1)[i].Some? ==> LoadBatch(users, ks1)[i].value in GetByIds(users, ks1)
  {
  }

  /** On the seed table the corrected batch function answers keys "2", "1" with Bob, Alice. */
  lemma LoadBatchSeed()
    ensures LoadBatch(Seed, ["2", "1"]) == [Some(User("2", "Bob")), Some(User("1", "Alice"))]
    ensures LoadBatch(Seed, ["1", "3"]) == [Some(User("1", "Alice")), None]
  {
    assert Seed[1..] == [User("2", "Bob")];
    assert Seed[1..][1..] == [];
  }
}
