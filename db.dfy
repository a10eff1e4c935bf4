/** The user table, as an in-memory map from id to record. */
module Db {
  import opened Wrappers
  import opened UserModel

  class Store {
    var users: map<UserId, User>

    /** Each record is stored under its own id, and emails are unique. */
    ghost predicate Valid()
      reads this
    {
      && (forall id :: id in users ==> users[id].id == id)
      && (forall a, b :: a in users && b in users && users[a].email == users[b].email ==> a == b)
    }

    constructor (initial: map<UserId, User>)
      requires forall id :: id in initial ==> initial[id].id == id
      requires forall a, b :: a in initial && b in initial && initial[a].email == initial[b].email ==> a == b
      ensures Valid() && users == initial
    {
      users := initial;
    }

    /** `findUnique({ where: { id } })` */
    function FindById(id: UserId): (r: Option<User>)
      reads this
      ensures r.Some? <==> id in users
      ensures r.Some? ==> r.value == users[id]
    {
      if id in users then Some(users[id]) else None
    }

    /** `findUnique({ where: { email } })` */
    function FindByEmail(email: string): (r: Option<User>)
      reads this
      requires Valid()
      ensures r.Some? <==> exists id :: id in users && users[id].email == email
      ensures r.Some? ==> r.value.id in users && users[r.value.id] == r.value && r.value.email == email
    {
      if exists id :: id in users && users[id].email == email then
        var id :| id in users && users[id].email == email;
        Some(users[id])
      else
        None
    }

    /** `update({ where: { id }, data })`: one atomic write; a missing record is an error. */
    method Update(id: UserId, data: UpdateData) returns (r: Option<User>)
      requires Valid()
      modifies this
      ensures Valid()
      ensures id in old(users) ==> users == old(users)[id := Apply(old(users)[id], data)] && r == Some(users[id])
      ensures id !in old(users) ==> users == old(users) && r == None
    {
      if id in users {
        var updated := Apply(users[id], data);
        users := users[id := updated];
        r := Some(updated);
      } else {
        r := None;
      }
    }
  }
}
