/**
 * The record store behind the compiled `UserService`: the `user` table of
 * the Prisma client, seen only through the calls the service makes
 * (`findMany` ordered by `createdAt` descending, `findUnique`, `create`,
 * `update`, `delete`). Rows are kept in a map from id to row. Any call can
 * fail while the store is unreachable; `update` and `delete` also fail on a
 * missing id, and `create` on an id that is already taken.
 */
module UserStore {
  import opened UserEntity

  /** A row as the store returns it: a missing `bio` is `null`, written `None`. */
  datatype StoreUser = StoreUser(
    id: string,
    name: string,
    email: string,
    age: int,
    bio: Option<string>,
    createdAt: Timestamp,
    updatedAt: Timestamp)

  /** The `data` of a `create` call. */
  datatype StoreUserData = StoreUserData(
    name: string,
    email: string,
    age: int,
    bio: Option<string>)

  /** What an `update` asks of one column that may be cleared:
      `undefined` leaves it alone, `null` clears it, a string sets it. */
  datatype BioUpdate = Unspecified | Cleared | Set(bio: string)

  /** The `data` of an `update` call; `None` means the key is left out. */
  datatype StoreUserUpdate = StoreUserUpdate(
    name: Option<string>,
    email: Option<string>,
    age: Option<int>,
    bio: BioUpdate)

  datatype StoreError = Unavailable | RecordNotFound | UniqueViolation

  function ApplyBioUpdate(bio: Option<string>, u: BioUpdate): (r: Option<string>)
    ensures u.Unspecified? ==> r == bio
    ensures u.Cleared? ==> r == None
    ensures u.Set? ==> r == Some(u.bio)
  {
    match u
    case Unspecified => bio
    case Cleared => None
    case Set(s) => Some(s)
  }

  /** The row after an `update`: given columns overwritten, `updatedAt` restamped. */
  function ApplyStoreUpdate(row: StoreUser, u: StoreUserUpdate, now: Timestamp): (r: StoreUser)
    ensures r.id == row.id && r.createdAt == row.createdAt && r.updatedAt == now
    ensures r.name == (if u.name.Some? then u.name.value else row.name)
    ensures r.email == (if u.email.Some? then u.email.value else row.email)
    ensures r.age == (if u.age.Some? then u.age.value else row.age)
    ensures r.bio == ApplyBioUpdate(row.bio, u.bio)
  {
    StoreUser(
      row.id,
      match u.name case Some(n) => n case None => row.name,
      match u.email case Some(e) => e case None => row.email,
      match u.age case Some(a) => a case None => row.age,
      ApplyBioUpdate(row.bio, u.bio),
      row.createdAt,
      now)
  }

  // ---------------------------------------------------------------------
  // `orderBy: { createdAt: 'desc' }`

  predicate NewestFirst(rows: seq<StoreUser>)
  {
    forall i, j :: 0 <= i < j < |rows| ==> rows[i].createdAt >= rows[j].createdAt
  }

  /** Places `u` before the first row that is not newer than it. */
  function InsertNewestFirst(rows: seq<StoreUser>, u: StoreUser): (r: seq<StoreUser>)
    ensures |r| == |rows| + 1
    ensures multiset(r) == multiset(rows) + multiset{u}
  {
    if rows == [] || u.createdAt >= rows[0].createdAt then [u] + rows
    else
      assert rows == [rows[0]] + rows[1..];
      [rows[0]] + InsertNewestFirst(rows[1..], u)
  }

  lemma {:induction false} InsertKeepsNewestFirst(rows: seq<StoreUser>, u: StoreUser)
    requires NewestFirst(rows)
    ensures NewestFirst(InsertNewestFirst(rows, u))
  {
    if rows != [] && u.createdAt < rows[0].createdAt {
      var tail := rows[1..];
      InsertKeepsNewestFirst(tail, u);
      var rest := InsertNewestFirst(tail, u);
      assert forall x :: x in multiset(rest) ==> x == u || x in tail;
      forall j | 0 <= j < |rest|
        ensures rows[0].createdAt >= rest[j].createdAt
      {
        assert rest[j] in multiset(rest);
      }
    }
  }

  /** `rows` lists every row of `table` exactly once (as a multiset of ids it is the key set). */
  ghost predicate ListsAll(rows: seq<StoreUser>, table: map<string, StoreUser>)
  {
    && |rows| == |table|
    && (forall i :: 0 <= i < |rows| ==> rows[i].id in table && table[rows[i].id] == rows[i])
    && (forall k :: k in table ==> table[k] in rows)
  }

  /** `acc` holds, newest first, exactly the rows of `table` whose ids are not `pending`. */
  ghost predicate Collected(acc: seq<StoreUser>, table: map<string, StoreUser>, pending: set<string>)
  {
    && pending <= table.Keys
    && NewestFirst(acc)
    && |acc| == |table.Keys - pending|
    && (forall i :: 0 <= i < |acc| ==> acc[i].id in table && acc[i].id !in pending && table[acc[i].id] == acc[i])
    && (forall k :: k in table && k !in pending ==> table[k] in acc)
  }

  lemma InsertMembers(rows: seq<StoreUser>, u: StoreUser)
    ensures forall x :: x in InsertNewestFirst(rows, u) <==> x in rows || x == u
  {
    var r := InsertNewestFirst(rows, u);
    assert forall x :: x in r <==> x in multiset(r);
    assert forall x :: x in rows <==> x in multiset(rows);
  }

  lemma CollectOne(acc: seq<StoreUser>, table: map<string, StoreUser>, pending: set<string>, k: string)
    requires forall j :: j in table ==> table[j].id == j
    requires Collected(acc, table, pending) && k in pending
    ensures Collected(InsertNewestFirst(acc, table[k]), table, pending - {k})
  {
    var u := table[k];
    var next := InsertNewestFirst(acc, u);
    var rest := pending - {k};
    InsertKeepsNewestFirst(acc, u);
    InsertMembers(acc, u);
    var done := table.Keys - pending;
    assert k !in done;
    assert table.Keys - rest == done + {k};
    forall i | 0 <= i < |next|
      ensures next[i].id in table && next[i].id !in rest && table[next[i].id] == next[i]
    {
      assert next[i] in next;
      if next[i] != u {
        var j :| 0 <= j < |acc| && acc[j] == next[i];
      }
    }
    forall j | j in table && j !in rest
      ensures table[j] in next
    {
      if j != k {
        assert table[j] in acc;
      }
    }
  }

  class PrismaUserTable {
    var rows: map<string, StoreUser>
    /** False while the database cannot be reached: every call then fails. */
    var online: bool

    ghost predicate Valid()
      reads this
    {
      forall k :: k in rows ==> rows[k].id == k
    }

    constructor (initial: map<string, StoreUser>, online: bool)
      requires forall k :: k in initial ==> initial[k].id == k
      ensures Valid() && rows == initial && this.online == online
    {
      rows := initial;
      this.online := online;
    }

    /** `findMany({ orderBy: { createdAt: 'desc' } })`. Rows with equal `createdAt` come in no promised order. */
    method FindManyNewestFirst() returns (r: Result<seq<StoreUser>, StoreError>)
      requires Valid()
      ensures r.Err? <==> !online
      ensures r.Err? ==> r.error == Unavailable
      ensures r.Ok? ==> ListsAll(r.value, rows) && NewestFirst(r.value)
    {
      if !online {
        return Err(Unavailable);
      }
      var pending := rows.Keys;
      var acc: seq<StoreUser> := [];
      while pending != {}
        invariant Collected(acc, rows, pending)
        decreases pending
      {
        var k :| k in pending;
        CollectOne(acc, rows, pending, k);
        acc := InsertNewestFirst(acc, rows[k]);
        pending := pending - {k};
      }
      assert rows.Keys - pending == rows.Keys;
      r := Ok(acc);
    }

    /** `findUnique({ where: { id } })`: the row, or `None` (`null`) when there is none. */
    method FindUnique(id: string) returns (r: Result<Option<StoreUser>, StoreError>)
      ensures !online ==> r == Err(Unavailable)
      ensures online && id in rows ==> r == Ok(Some(rows[id]))
      ensures online && id !in rows ==> r == Ok(None)
    {
      if !online {
        r := Err(Unavailable);
      } else if id in rows {
        r := Ok(Some(rows[id]));
      } else {
        r := Ok(None);
      }
    }

    /** `create({ data })`; the id and the timestamp the store assigns are parameters. */
    method Create(data: StoreUserData, newId: string, now: Timestamp) returns (r: Result<StoreUser, StoreError>)
      requires Valid()
      modifies this
      ensures Valid() && online == old(online)
      ensures !old(online) ==> r == Err(Unavailable) && rows == old(rows)
      ensures old(online) && newId in old(rows) ==> r == Err(UniqueViolation) && rows == old(rows)
      ensures old(online) && newId !in old(rows) ==>
        r == Ok(StoreUser(newId, data.name, data.email, data.age, data.bio, now, now))
        && rows == old(rows)[newId := r.value]
    {
      if !online {
        return Err(Unavailable);
      }
      if newId in rows {
        return Err(UniqueViolation);
      }
      var row := StoreUser(newId, data.name, data.email, data.age, data.bio, now, now);
      rows := rows[newId := row];
      r := Ok(row);
    }

    /** `update({ where: { id }, data })`. */
    method Update(id: string, data: StoreUserUpdate, now: Timestamp) returns (r: Result<StoreUser, StoreError>)
      requires Valid()
      modifies this
      ensures Valid() && online == old(online)
      ensures !old(online) ==> r == Err(Unavailable) && rows == old(rows)
      ensures old(online) && id !in old(rows) ==> r == Err(RecordNotFound) && rows == old(rows)
      ensures old(online) && id in old(rows) ==>
        r == Ok(ApplyStoreUpdate(old(rows)[id], data, now))
        && rows == old(rows)[id := r.value]
    {
      if !online {
        return Err(Unavailable);
      }
      if id !in rows {
        return Err(RecordNotFound);
      }
      var row := ApplyStoreUpdate(rows[id], data, now);
      rows := rows[id := row];
      r := Ok(row);
    }

    /** `delete({ where: { id } })`: answers the deleted row. */
    method Delete(id: string) returns (r: Result<StoreUser, StoreError>)
      requires Valid()
      modifies this
      ensures Valid() && online == old(online)
      ensures !old(online) ==> r == Err(Unavailable) && rows == old(rows)
      ensures old(online) && id !in old(rows) ==> r == Err(RecordNotFound) && rows == old(rows)
      ensures old(online) && id in old(rows) ==> r == Ok(old(rows)[id]) && rows == old(rows) - {id}
    {
      if !online {
        return Err(Unavailable);
      }
      if id !in rows {
        return Err(RecordNotFound);
      }
      r := Ok(rows[id]);
      rows := rows - {id};
    }
  }
}
