/**
 * The in-memory user table: a `UserService` whose private `users` array is
 * seeded with three users and searched, grown, overwritten and shrunk in
 * place. Ids are not assumed unique; every lookup acts on the first match.
 */
module InMemoryUserService {
  import opened UserEntity

  /** `findIndex` by id: the index of the first user with that id, or -1. */
  function IndexOf(users: seq<User>, id: string): (i: int)
    ensures -1 <= i < |users|
    ensures i == -1 <==> forall k :: 0 <= k < |users| ==> users[k].id != id
    ensures 0 <= i ==> users[i].id == id && forall k :: 0 <= k < i ==> users[k].id != id
  {
    if |users| == 0 then -1
    else if users[0].id == id then 0
    else
      var j := IndexOf(users[1..], id);
      if j == -1 then -1 else j + 1
  }

  /** `{ ...user, ...updateData }`: the keys present in the patch overwrite, the rest stay. */
  function ApplyPatch(u: User, patch: UserPatch): (r: User)
    ensures r.id == u.id && r.createdAt == u.createdAt && r.updatedAt == u.updatedAt
    ensures r.name == (if patch.name.Some? then patch.name.value else u.name)
    ensures r.email == (if patch.email.Some? then patch.email.value else u.email)
    ensures r.age == (if patch.age.Some? then patch.age.value else u.age)
    ensures r.bio == (if patch.bio.Undefined? then u.bio else patch.bio)
  {
    User(
      u.id,
      match patch.name case Some(n) => n case None => u.name,
      match patch.email case Some(e) => e case None => u.email,
      match patch.age case Some(a) => a case None => u.age,
      match patch.bio case Undefined => u.bio case _ => patch.bio,
      u.createdAt,
      u.updatedAt)
  }

  /** Two spreads in a row: the later patch's keys win, left-out keys fall through. */
  function ThenPatch(first: UserPatch, second: UserPatch): UserPatch
  {
    UserPatch(
      if second.name.Some? then second.name else first.name,
      if second.email.Some? then second.email else first.email,
      if second.age.Some? then second.age else first.age,
      if second.bio.Undefined? then first.bio else second.bio)
  }

  lemma ApplyPatchComposes(u: User, first: UserPatch, second: UserPatch)
    ensures ApplyPatch(ApplyPatch(u, first), second) == ApplyPatch(u, ThenPatch(first, second))
  {
  }

  lemma ApplyPatchIdempotent(u: User, patch: UserPatch)
    ensures ApplyPatch(ApplyPatch(u, patch), patch) == ApplyPatch(u, patch)
    ensures ApplyPatch(u, NoChange) == u
  {
  }

  /** The record `create` builds: id from the table length, the input's fields, two clock readings. */
  function NewUser(length: nat, input: CreateUserInput, createdAt: Timestamp, updatedAt: Timestamp): User
  {
    User(NatToString(length + 1), input.name, input.email, input.age, input.bio, createdAt, updatedAt)
  }

  /** The ids are "1", "2", ... in table order: what `create` alone produces. */
  ghost predicate CountingIds(users: seq<User>)
  {
    forall i :: 0 <= i < |users| ==> users[i].id == NatToString(i + 1)
  }

  ghost predicate UniqueIds(users: seq<User>)
  {
    forall i, j :: 0 <= i < j < |users| ==> users[i].id != users[j].id
  }

  lemma CountingIdsAreUnique(users: seq<User>)
    requires CountingIds(users)
    ensures UniqueIds(users)
  {
    forall i, j | 0 <= i < j < |users|
      ensures users[i].id != users[j].id
    {
      NatToStringInjective(i + 1, j + 1);
    }
  }

  /** Appending `create`'s record keeps the ids counting, and so unique. */
  lemma {:induction false} CreateKeepsCountingIds(users: seq<User>, input: CreateUserInput, c: Timestamp, u: Timestamp)
    requires CountingIds(users)
    ensures CountingIds(users + [NewUser(|users|, input, c, u)])
    ensures UniqueIds(users + [NewUser(|users|, input, c, u)])
  {
    var s := users + [NewUser(|users|, input, c, u)];
    assert forall i :: 0 <= i < |users| ==> s[i] == users[i];
    CountingIdsAreUnique(s);
  }

  /** Rewriting one slot with `ApplyPatch` never touches an id. */
  lemma UpdateKeepsCountingIds(users: seq<User>, i: nat, patch: UserPatch)
    requires CountingIds(users) && i < |users|
    ensures CountingIds(users[i := ApplyPatch(users[i], patch)])
  {
  }

  function Day(days: nat): Timestamp
  {
    1704067200000 + days * 86400000  // 2024-01-01T00:00:00Z, plus whole days
  }

  /** The three users the table starts with. */
  function SeedUsers(): (r: seq<User>)
    ensures |r| == 3 && r[0].id == "1" && r[1].id == "2" && r[2].id == "3"
    ensures CountingIds(r)
  {
    [
      User("1", "田中太郎", "tanaka@example.com", 20, Value("フロントエンド開発者です"), Day(0), Day(0)),
      User("2", "佐藤花子", "sato@example.com", 21, Value("バックエンド開発者です"), Day(1), Day(1)),
      User("3", "鈴木一郎", "suzuki@example.com", 22, Undefined, Day(2), Day(2))
    ]
  }

  class UserService {
    var users: seq<User>

    constructor ()
      ensures users == SeedUsers()
    {
      users := SeedUsers();
    }

    /** `findAll`: the table itself, in insertion order. */
    method FindAll() returns (r: seq<User>)
      ensures r == users
    {
      r := users;
    }

    /** The linear scan behind `find` and `findIndex`. */
    method FindIndex(id: string) returns (idx: int)
      ensures idx == IndexOf(users, id)
      ensures -1 <= idx < |users|
      ensures idx == -1 <==> forall k :: 0 <= k < |users| ==> users[k].id != id
      ensures 0 <= idx ==> users[idx].id == id && forall k :: 0 <= k < idx ==> users[k].id != id
    {
      var i := 0;
      while i < |users|
        invariant 0 <= i <= |users|
        invariant forall k :: 0 <= k < i ==> users[k].id != id
      {
        if users[i].id == id {
          return i;
        }
        i := i + 1;
      }
      idx := -1;
    }

    /** `findOne`: the first user with the id, or `NotFoundException` when there is none. */
    method FindOne(id: string) returns (r: Result<User, NotFoundException>)
      ensures r.Err? <==> forall k :: 0 <= k < |users| ==> users[k].id != id
      ensures r.Err? ==> r.error == NotFoundFor(id)
      ensures r.Ok? ==> exists i :: 0 <= i < |users| && users[i] == r.value
      ensures r.Ok? ==> r.value == users[IndexOf(users, id)] && r.value.id == id
    {
      var i := FindIndex(id);
      if i == -1 {
        r := Err(NotFoundFor(id));
      } else {
        r := Ok(users[i]);
      }
    }

    /** `create`: appends a user whose id is the decimal string of the new length. */
    method Create(input: CreateUserInput, createdAt: Timestamp, updatedAt: Timestamp) returns (u: User)
      modifies this
      ensures users == old(users) + [u]
      ensures u == NewUser(|old(users)|, input, createdAt, updatedAt)
      ensures u.id == NatToString(|old(users)| + 1)
      ensures u.name == input.name && u.email == input.email && u.age == input.age && u.bio == input.bio
      ensures u.createdAt == createdAt && u.updatedAt == updatedAt
    {
      u := NewUser(|users|, input, createdAt, updatedAt);
      users := users + [u];
    }

    /** `update`: merges the patch into the first user with the id. */
    method Update(id: string, patch: UserPatch) returns (r: Result<User, NotFoundException>)
      modifies this
      ensures var i := IndexOf(old(users), id);
        if i == -1 then
          r == Err(NotFoundFor(id)) && users == old(users)
        else
          r == Ok(ApplyPatch(old(users)[i], patch)) && users == old(users)[i := r.value]
      ensures |users| == |old(users)|
      ensures forall k :: 0 <= k < |users| && k != IndexOf(old(users), id) ==> users[k] == old(users)[k]
    {
      var i := FindIndex(id);
      if i == -1 {
        return Err(NotFoundFor(id));
      }
      users := users[i := ApplyPatch(users[i], patch)];
      r := Ok(users[i]);
    }

    /** `remove`: splices out the first user with the id and answers `true`. */
    method Remove(id: string) returns (r: Result<bool, NotFoundException>)
      modifies this
      ensures var i := IndexOf(old(users), id);
        if i == -1 then
          r == Err(NotFoundFor(id)) && users == old(users)
        else
          r == Ok(true) && users == old(users)[..i] + old(users)[i + 1..]
      ensures r.Ok? ==> |users| == |old(users)| - 1
      ensures r.Ok? ==> multiset(users) == multiset(old(users)) - multiset{old(users)[IndexOf(old(users), id)]}
    {
      var i := FindIndex(id);
      if i == -1 {
        return Err(NotFoundFor(id));
      }
      RemoveAtDropsOne(users, i);
      users := users[..i] + users[i + 1..];
      r := Ok(true);
    }
  }

  /** Splicing out slot `i` removes exactly one copy of `s[i]`. */
  lemma RemoveAtDropsOne(s: seq<User>, i: nat)
    requires i < |s|
    ensures multiset(s[..i] + s[i + 1..]) == multiset(s) - multiset{s[i]}
  {
    assert s == s[..i] + [s[i]] + s[i + 1..];
  }

  /**
   * In general: on a table of n >= 2 users with ids "1".."n", removing any
   * user but the last and then creating one makes the id of n appear twice,
   * once on the old last user and once on the new one.
   */
  lemma RemoveThenCreateRepeatsLastId(users: seq<User>, i: nat, input: CreateUserInput, c: Timestamp, u: Timestamp)
    requires CountingIds(users) && |users| >= 2 && i < |users| - 1
    ensures var after := users[..i] + users[i + 1..] + [NewUser(|users| - 1, input, c, u)];
      && |after| == |users|
      && after[|users| - 2].id == NatToString(|users|)
      && after[|users| - 1].id == NatToString(|users|)
      && !UniqueIds(after)
  {
    var n := |users|;
    var after := users[..i] + users[i + 1..] + [NewUser(n - 1, input, c, u)];
    assert after[n - 2] == users[n - 1];
  }

  /**
   * Because ids come from the table length, removing a user and creating
   * another can repeat an id: removing "1" from the seed and creating a user
   * leaves ids "2", "3", "3".
   */
  method RemoveThenCreateRepeatsId(input: CreateUserInput, now: Timestamp) returns (ids: seq<string>)
    ensures ids == ["2", "3", "3"]
  {
    var service := new UserService();
    var removed := service.Remove("1");
    var created := service.Create(input, now, now);
    assert NatToString(3) == "3";
    ids := [service.users[0].id, service.users[1].id, service.users[2].id];
  }
}
