/**
 * The store-backed `UserService`: every operation is one call to the user
 * table of the record store, plus the translation between the store's
 * `null` bio and the API's absent bio, and the remapping of store failures
 * in `update` and `remove` to `NotFoundException`.
 */
module StoreUserService {
  import opened UserEntity
  import opened UserStore
  import InMemoryUserService

  datatype ServiceError =
    | NotFound(exception: NotFoundException)  // raised by the service itself
    | StoreFailed(cause: StoreError)          // a store failure that reaches the caller unchanged

  // ---------------------------------------------------------------------
  // The bio translation, in both directions.

  /** `bio ?? undefined`: a `null` bio from the store becomes an absent one. */
  function ToApiBio(b: Option<string>): (r: Nullish<string>)
    ensures r != Null
    ensures r.Value? <==> b.Some?
    ensures r.Value? ==> r.value == b.value
  {
    match b
    case None => Undefined
    case Some(s) => Value(s)
  }

  /** `bio ?? null` on create: an omitted (or `null`) bio is stored as `null`. */
  function CreateBio(b: Nullish<string>): (r: Option<string>)
    ensures r.Some? <==> b.Value?
    ensures r.Some? ==> r.value == b.value
  {
    match b
    case Value(s) => Some(s)
    case _ => None
  }

  /** `bio !== undefined ? (bio ?? null) : undefined` on update. */
  function UpdateBio(b: Nullish<string>): (r: BioUpdate)
    ensures r.Unspecified? <==> b.Undefined?
    ensures r.Cleared? <==> b.Null?
    ensures r.Set? <==> b.Value?
    ensures r.Set? ==> r.bio == b.value
  {
    match b
    case Undefined => Unspecified
    case Null => Cleared
    case Value(s) => Set(s)
  }

  /** Store to API and back loses nothing. */
  lemma StoreBioRoundTrip(b: Option<string>)
    ensures CreateBio(ToApiBio(b)) == b
  {
  }

  /** API to store and back loses nothing but the difference between `null` and absent. */
  lemma ApiBioRoundTrip(b: Nullish<string>)
    ensures ToApiBio(CreateBio(b)) == (if b.Null? then Undefined else b)
  {
  }

  /** What an update's bio does, as the API then reports it. */
  lemma UpdateBioEffect(stored: Option<string>, b: Nullish<string>)
    ensures b.Undefined? ==> ToApiBio(ApplyBioUpdate(stored, UpdateBio(b))) == ToApiBio(stored)
    ensures b.Null? ==> ToApiBio(ApplyBioUpdate(stored, UpdateBio(b))) == Undefined
    ensures b.Value? ==> ToApiBio(ApplyBioUpdate(stored, UpdateBio(b))) == b
  {
  }

  /** `mapPrismaUserToGraphQLUser`: every field kept, a `null` bio made absent. */
  function ToApiUser(p: StoreUser): (u: User)
    ensures u.id == p.id && u.name == p.name && u.email == p.email && u.age == p.age
    ensures u.createdAt == p.createdAt && u.updatedAt == p.updatedAt
    ensures u.bio == ToApiBio(p.bio) && u.bio != Null
  {
    User(p.id, p.name, p.email, p.age, ToApiBio(p.bio), p.createdAt, p.updatedAt)
  }

  /** `users.map(mapPrismaUserToGraphQLUser)`. */
  function ToApiUsers(rows: seq<StoreUser>): (us: seq<User>)
    ensures |us| == |rows|
    ensures forall i :: 0 <= i < |rows| ==> us[i] == ToApiUser(rows[i])
  {
    if rows == [] then [] else [ToApiUser(rows[0])] + ToApiUsers(rows[1..])
  }

  /** The `data` of `create`: the input with its bio sent through `CreateBio`. */
  function CreateData(input: CreateUserInput): (d: StoreUserData)
    ensures d.name == input.name && d.email == input.email && d.age == input.age
    ensures d.bio == None <==> !input.bio.Value?
    ensures d.bio.Some? ==> d.bio.value == input.bio.value
  {
    StoreUserData(input.name, input.email, input.age, CreateBio(input.bio))
  }

  /** The `data` of `update`: left-out keys stay left out, the bio goes through `UpdateBio`. */
  function UpdateData(patch: UserPatch): (d: StoreUserUpdate)
    ensures d.name == patch.name && d.email == patch.email && d.age == patch.age
    ensures d.bio == Unspecified <==> patch.bio == Undefined
    ensures d.bio == Cleared <==> patch.bio == Null
    ensures d.bio.Set? <==> patch.bio.Value?
    ensures d.bio.Set? ==> d.bio.bio == patch.bio.value
  {
    StoreUserUpdate(patch.name, patch.email, patch.age, UpdateBio(patch.bio))
  }

  /**
   * Seen through the API, an update through the store does what the
   * in-memory table's merge does, except that the store restamps
   * `updatedAt` and a cleared bio comes back absent instead of `null`.
   */
  lemma UpdateAgreesWithInMemoryMerge(row: StoreUser, patch: UserPatch, now: Timestamp)
    ensures var merged := InMemoryUserService.ApplyPatch(ToApiUser(row), patch);
      ToApiUser(ApplyStoreUpdate(row, UpdateData(patch), now))
        == merged.(updatedAt := now, bio := if merged.bio.Null? then Undefined else merged.bio)
  {
  }

  class UserService {
    const prisma: PrismaUserTable

    constructor (prisma: PrismaUserTable)
      ensures this.prisma == prisma
    {
      this.prisma := prisma;
    }

    /** `findAll`: every stored user, mapped, newest first. */
    method FindAll() returns (r: Result<seq<User>, ServiceError>)
      requires prisma.Valid()
      ensures r.Err? <==> !prisma.online
      ensures r.Err? ==> r.error == StoreFailed(Unavailable)
      ensures r.Ok? ==> |r.value| == |prisma.rows|
      ensures r.Ok? ==> forall i :: 0 <= i < |r.value| ==>
        r.value[i].id in prisma.rows && r.value[i] == ToApiUser(prisma.rows[r.value[i].id])
      ensures r.Ok? ==> forall k :: k in prisma.rows ==> ToApiUser(prisma.rows[k]) in r.value
      ensures r.Ok? ==> forall i, j :: 0 <= i < j < |r.value| ==> r.value[i].createdAt >= r.value[j].createdAt
    {
      var found := prisma.FindManyNewestFirst();
      match found
      case Err(e) =>
        r := Err(StoreFailed(e));
      case Ok(rows) =>
        var users := ToApiUsers(rows);
        forall k | k in prisma.rows
          ensures ToApiUser(prisma.rows[k]) in users
        {
          var i :| 0 <= i < |rows| && rows[i] == prisma.rows[k];
          assert users[i] == ToApiUser(prisma.rows[k]);
        }
        r := Ok(users);
    }

    /** `findOne`: the mapped user, `NotFoundException` when the store has none. */
    method FindOne(id: string) returns (r: Result<User, ServiceError>)
      ensures !prisma.online ==> r == Err(StoreFailed(Unavailable))
      ensures prisma.online && id !in prisma.rows ==> r == Err(NotFound(NotFoundFor(id)))
      ensures prisma.online && id in prisma.rows ==> r == Ok(ToApiUser(prisma.rows[id]))
    {
      var found := prisma.FindUnique(id);
      match found
      case Err(e) =>
        r := Err(StoreFailed(e));
      case Ok(None) =>
        r := Err(NotFound(NotFoundFor(id)));
      case Ok(Some(row)) =>
        r := Ok(ToApiUser(row));
    }

    /** `create`; the id and the timestamp the store assigns are parameters. */
    method Create(input: CreateUserInput, newId: string, now: Timestamp) returns (r: Result<User, ServiceError>)
      requires prisma.Valid()
      modifies prisma
      ensures prisma.Valid() && prisma.online == old(prisma.online)
      ensures !old(prisma.online) ==> r == Err(StoreFailed(Unavailable)) && prisma.rows == old(prisma.rows)
      ensures old(prisma.online) && newId in old(prisma.rows) ==>
        r == Err(StoreFailed(UniqueViolation)) && prisma.rows == old(prisma.rows)
      ensures old(prisma.online) && newId !in old(prisma.rows) ==>
        prisma.rows == old(prisma.rows)[newId := StoreUser(newId, input.name, input.email, input.age, CreateBio(input.bio), now, now)]
        && r == Ok(User(newId, input.name, input.email, input.age, if input.bio.Value? then input.bio else Undefined, now, now))
    {
      var created := prisma.Create(CreateData(input), newId, now);
      match created
      case Err(e) =>
        r := Err(StoreFailed(e));
      case Ok(row) =>
        r := Ok(ToApiUser(row));
    }

    /** `update`: any store failure is reported as `NotFoundException` for the id. */
    method Update(id: string, patch: UserPatch, now: Timestamp) returns (r: Result<User, ServiceError>)
      requires prisma.Valid()
      modifies prisma
      ensures prisma.Valid() && prisma.online == old(prisma.online)
      ensures r.Err? ==> r.error == NotFound(NotFoundFor(id))
      ensures r.Err? <==> !old(prisma.online) || id !in old(prisma.rows)
      ensures r.Err? ==> prisma.rows == old(prisma.rows)
      ensures r.Ok? ==>
        prisma.rows == old(prisma.rows)[id := ApplyStoreUpdate(old(prisma.rows)[id], UpdateData(patch), now)]
        && r.value == ToApiUser(prisma.rows[id])
    {
      var updated := prisma.Update(id, UpdateData(patch), now);
      match updated
      case Err(_) =>
        r := Err(NotFound(NotFoundFor(id)));
      case Ok(row) =>
        r := Ok(ToApiUser(row));
    }

    /** `remove`: `true` once the row is gone; any store failure is reported as `NotFoundException`. */
    method Remove(id: string) returns (r: Result<bool, ServiceError>)
      requires prisma.Valid()
      modifies prisma
      ensures prisma.Valid() && prisma.online == old(prisma.online)
      ensures r.Err? ==> r.error == NotFound(NotFoundFor(id))
      ensures r.Err? <==> !old(prisma.online) || id !in old(prisma.rows)
      ensures r.Err? ==> prisma.rows == old(prisma.rows)
      ensures r.Ok? ==> r.value && prisma.rows == old(prisma.rows) - {id}
    {
      var deleted := prisma.Delete(id);
      match deleted
      case Err(_) =>
        r := Err(NotFound(NotFoundFor(id)));
      case Ok(_) =>
        r := Ok(true);
    }
  }
}
