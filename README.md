# User store of gql-demo, modelled in Dafny

gql-demo is a NestJS GraphQL server around one entity, `User` (id, name,
email, age, optional bio, creation and update instants). Its `UserService`
exists in two versions, and this project models both:

- **The in-memory table** (`src/user/user.service.ts`): a private array of
  users seeded with three entries. `findOne`, `update` and `remove` scan
  it for the first user with the given id and throw `NotFoundException`
  ("User with ID {id} not found") when there is none. `create` appends a
  user whose id is the decimal string of the new length, so ids are guaranteed
  unique only until the first `remove`. Modelled in module `InMemoryUserService`
  as a class with a `seq<User>` field. Each method's postcondition gives
  the whole new table in terms of the old one.
- **The store-backed service** (`dist/user/user.service.js`): each operation
  makes one call to the Prisma user table. It translates the store's `null`
  bio to an absent one and back, and turns an update's bio into a
  three-state instruction: leave alone, clear, or set. Any failure of the
  store in `update` or `remove` is reported as `NotFoundException` for that
  id. Modelled in module `StoreUserService`, over an abstract store
  (module `UserStore`, class `PrismaUserTable`) whose rows are a map from
  id to row.

Module `UserEntity` holds the shared values:
- `User`, `CreateUserInput` and `UserPatch` (`Partial<CreateUserInput>`);
- `Nullish<T>` for a JavaScript property that is absent, `null`, or holds
  a value;
- the not-found message;
- `NatToString`, which renders a number in decimal as `toString` does.

Instants are integers (milliseconds since the epoch). Every reading of the
clock is a parameter: `create` in the in-memory table takes two, one per
`new Date()`. The id and the timestamp that the store assigns on `create`
are parameters too.

The resolver calls `findAllPaginated` (src/user/user.resolver.ts:30), but
neither service defines it, so pagination is left out.

The store is an external collaborator. The model's assumptions about it:
- `findMany` returns every row, newest `createdAt` first. The model builds
  that list by picking rows one at a time and inserting each in order.
  Rows with equal `createdAt` come in no promised order.
- `update` and `delete` fail on a missing id.
- `create` fails on an id that is already taken.
- `update` restamps `updatedAt` with the time of the call. The database
  schema is not part of this model; the test mocks suggest it does this.
- While the flag `online` is false, every call fails.

## Model

| member | source | states |
|---|---|---|
| `InMemoryUserService.SeedUsers` | src/user/user.service.ts:7-34 | the table starts with exactly three users, with ids "1", "2", "3" in that order; these ids are the counting ids 1..3 |
| `InMemoryUserService.UserService.constructor` | src/user/user.service.ts:7-34 | a new service holds exactly the seed users |
| `InMemoryUserService.UserService.FindAll` | src/user/user.service.ts:36-38 | returns the table as it is, in insertion order, and changes nothing |
| `InMemoryUserService.IndexOf` | src/user/user.service.ts:60-61 | `findIndex` by id: -1 exactly when no user has the id, otherwise the index of the first user with it |
| `InMemoryUserService.UserService.FindIndex` | src/user/user.service.ts:74-75 | the linear scan returns the same index as `IndexOf`: -1 iff no match, else the first match |
| `InMemoryUserService.UserService.FindOne` | src/user/user.service.ts:40-45 | fails with NotFoundException("User with ID {id} not found") iff no user has the id; otherwise returns the first user with that id |
| `InMemoryUserService.UserService.Create` | src/user/user.service.ts:48-56 | appends exactly one user and keeps every earlier one. The new user's id is the decimal string of the old length plus one. It copies name, email, age and bio from the input and takes the two clock readings |
| `InMemoryUserService.ApplyPatch` | src/user/user.service.ts:65-68 | the merge `{...user, ...updateData}`: each key present in the patch overwrites, absent keys keep their value, id and both timestamps are untouched |
| `InMemoryUserService.ApplyPatchComposes` | src/user/user.service.ts:65-68 | two merges in a row equal one merge with the combined patch, in which the later keys win |
| `InMemoryUserService.ApplyPatchIdempotent` | src/user/user.service.ts:65-68 | merging the same patch twice equals merging it once. The empty patch changes nothing |
| `InMemoryUserService.UserService.Update` | src/user/user.service.ts:59-71 | on a missing id, fails with NotFoundException and leaves the table unchanged. Otherwise rewrites only the first matching slot with the merge, keeps the length and every other slot, and returns the new slot |
| `InMemoryUserService.UserService.Remove` | src/user/user.service.ts:73-81 | on a missing id, fails with NotFoundException and leaves the table unchanged. Otherwise splices out exactly the first match, keeps the others in order, shortens the table by one (exactly one copy of that user leaves the multiset) and returns true |
| `InMemoryUserService.RemoveAtDropsOne` | src/user/user.service.ts:79 | `splice(i, 1)` removes exactly one copy of the user at `i` from the table's multiset |
| `InMemoryUserService.CountingIdsAreUnique` | src/user/user.service.ts:50 | while the ids are "1".."n" in order, no two users share an id |
| `InMemoryUserService.CreateKeepsCountingIds` | src/user/user.service.ts:48-56 | on a table whose ids are still counting, `create` keeps them counting and unique |
| `InMemoryUserService.UpdateKeepsCountingIds` | src/user/user.service.ts:65-68 | `update` never changes an id, so counting ids stay counting |
| `InMemoryUserService.RemoveThenCreateRepeatsLastId` | src/user/user.service.ts:48-80 | for any table of n >= 2 users with counting ids, removing any user but the last and then creating one puts the id of n twice in the table, so the ids are no longer unique |
| `InMemoryUserService.RemoveThenCreateRepeatsId` | src/user/user.service.ts:48-80 | removing "1" from the seed and then creating a user leaves ids "2", "3", "3": length-derived ids are not unique after a removal |
| `UserEntity.NatToString` | src/user/user.service.ts:50 | `(n).toString()` is a non-empty string of decimal digits with no leading zero |
| `UserEntity.ParseNatToString` | src/user/user.service.ts:50 | reading the decimal string back gives the number |
| `UserEntity.NatToStringInjective` | src/user/user.service.ts:50 | different lengths give different ids |
| `UserEntity.NotFoundMessageInjective` | src/user/user.service.ts:43 | the message "User with ID {id} not found" determines the id |
| `StoreUserService.ToApiBio` | dist/user/user.service.js:23 | `bio ?? undefined`: a null bio becomes absent and a string stays; the result is never null |
| `StoreUserService.ToApiUser` | dist/user/user.service.js:20-25 | `mapPrismaUserToGraphQLUser` keeps every field, except that a null bio becomes absent |
| `StoreUserService.ToApiUsers` | dist/user/user.service.js:32 | `users.map(...)` maps each row at its position and keeps the length and the order |
| `StoreUserService.CreateBio` | dist/user/user.service.js:47 | `bio ?? null`: an omitted bio is stored as null, a string as itself |
| `StoreUserService.CreateData` | dist/user/user.service.js:45-48 | the create data copies name, email and age from the input; its bio is null exactly when the input's bio is omitted or null, and otherwise the input's string |
| `StoreUserService.StoreBioRoundTrip` | dist/user/user.service.js:23 | a stored bio sent to the API and back is unchanged |
| `StoreUserService.ApiBioRoundTrip` | src/user/user.service.spec.ts:146-166 | after `create`, the returned bio equals the input string, or is absent when the input left it out |
| `StoreUserService.UpdateBio` | dist/user/user.service.js:58 | the update's bio: undefined means leave it alone, null means clear it, a string means set it. Each direction of the three cases holds |
| `StoreUserService.UpdateData` | dist/user/user.service.js:56-59 | the update data keeps each present key of the patch and leaves absent ones out; its bio is "don't touch" exactly for an undefined input bio, "clear" exactly for null, and "set" to the input's string otherwise |
| `StoreUserService.UpdateBioEffect` | src/user/user.service.spec.ts:187-193 | as the API reports it after an update: an undefined bio keeps the old one, null makes it absent, a string sets it |
| `StoreUserService.UpdateAgreesWithInMemoryMerge` | dist/user/user.service.js:52-61 | seen through the API, a store update equals the in-memory merge, except that `updatedAt` is the time of the call and a cleared bio is absent, not null |
| `StoreUserService.UserService.constructor` | dist/user/user.service.js:17-19 | the service keeps the store it is given |
| `StoreUserService.UserService.FindAll` | dist/user/user.service.js:26-33 | if the store fails, the failure propagates. Otherwise returns every stored user exactly once, mapped to the API shape, ordered by createdAt descending |
| `StoreUserService.UserService.FindOne` | dist/user/user.service.js:34-42 | fails with NotFoundException("User with ID {id} not found") exactly when the store has no row with the id. Otherwise returns that row mapped; a store failure propagates unchanged |
| `StoreUserService.UserService.Create` | dist/user/user.service.js:43-51 | stores the input with bio null when omitted and returns the mapped row, whose bio is the input string or absent. A store failure propagates |
| `StoreUserService.UserService.Update` | dist/user/user.service.js:52-66 | every store failure, including a missing id, becomes NotFoundException for the id with the rows unchanged. On success only that row changes, and the mapped new row is returned |
| `StoreUserService.UserService.Remove` | dist/user/user.service.js:67-77 | every store failure becomes NotFoundException for the id with the rows unchanged. On success exactly that row is deleted and the result is true |
| `UserStore.PrismaUserTable.FindManyNewestFirst` | dist/user/user.service.js:27-31 | `findMany` ordered by createdAt descending lists every row once, newest first; it fails only when the store is unreachable |
| `UserStore.PrismaUserTable.FindUnique` | dist/user/user.service.js:35-37 | `findUnique` by id returns the row, or none when the id is missing |
| `UserStore.PrismaUserTable.Create` | dist/user/user.service.js:44-49 | `create` adds one row with the given data, id and timestamp and changes no other row |
| `UserStore.PrismaUserTable.Update` | dist/user/user.service.js:54-60 | `update` fails on a missing id. Otherwise it rewrites only that row, with the columns present in the data |
| `UserStore.PrismaUserTable.Delete` | dist/user/user.service.js:69-71 | `delete` fails on a missing id. Otherwise it removes exactly that row |
| `UserStore.ApplyBioUpdate` | dist/user/user.service.js:58 | an unspecified bio keeps the stored value, cleared stores null, set stores the string |
| `UserStore.ApplyStoreUpdate` | dist/user/user.service.js:54-60 | the columns present in the update overwrite, the others stay, id and createdAt stay, and updatedAt becomes the time of the call |
| `UserStore.InsertNewestFirst` | dist/user/user.service.js:28-30 | inserting a row adds exactly that row, as a multiset |
| `UserStore.InsertKeepsNewestFirst` | dist/user/user.service.js:28-30 | inserting into a list ordered by createdAt descending keeps it ordered |

## Left out

- Cursor pagination (`findAllPaginated`, `PaginationInput`, `UserConnection`): the resolver calls it, but no code for it exists in the repository, so any model of it would be invented.
- Resolvers: they only delegate to the service. The one piece of logic, splitting `id` off the update input, is modelled by `Update` taking the id and a `UserPatch`.
- `app.module.ts`, the Supabase module, decorators and GraphQL metadata: framework wiring and configuration.
- Promises and `async`: calls are modelled as sequential.
- Age is a JavaScript number; the model uses an unbounded integer and does not model floating point.
- Patch keys: a key that is present but holds `undefined` is not modelled. GraphQL never produces one; only a direct TypeScript caller can.
- Patch keys: an explicit `null` for name, email or age is not modelled. In the in-memory table it would overwrite the field with null. In the store-backed service, if the store rejects such a write, `update` reports `NotFoundException` for the id (its catch turns every store failure into that).
- Aliasing: in-memory `findAll` returns the table array itself, and `findOne` the stored object itself. The model returns values, so a caller's later mutation of them is not modelled.
- Creating `Date` values and comparing them: instants are integers, and every clock reading is a parameter.
- The database schema, Prisma's error kinds and its id generation are not part of this model. See the assumptions about the store above.
- Jest mocking mechanics: the test files are used only as evidence for the properties above.
