/**
 * The value types shared by both user services: the GraphQL `User` entity,
 * the create and update inputs, the not-found error, and the decimal
 * rendering of numbers that the in-memory table uses to make ids.
 */
module UserEntity {

  datatype Option<+T> = None | Some(value: T)

  datatype Result<+T, +E> = Ok(value: T) | Err(error: E)

  /** A JavaScript property that may be missing (`undefined`), `null`, or hold a value.
      `Undefined` stands for a key that is absent from the object. */
  datatype Nullish<+T> = Undefined | Null | Value(value: T)

  /** Instants (`Date`) as milliseconds since the epoch. */
  type Timestamp = int

  /** The GraphQL `User` object type. */
  datatype User = User(
    id: string,
    name: string,
    email: string,
    age: int,
    bio: Nullish<string>,
    createdAt: Timestamp,
    updatedAt: Timestamp)

  /** `CreateUserInput`: everything but the id and the timestamps. */
  datatype CreateUserInput = CreateUserInput(
    name: string,
    email: string,
    age: int,
    bio: Nullish<string>)

  /** `Partial<CreateUserInput>`: `None` / `Undefined` for a key the caller left out. */
  datatype UserPatch = UserPatch(
    name: Option<string>,
    email: Option<string>,
    age: Option<int>,
    bio: Nullish<string>)

  /** The empty patch `{}`. */
  const NoChange := UserPatch(None, None, None, Undefined)

  /** `NotFoundException`, with the message it carries. */
  datatype NotFoundException = NotFoundException(message: string)

  /** The message both services put into their `NotFoundException`. */
  function NotFoundMessage(id: string): string
  {
    "User with ID " + id + " not found"
  }

  function NotFoundFor(id: string): NotFoundException
  {
    NotFoundException(NotFoundMessage(id))
  }

  /** The message names the id it is about: different ids give different messages. */
  lemma NotFoundMessageInjective(a: string, b: string)
    ensures NotFoundMessage(a) == NotFoundMessage(b) ==> a == b
  {
    if NotFoundMessage(a) == NotFoundMessage(b) {
      var pre := "User with ID ";
      var n := |NotFoundMessage(a)| - |" not found"|;
      assert NotFoundMessage(a)[|pre|..n] == a;
      assert NotFoundMessage(b)[|pre|..n] == b;
    }
  }

  // ---------------------------------------------------------------------
  // Decimal rendering of a non-negative integer (`Number.prototype.toString`).

  predicate IsDigit(c: char)
  {
    '0' <= c <= '9'
  }

  predicate AllDigits(s: string)
  {
    forall i :: 0 <= i < |s| ==> IsDigit(s[i])
  }

  function DigitChar(d: nat): (c: char)
    requires d < 10
    ensures IsDigit(c)
  {
    (('0' as int) + d) as char
  }

  function DigitValue(c: char): (d: nat)
    requires IsDigit(c)
    ensures d < 10 && DigitChar(d) == c
  {
    (c as int) - ('0' as int)
  }

  /** `n.toString()`: the shortest decimal numeral of `n`. */
  function NatToString(n: nat): (s: string)
    ensures |s| >= 1 && AllDigits(s)
    ensures s[0] == '0' ==> n == 0
    decreases n
  {
    if n < 10 then [DigitChar(n)] else NatToString(n / 10) + [DigitChar(n % 10)]
  }

  /** The value of a decimal numeral, digits read most significant first. */
  function ParseNat(s: string): nat
    requires AllDigits(s)
  {
    if s == [] then 0 else 10 * ParseNat(s[..|s| - 1]) + DigitValue(s[|s| - 1])
  }

  lemma {:induction false} ParseNatToString(n: nat)
    ensures ParseNat(NatToString(n)) == n
    decreases n
  {
    var s := NatToString(n);
    if n < 10 {
      assert s[..|s| - 1] == [];
    } else {
      ParseNatToString(n / 10);
      assert s[..|s| - 1] == NatToString(n / 10);
    }
  }

  /** Distinct numbers render as distinct numerals. */
  lemma NatToStringInjective(a: nat, b: nat)
    ensures NatToString(a) == NatToString(b) ==> a == b
  {
    ParseNatToString(a);
    ParseNatToString(b);
  }
}
