/**
 * What the controllers rely on but do not implement: hashing, credential
 * checks, the email-format test, translated messages, token issuing, the
 * throttle limit and the Fractal serializer, as uninterpreted functions; and
 * the stores every flow threads through.
 */
module Collaborators {
  import opened Wrappers
  import opened PhpArray
  import opened Users
  import opened Registration

  datatype Services = Services(
    // Hash::check(plaintext, digest)
    checkPassword: (string, string) -> bool,
    // bcrypt(plaintext)
    hash: string -> string,
    // the validator's `email` rule
    isEmail: string -> bool,
    // the translated message for a rule failing on a field
    message: (string, Rule) -> string,
    // JWTAuth: a token for the user carrying the given custom claims
    token: (User, Dict) -> string,
    // hasTooManyLoginAttempts on the current count
    tooManyAttempts: nat -> bool,
    // Fractal's serializer applied to a transformer's output
    toArray: Dict -> Dict)

  /** The throttle key: the lower-cased login name and the client address. */
  datatype ThrottleKey = ThrottleKey(login: string, ip: string)

  /** The stores: users, failed-attempt counters, and the guard's authenticated user (by email). */
  datatype World = World(users: UserStore, attempts: map<ThrottleKey, nat>, guard: Option<string>)

  /** A flow's effect: the stores afterwards and what it answered. */
  datatype Step<R> = Step(world: World, result: R)

  /** The counter for `key`; an absent counter reads 0. */
  function Attempts(w: World, key: ThrottleKey): nat {
    if key in w.attempts then w.attempts[key] else 0
  }
}
