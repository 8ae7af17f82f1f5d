/**
 * The registration rules and `create`, identical in the API and the web
 * AuthController: name `required|max:255`, email
 * `required|email|max:255|unique:users`, password `required|min:6|confirmed`.
 */
module Registration {
  import opened Wrappers
  import opened PhpArray
  import opened Users

  /** A validation rule that failed on a field. */
  datatype Rule = Required | Email | Max(limit: nat) | Min(limit: nat) | Unique | Confirmed

  /** `$request->all()`: the submitted fields that are present. */
  type Input = map<string, string>

  /** The failed rules per field, in rule order, for the fields that failed. */
  type FieldErrors = seq<(string, seq<Rule>)>

  /** A character PHP's `trim` removes. */
  predicate IsTrimmed(ch: char) {
    ch == ' ' || ch == '\t' || ch == '\n' || ch == '\r' || ch == '\0' || ch as int == 11
  }

  /** `trim($s) === ''`. */
  predicate IsBlank(s: string) {
    forall i :: 0 <= i < |s| ==> IsTrimmed(s[i])
  }

  /** The `required` rule (and `$request->has`): present and not blank. */
  predicate Filled(input: Input, field: string) {
    field in input && !IsBlank(input[field])
  }

  // A field that fails `required` is not checked against its other rules,
  // and `unique` is only consulted when no earlier rule on the field failed.

  /** The failed rules on `name`: `required`, else `max:255`. */
  function NameErrors(input: Input): (r: seq<Rule>)
    ensures r == [] <==> Filled(input, "name") && |input["name"]| <= 255
    ensures Required in r <==> !Filled(input, "name")
  {
    if !Filled(input, "name") then [Required]
    else if |input["name"]| > 255 then [Max(255)]
    else []
  }

  /** The failed rules on `email`: `required`, else `email`, `max:255`, and `unique` only when both of those pass. */
  function EmailErrors(input: Input, users: UserStore, isEmail: string -> bool): (r: seq<Rule>)
    ensures r == [] <==>
      Filled(input, "email") && isEmail(input["email"]) && |input["email"]| <= 255 && input["email"] !in users.byEmail
    ensures Required in r <==> !Filled(input, "email")
    ensures Unique in r <==>
      Filled(input, "email") && isEmail(input["email"]) && |input["email"]| <= 255 && input["email"] in users.byEmail
  {
    if !Filled(input, "email") then [Required]
    else
      var e := input["email"];
      var shape := (if isEmail(e) then [] else [Email]) + (if |e| > 255 then [Max(255)] else []);
      shape + (if shape == [] && e in users.byEmail then [Unique] else [])
  }

  /** The failed rules on `password`: `required`, else `min:6` and `confirmed`. */
  function PasswordErrors(input: Input): (r: seq<Rule>)
    ensures r == [] <==>
      Filled(input, "password") && |input["password"]| >= 6
      && "password_confirmation" in input && input["password_confirmation"] == input["password"]
    ensures Required in r <==> !Filled(input, "password")
    ensures Confirmed in r <==>
      Filled(input, "password")
      && !("password_confirmation" in input && input["password_confirmation"] == input["password"])
  {
    if !Filled(input, "password") then [Required]
    else
      var p := input["password"];
      var confirmed := "password_confirmation" in input && input["password_confirmation"] == p;
      (if |p| < 6 then [Min(6)] else []) + (if confirmed then [] else [Confirmed])
  }

  function Entry(field: string, failed: seq<Rule>): (r: FieldErrors)
    ensures |r| <= 1 && (|r| == 1 <==> failed != [])
    ensures failed != [] ==> r[0] == (field, failed)
  {
    if failed == [] then [] else [(field, failed)]
  }

  /** Every registration rule holds of `input`. */
  ghost predicate RulesHold(input: Input, users: UserStore, isEmail: string -> bool) {
    && Filled(input, "name") && |input["name"]| <= 255
    && Filled(input, "email") && isEmail(input["email"]) && |input["email"]| <= 255
    && input["email"] !in users.byEmail
    && Filled(input, "password") && |input["password"]| >= 6
    && "password_confirmation" in input && input["password_confirmation"] == input["password"]
  }

  /** The place of a field in the rules array: `name`, then `email`, then `password`. */
  function FieldRank(field: string): nat {
    if field == "name" then 0 else if field == "email" then 1 else 2
  }

  /** The validator's verdict: no errors exactly when every rule holds; otherwise the failing fields, each once, in rule order. */
  function Validate(input: Input, users: UserStore, isEmail: string -> bool): (errs: FieldErrors)
    ensures errs == [] <==> RulesHold(input, users, isEmail)
    ensures forall i :: 0 <= i < |errs| ==> errs[i].0 in ["name", "email", "password"] && errs[i].1 != []
    ensures forall i, j :: 0 <= i < j < |errs| ==> errs[i].0 != errs[j].0
    ensures forall i, j :: 0 <= i < j < |errs| ==> FieldRank(errs[i].0) < FieldRank(errs[j].0)
    ensures Filled(input, "email") && input["email"] in users.byEmail ==> errs != []
    ensures (exists i :: 0 <= i < |errs| && errs[i] == ("name", NameErrors(input))) <==> NameErrors(input) != []
    ensures (exists i :: 0 <= i < |errs| && errs[i] == ("email", EmailErrors(input, users, isEmail)))
            <==> EmailErrors(input, users, isEmail) != []
    ensures (exists i :: 0 <= i < |errs| && errs[i] == ("password", PasswordErrors(input)))
            <==> PasswordErrors(input) != []
    ensures forall i :: 0 <= i < |errs| && errs[i].0 == "name" ==> errs[i].1 == NameErrors(input)
    ensures forall i :: 0 <= i < |errs| && errs[i].0 == "email" ==> errs[i].1 == EmailErrors(input, users, isEmail)
    ensures forall i :: 0 <= i < |errs| && errs[i].0 == "password" ==> errs[i].1 == PasswordErrors(input)
  {
    RulesHoldPerField(input, users, isEmail);
    Joined(NameErrors(input), EmailErrors(input, users, isEmail), PasswordErrors(input))
  }

  /** All rules hold exactly when no field has a failed rule. */
  lemma RulesHoldPerField(input: Input, users: UserStore, isEmail: string -> bool)
    ensures RulesHold(input, users, isEmail) <==>
      NameErrors(input) == [] && EmailErrors(input, users, isEmail) == [] && PasswordErrors(input) == []
  {
  }

  /** The per-field entries joined in field order: each failing field once, under its own rules. */
  function Joined(x: seq<Rule>, y: seq<Rule>, z: seq<Rule>): (errs: FieldErrors)
    ensures errs == [] <==> x == [] && y == [] && z == []
    ensures forall i :: 0 <= i < |errs| ==> errs[i].0 in ["name", "email", "password"] && errs[i].1 != []
    ensures forall i, j :: 0 <= i < j < |errs| ==> errs[i].0 != errs[j].0
    ensures forall i, j :: 0 <= i < j < |errs| ==> FieldRank(errs[i].0) < FieldRank(errs[j].0)
    ensures (exists i :: 0 <= i < |errs| && errs[i] == ("name", x)) <==> x != []
    ensures (exists i :: 0 <= i < |errs| && errs[i] == ("email", y)) <==> y != []
    ensures (exists i :: 0 <= i < |errs| && errs[i] == ("password", z)) <==> z != []
    ensures forall i :: 0 <= i < |errs| && errs[i].0 == "name" ==> errs[i].1 == x
    ensures forall i :: 0 <= i < |errs| && errs[i].0 == "email" ==> errs[i].1 == y
    ensures forall i :: 0 <= i < |errs| && errs[i].0 == "password" ==> errs[i].1 == z
  {
    JoinedEntries(x, y, z);
    Entry("name", x) + Entry("email", y) + Entry("password", z)
  }

  /** The joined per-field entries: each failing field once, in field order, under its own rules. */
  lemma JoinedEntries(x: seq<Rule>, y: seq<Rule>, z: seq<Rule>)
    ensures var errs := Entry("name", x) + Entry("email", y) + Entry("password", z);
      && (errs == [] <==> x == [] && y == [] && z == [])
      && (forall i :: 0 <= i < |errs| ==> errs[i].0 in ["name", "email", "password"] && errs[i].1 != [])
      && (forall i, j :: 0 <= i < j < |errs| ==> errs[i].0 != errs[j].0)
      && (forall i, j :: 0 <= i < j < |errs| ==> FieldRank(errs[i].0) < FieldRank(errs[j].0))
      && ((exists i :: 0 <= i < |errs| && errs[i] == ("name", x)) <==> x != [])
      && ((exists i :: 0 <= i < |errs| && errs[i] == ("email", y)) <==> y != [])
      && ((exists i :: 0 <= i < |errs| && errs[i] == ("password", z)) <==> z != [])
      && (forall i :: 0 <= i < |errs| && errs[i].0 == "name" ==> errs[i].1 == x)
      && (forall i :: 0 <= i < |errs| && errs[i].0 == "email" ==> errs[i].1 == y)
      && (forall i :: 0 <= i < |errs| && errs[i].0 == "password" ==> errs[i].1 == z)
  {
    var a, b, c := Entry("name", x), Entry("email", y), Entry("password", z);
    var errs := a + b + c;
    if x != [] { assert errs[0] == ("name", x); }
    if y != [] { assert errs[|a|] == ("email", y); }
    if z != [] { assert errs[|a| + |b|] == ("password", z); }
  }

  /** The messages of one failing field, one per failed rule, in rule order. */
  function Messages(field: string, rules: seq<Rule>, message: (string, Rule) -> string): (ms: seq<Value>)
    ensures |ms| == |rules|
    ensures forall j :: 0 <= j < |rules| ==> ms[j] == Str(message(field, rules[j]))
  {
    seq(|rules|, j requires 0 <= j < |rules| => Str(message(field, rules[j])))
  }

  /** `formatValidationErrors`: each failing field with the list of its messages. */
  function FormatErrors(errs: FieldErrors, message: (string, Rule) -> string): (r: Dict)
    ensures |r| == |errs|
    ensures forall i :: 0 <= i < |errs| ==> r[i] == (errs[i].0, List(Messages(errs[i].0, errs[i].1, message)))
  {
    seq(|errs|, i requires 0 <= i < |errs| => (errs[i].0, List(Messages(errs[i].0, errs[i].1, message))))
  }

  /** Read by key, the formatted errors give each failing field its messages and have nothing under any other key. */
  lemma FormatErrorsLookup(errs: FieldErrors, message: (string, Rule) -> string, f: string)
    requires forall i, j :: 0 <= i < j < |errs| ==> errs[i].0 != errs[j].0
    ensures forall i :: 0 <= i < |errs| ==>
      Lookup(FormatErrors(errs, message), errs[i].0) == Some(List(Messages(errs[i].0, errs[i].1, message)))
    ensures (forall i :: 0 <= i < |errs| ==> errs[i].0 != f) ==> Lookup(FormatErrors(errs, message), f) == None
  {
    var r := FormatErrors(errs, message);
    forall i | 0 <= i < |errs|
      ensures Lookup(r, errs[i].0) == Some(List(Messages(errs[i].0, errs[i].1, message)))
    {
      LookupAt(r, i);
    }
    LookupPresent(r, f);
  }

  /** The error for one field in a failed registration: its messages when it failed, nothing when it passed. */
  function FieldMessages(field: string, rules: seq<Rule>, message: (string, Rule) -> string): Option<Value> {
    if rules == [] then None else Some(List(Messages(field, rules, message)))
  }

  /**
   * The errors `register` formats hold, under `name`, `email` and `password`,
   * exactly the messages of that field's failed rules, and nothing for a
   * field that passed.
   */
  lemma ValidationMessages(input: Input, users: UserStore, isEmail: string -> bool,
                           message: (string, Rule) -> string)
    ensures var r := FormatErrors(Validate(input, users, isEmail), message);
      && Lookup(r, "name") == FieldMessages("name", NameErrors(input), message)
      && Lookup(r, "email") == FieldMessages("email", EmailErrors(input, users, isEmail), message)
      && Lookup(r, "password") == FieldMessages("password", PasswordErrors(input), message)
  {
    var errs := Validate(input, users, isEmail);
    FormatErrorsLookup(errs, message, "name");
    FormatErrorsLookup(errs, message, "email");
    FormatErrorsLookup(errs, message, "password");
  }

  /** Formatting keeps one key per failing field. */
  lemma FormatErrorsDistinct(errs: FieldErrors, message: (string, Rule) -> string)
    requires forall i, j :: 0 <= i < j < |errs| ==> errs[i].0 != errs[j].0
    ensures Distinct(FormatErrors(errs, message))
  {
  }

  /** `create`: a new row holding the name, the email and the digest of the password, and nothing else changes. */
  function Create(users: UserStore, input: Input, hash: string -> string): (r: (UserStore, User))
    requires Valid(users)
    requires "name" in input && "email" in input && "password" in input
    requires input["email"] !in users.byEmail
    ensures Valid(r.0)
    ensures r.0.byEmail.Keys == users.byEmail.Keys + {input["email"]}
    ensures forall e :: e in users.byEmail ==> r.0.byEmail[e] == users.byEmail[e]
    ensures r.0.byEmail[input["email"]] == r.1
    ensures r.1.name == input["name"] && r.1.email == input["email"] && r.1.password == hash(input["password"])
    ensures r.1.facebookId == None && r.1.googleId == None
  {
    Insert(users, input["name"], input["email"], hash(input["password"]))
  }
}
