/**
 * The three Fractal transformers: each maps its input to an array with a
 * single top-level key, `user`, `successes` or `errors`.
 */
module Transformers {
  import opened Wrappers
  import opened PhpArray
  import opened Users

  /** `foreach ($entries as $key => $value) { $data[$key] = $value; }`, starting from `data`. */
  function CopyEach(data: Dict, entries: Dict): (r: Dict)
    ensures forall k :: k !in Keys(entries) ==> Lookup(r, k) == Lookup(data, k)
    ensures Distinct(entries) ==> forall i :: 0 <= i < |entries| ==> Lookup(r, entries[i].0) == Some(entries[i].1)
    decreases |entries|
  {
    if entries == [] then data
    else
      TailKeys(entries);
      CopyEach(Put(data, entries[0].0, entries[0].1), entries[1..])
  }

  /** The keys of a non-empty array are its first key and the keys of the rest; distinctness passes to the rest. */
  lemma TailKeys(d: Dict)
    requires d != []
    ensures forall k :: k in Keys(d) <==> k == d[0].0 || k in Keys(d[1..])
    ensures Distinct(d) ==> Distinct(d[1..]) && d[0].0 !in Keys(d[1..])
  {
    assert Keys(d) == [d[0].0] + Keys(d[1..]);
    if Distinct(d) {
      DistinctTail(d);
    }
  }

  /** No key of `entries` is already a key of `data`. */
  ghost predicate FreshKeys(data: Dict, entries: Dict) {
    forall i, j :: 0 <= i < |entries| && 0 <= j < |data| ==> entries[i].0 != data[j].0
  }

  /** Copying entries whose keys are new to `data` appends them in order. */
  lemma {:induction false} CopyEachAppends(data: Dict, entries: Dict)
    requires Distinct(entries) && FreshKeys(data, entries)
    ensures CopyEach(data, entries) == data + entries
    decreases |entries|
  {
    if entries != [] {
      var e, rest := entries[0], entries[1..];
      FreshAfterFirst(data, entries);
      CopyFirst(data, entries);
      CopyEachAppends(data + [e], rest);
      AppendFirst(data, entries);
    }
  }

  /** Appending the first entry and then the rest is appending them all. */
  lemma AppendFirst(data: Dict, entries: Dict)
    requires entries != []
    ensures data + [entries[0]] + entries[1..] == data + entries
  {
    assert entries == [entries[0]] + entries[1..];
  }

  /** The first turn of the loop on a new key appends that entry. */
  lemma CopyFirst(data: Dict, entries: Dict)
    requires entries != [] && entries[0].0 !in Keys(data)
    ensures CopyEach(data, entries) == CopyEach(data + [entries[0]], entries[1..])
  {
  }

  /** The first key is new to `data`, and the rest stay distinct and new once it is appended. */
  lemma FreshAfterFirst(data: Dict, entries: Dict)
    requires entries != [] && Distinct(entries) && FreshKeys(data, entries)
    ensures entries[0].0 !in Keys(data)
    ensures Distinct(entries[1..]) && FreshKeys(data + [entries[0]], entries[1..])
  {
    var e, rest := entries[0], entries[1..];
    forall j | 0 <= j < |data|
      ensures Keys(data)[j] != e.0
    {
    }
    DistinctTail(entries);
    forall i, j | 0 <= i < |rest| && 0 <= j < |data + [e]|
      ensures rest[i].0 != (data + [e])[j].0
    {
      assert rest[i] == entries[i + 1];
      if j < |data| {
        assert (data + [e])[j] == data[j];
      }
    }
  }

  /** The loop of both map transformers reproduces a PHP array exactly. */
  lemma CopyEachIdentity(entries: Dict)
    ensures Distinct(entries) ==> CopyEach([], entries) == entries
  {
    if Distinct(entries) {
      CopyEachAppends([], entries);
    }
  }

  /** UserTransformer::transform: the public projection of a user row. */
  function UserTransform(u: User): (r: Dict)
    ensures Keys(r) == ["user"]
    ensures r[0].1.Obj? && Keys(r[0].1.fields) == ["id", "name", "email"]
    ensures Lookup(r[0].1.fields, "id") == Some(Int(u.id))
    ensures Lookup(r[0].1.fields, "name") == Some(Str(u.name))
    ensures Lookup(r[0].1.fields, "email") == Some(Str(u.email))
  {
    var fields := [("id", Int(u.id)), ("name", Str(u.name)), ("email", Str(u.email))];
    assert fields[1..][1..] == [("email", Str(u.email))];
    assert Lookup(fields[1..][1..], "email") == Some(Str(u.email));
    assert Lookup(fields[1..], "email") == Some(Str(u.email));
    [("user", Obj(fields))]
  }

  /** The digest and the provider ids never reach the projection. */
  lemma UserTransformDropsSecrets(u: User, v: User)
    requires u.id == v.id && u.name == v.name && u.email == v.email
    ensures UserTransform(u) == UserTransform(v)
  {
  }

  /** SuccessTransformer::transform. */
  function SuccessTransform(successes: Dict): (r: Dict)
    ensures Keys(r) == ["successes"] && r[0].1.Obj?
    ensures Distinct(successes) ==> r[0].1.fields == successes
  {
    CopyEachIdentity(successes);
    [("successes", Obj(CopyEach([], successes)))]
  }

  /** ErrorTransformer::transform. */
  function ErrorTransform(errors: Dict): (r: Dict)
    ensures Keys(r) == ["errors"] && r[0].1.Obj?
    ensures Distinct(errors) ==> r[0].1.fields == errors
  {
    CopyEachIdentity(errors);
    [("errors", Obj(CopyEach([], errors)))]
  }

  /** Under `successes`, each input key keeps its value and nothing else appears; empty input gives an empty array. */
  lemma SuccessTransformCopies(successes: Dict, k: string)
    requires Distinct(successes)
    ensures Keys(SuccessTransform(successes)[0].1.fields) == Keys(successes)
    ensures Lookup(SuccessTransform(successes)[0].1.fields, k) == Lookup(successes, k)
    ensures SuccessTransform([]) == [("successes", Obj([]))]
  {
  }

  /** Under `errors`, each input key keeps its value and nothing else appears; empty input gives an empty array. */
  lemma ErrorTransformCopies(errors: Dict, k: string)
    requires Distinct(errors)
    ensures Keys(ErrorTransform(errors)[0].1.fields) == Keys(errors)
    ensures Lookup(ErrorTransform(errors)[0].1.fields, k) == Lookup(errors, k)
    ensures ErrorTransform([]) == [("errors", Obj([]))]
  {
  }
}
