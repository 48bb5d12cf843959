/** The built-in Jakarta Bean Validation constraints the request DTOs use
    (section 7 of Jakarta Bean Validation 3.0), and the grouping of field
    violations into a map from field to messages (`ValidationUtils`).
 */
module Validation {
  import opened Results
  import opened Text
  import opened Entities

  /** A `FieldError`: the field it is about and its default message. */
  datatype Violation = Violation(field: string, message: string)

  /** `@NotBlank` as Hibernate Validator checks it: not null, and not empty
      once trimmed. It trims, so its notion of blank is not the one of
      `String.isBlank` (see `Requests.TrimmedBlankness`). */
  predicate NotBlank(v: Option<string>) {
    v.Some? && !TrimsToEmpty(v.value)
  }

  /** `@Size(min, max)`: null is valid. */
  predicate SizeWithin(v: Option<string>, min: nat, max: nat) {
    v.None? || min <= |v.value| <= max
  }

  /** `@NotNull`. */
  predicate NotNull<T>(v: Option<T>) {
    v.Some?
  }

  /** `@Past`: null is valid; otherwise strictly before today. */
  predicate InPast(v: Option<Date>, today: Date) {
    v.None? || v.value < today
  }

  /** One constraint's contribution to the list of violations. */
  function Check(holds: bool, field: string, message: string): (r: seq<Violation>)
    ensures forall v :: v in r <==> !holds && v == Violation(field, message)
    ensures |r| == if holds then 0 else 1
  {
    if holds then [] else [Violation(field, message)]
  }

  /** No violation is listed twice: the validator reports a set. */
  predicate Distinct(errors: seq<Violation>) {
    forall i, j | 0 <= i < j < |errors| :: errors[i] != errors[j]
  }

  /** The fields some violation is about. */
  function Fields(errors: seq<Violation>): set<string> {
    set i | 0 <= i < |errors| :: errors[i].field
  }

  /** The messages about `field`, in input order, duplicates kept. */
  function MessagesFor(errors: seq<Violation>, field: string): seq<string>
    decreases |errors|
  {
    if errors == [] then []
    else
      var last := errors[|errors| - 1];
      MessagesFor(errors[..|errors| - 1], field) + (if last.field == field then [last.message] else [])
  }

  /** One step of the loop in `getErrorMessages`:
      `computeIfAbsent(field, new ArrayList).add(message)`. */
  function AddMessage(m: map<string, seq<string>>, e: Violation): map<string, seq<string>> {
    m[e.field := (if e.field in m then m[e.field] else []) + [e.message]]
  }

  /** `getErrorMessages`: the violations grouped by field. */
  function ErrorMessages(errors: seq<Violation>): (m: map<string, seq<string>>)
    ensures m.Keys == Fields(errors)
    ensures forall f | f in m :: m[f] == MessagesFor(errors, f)
    ensures forall f | f in m :: m[f] != []
    decreases |errors|
  {
    if errors == [] then map[]
    else
      var init := errors[..|errors| - 1];
      var last := errors[|errors| - 1];
      FieldsSnoc(errors);
      assert last.field !in Fields(init) ==> MessagesFor(init, last.field) == [] by {
        if last.field !in Fields(init) {
          MessagesAbsent(init, last.field);
        }
      }
      AddMessage(ErrorMessages(init), last)
  }

  /** The fields of a list are those of all but its last entry, and the
      field of the last. */
  lemma FieldsSnoc(errors: seq<Violation>)
    requires errors != []
    ensures Fields(errors) == Fields(errors[..|errors| - 1]) + {errors[|errors| - 1].field}
  {
    var init := errors[..|errors| - 1];
    assert forall i | 0 <= i < |init| :: init[i] == errors[i];
  }

  lemma {:induction false} MessagesAbsent(errors: seq<Violation>, field: string)
    requires field !in Fields(errors)
    ensures MessagesFor(errors, field) == []
    decreases |errors|
  {
    if errors != [] {
      var init := errors[..|errors| - 1];
      assert Fields(init) <= Fields(errors) by {
        assert forall i | 0 <= i < |init| :: init[i] == errors[i];
      }
      MessagesAbsent(init, field);
      assert errors[|errors| - 1].field in Fields(errors);
    }
  }

  /** The fields of the violations without repetition, in order of first
      appearance: one entry per key of the grouped map. */
  function DistinctFields(errors: seq<Violation>): (fs: seq<string>)
    ensures forall f :: f in fs <==> f in Fields(errors)
    ensures forall i, j | 0 <= i < j < |fs| :: fs[i] != fs[j]
    decreases |errors|
  {
    if errors == [] then []
    else
      var init := errors[..|errors| - 1];
      var last := errors[|errors| - 1];
      FieldsSnoc(errors);
      var fs := DistinctFields(init);
      if last.field in fs then fs else fs + [last.field]
  }

  /** The lengths of the lists `m` holds under `keys`, added up. */
  function TotalLength(m: map<string, seq<string>>, keys: seq<string>): nat {
    if keys == [] then 0
    else (if keys[0] in m then |m[keys[0]]| else 0) + TotalLength(m, keys[1..])
  }

  /** How many of `errors` name one of `keys`. */
  function CountNamed(errors: seq<Violation>, keys: seq<string>): nat {
    if keys == [] then 0 else |MessagesFor(errors, keys[0])| + CountNamed(errors, keys[1..])
  }

  lemma {:induction false} CountNamedSnoc(errors: seq<Violation>, e: Violation, keys: seq<string>)
    requires forall i, j | 0 <= i < j < |keys| :: keys[i] != keys[j]
    ensures CountNamed(errors + [e], keys) == CountNamed(errors, keys) + (if e.field in keys then 1 else 0)
  {
    if keys != [] {
      assert (errors + [e])[..|errors + [e]| - 1] == errors;
      CountNamedSnoc(errors, e, keys[1..]);
      assert e.field in keys <==> e.field == keys[0] || e.field in keys[1..];
      assert e.field == keys[0] ==> e.field !in keys[1..];
    }
  }

  lemma {:induction false} CountNamedAppend(errors: seq<Violation>, keys: seq<string>, f: string)
    ensures CountNamed(errors, keys + [f]) == CountNamed(errors, keys) + |MessagesFor(errors, f)|
  {
    if keys != [] {
      assert (keys + [f])[1..] == keys[1..] + [f];
      CountNamedAppend(errors, keys[1..], f);
    }
  }

  lemma {:induction false} CountAll(errors: seq<Violation>)
    ensures CountNamed(errors, DistinctFields(errors)) == |errors|
    decreases |errors|
  {
    if errors != [] {
      var init := errors[..|errors| - 1];
      var last := errors[|errors| - 1];
      assert errors == init + [last];
      var fs := DistinctFields(init);
      CountAll(init);
      if last.field in fs {
        CountNamedSnoc(init, last, fs);
      } else {
        CountNamedSnoc(init, last, fs);
        CountNamedAppend(errors, fs, last.field);
        MessagesAbsent(init, last.field);
      }
    }
  }

  lemma {:induction false} TotalIsCount(m: map<string, seq<string>>, errors: seq<Violation>, keys: seq<string>)
    requires forall f | f in m :: m[f] == MessagesFor(errors, f)
    requires forall f | f in keys :: f in m
    ensures TotalLength(m, keys) == CountNamed(errors, keys)
  {
    if keys != [] {
      TotalIsCount(m, errors, keys[1..]);
    }
  }

  /** No message is lost or invented: the lists of the grouped map, one per
      key, hold exactly as many messages as there were violations. */
  lemma MessagesAreConserved(errors: seq<Violation>)
    ensures TotalLength(ErrorMessages(errors), DistinctFields(errors)) == |errors|
  {
    TotalIsCount(ErrorMessages(errors), errors, DistinctFields(errors));
    CountAll(errors);
  }

  /** The grouped map is determined by the fields and the messages per
      field: any map that agrees with both is the grouping. */
  lemma GroupingIsDetermined(errors: seq<Violation>, expected: map<string, seq<string>>)
    requires expected.Keys == Fields(errors)
    requires forall f | f in expected :: expected[f] == MessagesFor(errors, f)
    ensures ErrorMessages(errors) == expected
  {
  }

  /** Several messages about one field are kept in the order they came,
      and a field in between keeps its own. */
  lemma GroupingExample(f: string, g: string, x: string, y: string, z: string)
    requires f != g
    ensures ErrorMessages([Violation(f, x), Violation(g, y), Violation(f, z)])
      == map[f := [x, z], g := [y]]
  {
    var errors := [Violation(f, x), Violation(g, y), Violation(f, z)];
    ThreeFields(errors, f, g);
    ThreeMessages(f, g, x, y, z);
    GroupingIsDetermined(errors, map[f := [x, z], g := [y]]);
  }

  /** Two messages about one field are kept together, in order. */
  lemma TwoOnOneField(f: string, x: string, y: string)
    ensures ErrorMessages([Violation(f, x), Violation(f, y)]) == map[f := [x, y]]
  {
    var errors := [Violation(f, x), Violation(f, y)];
    assert Fields(errors) == {f} by {
      assert errors[0].field in Fields(errors);
    }
    assert errors[..1][..0] == [];
    assert MessagesFor(errors[..1], f) == [x];
    GroupingIsDetermined(errors, map[f := [x, y]]);
  }

  lemma ThreeFields(errors: seq<Violation>, f: string, g: string)
    requires |errors| == 3 && errors[0].field == f && errors[1].field == g && errors[2].field == f
    ensures Fields(errors) == {f, g}
  {
    assert errors[0].field in Fields(errors) && errors[1].field in Fields(errors);
  }

  lemma ThreeMessages(f: string, g: string, x: string, y: string, z: string)
    requires f != g
    ensures var errors := [Violation(f, x), Violation(g, y), Violation(f, z)];
      MessagesFor(errors, f) == [x, z] && MessagesFor(errors, g) == [y]
  {
    var errors := [Violation(f, x), Violation(g, y), Violation(f, z)];
    var two := errors[..2];
    var one := two[..1];
    assert one[..0] == [];
    assert MessagesFor(one, f) == [x] && MessagesFor(one, g) == [];
    assert MessagesFor(two, f) == [x] && MessagesFor(two, g) == [y];
  }
}
