/** What the authentication service's endpoint handlers share: the check that
    a request payload carries the required properties (`propsPresent`, which
    both handler classes define identically), and the outcome of handling a
    request. */
module HandlerSupport {
  import opened Wrappers

  /** The answer of propsPresent: `{valid: true}` or
      `{valid: false, missing: prop}`. */
  datatype Validity = Valid | Invalid(missing: string)

  /** A request payload, seen as the properties `prop in obj` finds in it
      (inherited ones included) and their values. */
  type Payload<V> = map<string, V>

  /** Every name of `props` is a key of the payload. */
  predicate AllPresent(props: seq<string>, keys: set<string>)
  {
    forall i :: 0 <= i < |props| ==> props[i] in keys
  }

  /** `props[i]` is absent and every name before it is present. */
  predicate MissingAt(props: seq<string>, keys: set<string>, i: int)
  {
    && 0 <= i < |props|
    && props[i] !in keys
    && forall j :: 0 <= j < i ==> props[j] in keys
  }

  /** The answer propsPresent gives, by recursion on the list. */
  function FirstMissing(props: seq<string>, keys: set<string>): Validity
    decreases |props|
  {
    if props == [] then Valid
    else if props[0] !in keys then Invalid(props[0])
    else FirstMissing(props[1..], keys)
  }

  /** The answer is valid exactly when every name is present; in particular
      an empty list is always valid. */
  lemma {:induction false} FirstMissingValidIff(props: seq<string>, keys: set<string>)
    ensures FirstMissing(props, keys) == Valid <==> AllPresent(props, keys)
    decreases |props|
  {
    if props != [] && props[0] in keys {
      FirstMissingValidIff(props[1..], keys);
      assert AllPresent(props, keys) <==> AllPresent(props[1..], keys) by {
        if AllPresent(props[1..], keys) {
          forall i | 0 <= i < |props| ensures props[i] in keys {
            if i > 0 { assert props[i] == props[1..][i - 1]; }
          }
        }
      }
    }
  }

  /** When invalid, the reported name is the first absent one in list order. */
  lemma {:induction false} FirstMissingIsFirst(props: seq<string>, keys: set<string>)
    requires FirstMissing(props, keys).Invalid?
    ensures exists i :: MissingAt(props, keys, i) && props[i] == FirstMissing(props, keys).missing
    decreases |props|
  {
    if props[0] !in keys {
      assert MissingAt(props, keys, 0);
    } else {
      FirstMissingIsFirst(props[1..], keys);
      var k :| MissingAt(props[1..], keys, k) && props[1..][k] == FirstMissing(props[1..], keys).missing;
      forall j | 0 <= j < k + 1 ensures props[j] in keys {
        if j > 0 { assert props[j] == props[1..][j - 1]; }
      }
      assert MissingAt(props, keys, k + 1);
    }
  }

  /** propsPresent: scans the list in order and stops at the first name the
      payload lacks. */
  method PropsPresent(props: seq<string>, keys: set<string>) returns (r: Validity)
    ensures r == FirstMissing(props, keys)
    ensures r.Valid? <==> AllPresent(props, keys)
    ensures r.Invalid? ==> exists i :: MissingAt(props, keys, i) && props[i] == r.missing
  {
    var i := 0;
    while i < |props|
      invariant 0 <= i <= |props|
      invariant forall j :: 0 <= j < i ==> props[j] in keys
      invariant FirstMissing(props[i..], keys) == FirstMissing(props, keys)
    {
      if props[i] !in keys {
        assert MissingAt(props, keys, i);
        return Invalid(props[i]);
      }
      assert props[i..][1..] == props[i + 1..];
      i := i + 1;
    }
    r := Valid;
  }

  /** The outcome of a request: 400 with a message, 201 with what was
      created, or 200 with what the model returned. */
  datatype Outcome<+T> =
    | BadRequest(message: string)
    | Created(message: string, data: T)
    | Success(message: string, data: T)

  function StatusCode<T>(o: Outcome<T>): int
  {
    match o
    case BadRequest(_) => 400
    case Created(_, _) => 201
    case Success(_, _) => 200
  }

  /** A handled request: the call made to the model, if any, with its
      arguments, and the outcome returned to the client. */
  datatype Handled<+A, +T> = Handled(call: Option<A>, outcome: Outcome<T>)

  const BodyEmpty: string := "Body cannot be empty."

  function NotSpecified(prop: string): string
  {
    prop + " not specified."
  }
}
