/** A field of the second parser interface: a name, the validator its
    values must pass, whether it is required, and its default. */
module Field {
  import opened Wrappers
  import opened Values
  import opened Validators

  /** The value a field holds after the values in `attempts` were given to
      `set` one after the other: the last one its validator accepted, or the
      default when it accepted none. */
  function LastAccepted(validator: Validator, default: Value, attempts: seq<Value>): Value
  {
    if attempts == [] then default
    else if Validate(validator, attempts[|attempts| - 1]).Ok? then attempts[|attempts| - 1]
    else LastAccepted(validator, default, attempts[..|attempts| - 1])
  }

  /** With no attempt accepted, the field still holds its default. */
  lemma {:induction false} NoneAccepted(validator: Validator, default: Value, attempts: seq<Value>)
    requires forall i :: 0 <= i < |attempts| ==> Validate(validator, attempts[i]).Err?
    ensures LastAccepted(validator, default, attempts) == default
  {
    if attempts != [] {
      var n := |attempts| - 1;
      assert Validate(validator, attempts[n]).Err?;
      assert forall i :: 0 <= i < n ==> attempts[..n][i] == attempts[i];
      NoneAccepted(validator, default, attempts[..n]);
    }
  }

  /** The field holds the accepted attempt after which every attempt was
      rejected. */
  lemma {:induction false} LastAcceptedIs(validator: Validator, default: Value, attempts: seq<Value>, k: nat)
    requires k < |attempts| && Validate(validator, attempts[k]).Ok?
    requires forall j :: k < j < |attempts| ==> Validate(validator, attempts[j]).Err?
    ensures LastAccepted(validator, default, attempts) == attempts[k]
  {
    var n := |attempts| - 1;
    if k < n {
      assert Validate(validator, attempts[n]).Err?;
      assert forall j :: 0 <= j < n ==> attempts[..n][j] == attempts[j];
      LastAcceptedIs(validator, default, attempts[..n], k);
    }
  }

  class Field {
    const name: string
    const validator: Validator
    const required: bool
    const default: Value
    var value: Value
    /** Every value given to `set` so far, accepted or not. */
    ghost var attempts: seq<Value>

    /** The value is the last accepted attempt, or the default. */
    ghost predicate Valid()
      reads this
    {
      value == LastAccepted(validator, default, attempts)
    }

    /** `Field(name, validator, required, default)` once the check that a
        required field has no default has passed; `NewField` makes that
        check. */
    constructor (name: string, validator: Validator, required: bool, default: Value)
      requires !(required && Truthy(default))
      ensures this.name == name && this.validator == validator
      ensures this.required == required && this.default == default
      ensures value == default && attempts == [] && Valid()
    {
      this.name := name;
      this.validator := validator;
      this.required := required;
      this.default := default;
      value := default;
      attempts := [];
    }

    /** `set(value)`: the validator runs first, so a rejected value raises
        what the validator raises and leaves the field as it was. */
    method Set(v: Value) returns (o: Outcome)
      requires Valid()
      modifies this
      ensures Valid() && attempts == old(attempts) + [v]
      ensures o.Pass? <==> Validate(validator, v).Ok?
      ensures o.Pass? ==> value == v
      ensures o.Fail? ==> o.error == Validate(validator, v).error && value == old(value)
    {
      attempts := attempts + [v];
      var checked := Validate(validator, v);
      if checked.Err? {
        return Fail(checked.error);
      }
      value := v;
      o := Pass;
    }

    /** `get()`: the last value `set` accepted, or the default. */
    function Get(): (r: Value)
      requires Valid()
      reads this
      ensures r == LastAccepted(validator, default, attempts)
    {
      value
    }
  }

  /** `Field(name, validator, required, default)`: a required field with a
      truthy default is refused with ValueError. */
  method NewField(name: string, validator: Validator, required: bool, default: Value) returns (r: Result<Field>)
    ensures r.Err? <==> required && Truthy(default)
    ensures r.Err? ==> r.error == ValueError
    ensures r.Ok? ==> fresh(r.value) && r.value.name == name && r.value.validator == validator
    ensures r.Ok? ==> r.value.required == required && r.value.default == default
    ensures r.Ok? ==> r.value.attempts == [] && r.value.Valid() && r.value.Get() == default
  {
    if required && Truthy(default) {
      return Err(ValueError);
    }
    var f := new Field(name, validator, required, default);
    r := Ok(f);
  }
}
