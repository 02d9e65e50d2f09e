/** `Parser.parse` of the second parser interface: the fields are resolved
    one after the other against the given parameters and set as attributes
    of a freshly made instance.  The instance is modelled by its attributes,
    an insertion-ordered dict; making it (`target(*args, **kwargs)`) is a
    call into code the model cannot see, so its initial attributes are a
    parameter. */
module Parser {
  import opened Wrappers
  import opened Values
  import opened PyDict
  import opened Validators
  import Field

  type Attributes = Dict<string, Value>

  /** What a field is set to when it passes: the parameter of its name, or
      its default when there is none. */
  function FieldValue(f: Field.Field, params: map<string, Value>): Value
  {
    if f.name in params then params[f.name] else f.default
  }

  /** Whether a field lets `parse` go on: its parameter, when present, is
      accepted by its validator; when absent, the field is not required. */
  predicate Passes(f: Field.Field, params: map<string, Value>)
  {
    if f.name in params then Validate(f.validator, params[f.name]).Ok? else !f.required
  }

  /** The attributes after resolving `fields` in order, or the first error:
      the validator's error for a rejected parameter, ValueError for a
      missing required field. */
  function Resolve(fields: seq<Field.Field>, params: map<string, Value>, inst: Attributes): Result<Attributes>
    requires inst.Valid()
  {
    if fields == [] then Ok(inst)
    else
      var f := fields[0];
      if f.name in params then
        var _ :- Validate(f.validator, params[f.name]);
        Resolve(fields[1..], params, Put(inst, f.name, params[f.name]))
      else if f.required then Err(ValueError)
      else Resolve(fields[1..], params, Put(inst, f.name, f.default))
  }

  /** The value the last field named `k` gives, if any field is named `k`. */
  function Assigned(fields: seq<Field.Field>, params: map<string, Value>, k: string): Option<Value>
  {
    if fields == [] then None
    else
      var later := Assigned(fields[1..], params, k);
      if later.Some? then later
      else if fields[0].name == k then Some(FieldValue(fields[0], params))
      else None
  }

  /** Resolving sets exactly the attributes the fields name, each to the
      value of the last field of that name, and leaves every other
      attribute of the instance as it was; new attributes come after the
      instance's own, in the order the fields first name them.  Parameters
      that name no field are never looked at. */
  lemma {:induction false} ResolveEntries(fields: seq<Field.Field>, params: map<string, Value>, inst: Attributes)
    requires inst.Valid()
    ensures Resolve(fields, params, inst).Ok? ==>
      Resolve(fields, params, inst).value.Valid() &&
      inst.keys <= Resolve(fields, params, inst).value.keys
  {
    if fields != [] && Resolve(fields, params, inst).Ok? {
      var f := fields[0];
      var next := Put(inst, f.name, FieldValue(f, params));
      assert Resolve(fields, params, inst) == Resolve(fields[1..], params, next);
      ResolveEntries(fields[1..], params, next);
    }
  }

  /** The attribute `k` after resolving: present exactly when it was before
      or a field names it, and then the last such field's value, or the old
      one when no field names it. */
  lemma {:induction false} ResolveEntry(fields: seq<Field.Field>, params: map<string, Value>, inst: Attributes, k: string)
    requires inst.Valid() && Resolve(fields, params, inst).Ok?
    ensures k in Resolve(fields, params, inst).value.entries <==>
      k in inst.entries || Assigned(fields, params, k).Some?
    ensures k in Resolve(fields, params, inst).value.entries ==>
      Resolve(fields, params, inst).value.entries[k] ==
        if Assigned(fields, params, k).Some? then Assigned(fields, params, k).value else inst.entries[k]
  {
    if fields != [] {
      var f := fields[0];
      var next := Put(inst, f.name, FieldValue(f, params));
      assert Resolve(fields, params, inst) == Resolve(fields[1..], params, next);
      ResolveEntry(fields[1..], params, next, k);
    }
  }

  /** No field named `k`: nothing is assigned to `k`. */
  lemma {:induction false} AssignedNone(fields: seq<Field.Field>, params: map<string, Value>, k: string)
    requires forall j :: 0 <= j < |fields| ==> fields[j].name != k
    ensures Assigned(fields, params, k) == None
  {
    if fields != [] {
      assert forall j :: 0 <= j < |fields| - 1 ==> fields[1..][j] == fields[j + 1];
      AssignedNone(fields[1..], params, k);
    }
  }

  /** The field at `i`, when no later field has its name, decides the
      value its name is assigned. */
  lemma {:induction false} AssignedLast(fields: seq<Field.Field>, params: map<string, Value>, i: nat)
    requires i < |fields|
    requires forall j :: i < j < |fields| ==> fields[j].name != fields[i].name
    ensures Assigned(fields, params, fields[i].name) == Some(FieldValue(fields[i], params))
  {
    assert forall j :: 0 <= j < |fields| - 1 ==> fields[1..][j] == fields[j + 1];
    if i == 0 {
      AssignedNone(fields[1..], params, fields[0].name);
    } else {
      AssignedLast(fields[1..], params, i - 1);
    }
  }

  /** A name no field has is not assigned. */
  lemma {:induction false} AssignedOnlyFields(fields: seq<Field.Field>, params: map<string, Value>, k: string)
    ensures Assigned(fields, params, k).Some? ==> exists i :: 0 <= i < |fields| && fields[i].name == k
  {
    if fields != [] && Assigned(fields, params, k).Some? {
      if Assigned(fields[1..], params, k).Some? {
        AssignedOnlyFields(fields[1..], params, k);
        var i :| 0 <= i < |fields[1..]| && fields[1..][i].name == k;
        assert fields[i + 1].name == k;
      } else {
        assert fields[0].name == k;
      }
    }
  }

  /** After `parse`, the attribute a field names holds that field's
      parameter, or its default when it has none, unless a later field has
      the same name. */
  lemma ResolveSetsField(fields: seq<Field.Field>, params: map<string, Value>, inst: Attributes, i: nat)
    requires inst.Valid() && Resolve(fields, params, inst).Ok?
    requires i < |fields|
    requires forall j :: i < j < |fields| ==> fields[j].name != fields[i].name
    ensures fields[i].name in Resolve(fields, params, inst).value.entries
    ensures Resolve(fields, params, inst).value.entries[fields[i].name] == FieldValue(fields[i], params)
  {
    ResolveEntry(fields, params, inst, fields[i].name);
    AssignedLast(fields, params, i);
  }

  /** An attribute no field names is neither added nor changed, whatever
      the parameters hold under that name. */
  lemma ResolveKeepsOthers(fields: seq<Field.Field>, params: map<string, Value>, inst: Attributes, k: string)
    requires inst.Valid() && Resolve(fields, params, inst).Ok?
    requires forall j :: 0 <= j < |fields| ==> fields[j].name != k
    ensures k in Resolve(fields, params, inst).value.entries <==> k in inst.entries
    ensures k in inst.entries ==> Resolve(fields, params, inst).value.entries[k] == inst.entries[k]
  {
    ResolveEntry(fields, params, inst, k);
    AssignedNone(fields, params, k);
  }

  /** `parse` succeeds exactly when every field passes, and otherwise fails
      at the first field in list order that does not: with its validator's
      error, or ValueError when it is required and has no parameter. */
  lemma {:induction false} ResolveFirstFailure(fields: seq<Field.Field>, params: map<string, Value>, inst: Attributes)
    returns (k: nat)
    requires inst.Valid()
    ensures Resolve(fields, params, inst).Ok? <==> forall i :: 0 <= i < |fields| ==> Passes(fields[i], params)
    ensures Resolve(fields, params, inst).Err? ==>
      k < |fields| && !Passes(fields[k], params) &&
      (forall i :: 0 <= i < k ==> Passes(fields[i], params)) &&
      Resolve(fields, params, inst).error ==
        if fields[k].name in params then Validate(fields[k].validator, params[fields[k].name]).error
        else ValueError
  {
    if fields == [] {
      k := 0;
    } else {
      var f := fields[0];
      var next := Put(inst, f.name, FieldValue(f, params));
      var k' := ResolveFirstFailure(fields[1..], params, next);
      assert forall i :: 1 <= i < |fields| ==> fields[i] == fields[1..][i - 1];
      if !Passes(f, params) {
        k := 0;
      } else {
        k := k' + 1;
      }
    }
  }

  /** Resolving from field `i` on: field `i` is checked, then the fields
      after it are resolved. */
  lemma {:induction false} ResolveStep(fields: seq<Field.Field>, params: map<string, Value>, cur: Attributes, i: nat)
    requires cur.Valid() && i < |fields|
    ensures var f := fields[i];
      Resolve(fields[i..], params, cur) ==
        if f.name in params then
          (if Validate(f.validator, params[f.name]).Err? then Err(Validate(f.validator, params[f.name]).error)
           else Resolve(fields[i + 1..], params, Put(cur, f.name, params[f.name])))
        else if f.required then Err(ValueError)
        else Resolve(fields[i + 1..], params, Put(cur, f.name, f.default))
  {
    assert fields[i..][0] == fields[i];
    assert fields[i..][1..] == fields[i + 1..];
  }

  /** A `Parser`: the parameters and the fields to resolve against them. */
  class Parser {
    const params: map<string, Value>
    const fields: seq<Field.Field>

    constructor (params: map<string, Value>, fields: seq<Field.Field>)
      ensures this.params == params && this.fields == fields
    {
      this.params := params;
      this.fields := fields;
    }

    /** `parse(*args, **kwargs)` given the attributes of the instance
        `target(*args, **kwargs)` made. */
    method Parse(inst: Attributes) returns (r: Result<Attributes>)
      requires inst.Valid()
      ensures r == Resolve(fields, params, inst)
    {
      var cur := inst;
      var i := 0;
      while i < |fields|
        invariant i <= |fields| && cur.Valid()
        invariant Resolve(fields, params, inst) == Resolve(fields[i..], params, cur)
      {
        var f := fields[i];
        ResolveStep(fields, params, cur, i);
        if f.name in params {
          var checked := Validate(f.validator, params[f.name]);
          if checked.Err? {
            return Err(checked.error);
          }
          cur := Put(cur, f.name, params[f.name]);
        } else if f.required {
          return Err(ValueError);
        } else {
          cur := Put(cur, f.name, f.default);
        }
        i := i + 1;
      }
      r := Ok(cur);
    }
  }
}
