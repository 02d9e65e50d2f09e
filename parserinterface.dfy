/** The first, deprecated parser interface: a list of typed fields, records
    `[name, type, value]` filled from a list of parameters, a type check of
    every record, and the records set as attributes of a fresh instance.
    The instance is modelled by its attributes; making it (`target_cls()`)
    is a call into code the model cannot see, so its initial attributes are
    a parameter. */
module ParserInterface {
  import opened Wrappers
  import opened Values
  import opened PyDict
  import opened Utils

  type Attributes = Dict<string, Value>

  /** A `Field(field_name, field_type)`; a tuple of types is the list of
      classes `isinstance` accepts. */
  datatype Field = Field(name: string, types: seq<TypeTag>)

  /** A record `[name, type, value]`. */
  datatype Record = Record(name: string, types: seq<TypeTag>, value: Value)

  /** `obj.__class__.__name__` */
  function ClassName(t: TypeTag): string
  {
    match t
    case NoneType => "NoneType"
    case IntType => "int"
    case StrType => "str"
    case ListType => "list"
    case SetType => "set"
  }

  /** `get_cls_name(objs)`: the class names of a list's items, or the class
      name of any other value. */
  function ClsName(v: Value): (r: Items)
    ensures v.ListV? ==> r.List? && |r.items| == |v.items|
  {
    if v.ListV? then List(seq(|v.items|, i requires 0 <= i < |v.items| => ClassName(TypeOf(v.items[i]))))
    else Text(ClassName(TypeOf(v)))
  }

  /** The records `prepare` adds: one per field, in field order, valued `None`. */
  function Prepared(fields: seq<Field>): (r: seq<Record>)
    ensures |r| == |fields|
    ensures forall i :: 0 <= i < |r| ==> r[i] == Record(fields[i].name, fields[i].types, NoneV)
  {
    if fields == [] then []
    else Prepared(fields[..|fields| - 1]) + [Record(fields[|fields| - 1].name, fields[|fields| - 1].types, NoneV)]
  }

  /** The records after `records[i][2] = params[i]` for every `i` of `params`. */
  function Filled(records: seq<Record>, params: seq<Value>): (r: seq<Record>)
    requires |params| <= |records|
    ensures |r| == |records|
  {
    seq(|records|, i requires 0 <= i < |records| =>
      if i < |params| then records[i].(value := params[i]) else records[i])
  }

  /** Filling only changes the values of the first `|params|` records, each
      to its parameter; names, types and the records beyond stay. */
  lemma FilledRecords(records: seq<Record>, params: seq<Value>, i: nat)
    requires |params| <= |records| && i < |records|
    ensures Filled(records, params)[i].name == records[i].name
    ensures Filled(records, params)[i].types == records[i].types
    ensures Filled(records, params)[i].value == if i < |params| then params[i] else records[i].value
  {
  }

  /** The check `verify` makes of one record.  The message is built before
      the assertion, and building it runs `humanize_items` on the value's
      class names, which raises IndexError for an empty list whatever the
      record's type. */
  function CheckRecord(r: Record): Outcome
  {
    var msg := HumanizeItems(ClsName(r.value), true);
    if msg.Err? then Fail(msg.error)
    else if TypeOf(r.value) in r.types then Pass
    else Fail(AssertionError)
  }

  /** `verify()`: the records checked in order, up to the first failure. */
  function CheckRecords(records: seq<Record>): Outcome
  {
    if records == [] then Pass
    else
      var o := CheckRecord(records[0]);
      if o.Fail? then o else CheckRecords(records[1..])
  }

  /** A record passes exactly when its value is an instance of one of its
      types and is not the empty list. */
  lemma CheckRecordPasses(r: Record)
    ensures CheckRecord(r).Pass? <==> r.value != ListV([]) && TypeOf(r.value) in r.types
    ensures r.value == ListV([]) ==> CheckRecord(r) == Fail(IndexError)
  {
    if r.value.ListV? {
      HumanizeItemsRule(ClsName(r.value).items, true);
    }
  }

  /** `verify` passes exactly when every record passes; otherwise it raises
      what the first failing record raises. */
  lemma {:induction false} CheckRecordsPasses(records: seq<Record>) returns (k: nat)
    ensures CheckRecords(records).Pass? <==>
      forall i :: 0 <= i < |records| ==> records[i].value != ListV([]) && TypeOf(records[i].value) in records[i].types
    ensures CheckRecords(records).Fail? ==>
      k < |records| && CheckRecords(records) == CheckRecord(records[k]) &&
      forall i :: 0 <= i < k ==> CheckRecord(records[i]).Pass?
  {
    if records == [] {
      k := 0;
    } else {
      CheckRecordPasses(records[0]);
      var k' := CheckRecordsPasses(records[1..]);
      assert forall i :: 1 <= i < |records| ==> records[i] == records[1..][i - 1];
      if CheckRecord(records[0]).Fail? {
        k := 0;
      } else {
        k := k' + 1;
        forall i | 1 <= i < |records|
          ensures records[i].value != ListV([]) && TypeOf(records[i].value) in records[i].types <==>
            CheckRecord(records[i]).Pass?
        {
          CheckRecordPasses(records[i]);
        }
      }
    }
  }

  /** The attributes after `setattr(result, name, value)` for every record,
      in order. */
  function SetAttrs(init: Attributes, records: seq<Record>): (r: Attributes)
    requires init.Valid()
    ensures r.Valid()
  {
    if records == [] then init
    else
      var last := records[|records| - 1];
      Put(SetAttrs(init, records[..|records| - 1]), last.name, last.value)
  }

  /** No record after the one at `i` has its name. */
  predicate LastOfName(records: seq<Record>, i: nat)
    requires i < |records|
  {
    forall j :: i < j < |records| ==> records[j].name != records[i].name
  }

  /** A record's name holds that record's value when no later record has
      the same name. */
  lemma {:induction false} SetAttrsLast(init: Attributes, records: seq<Record>, i: nat)
    requires init.Valid() && i < |records| && LastOfName(records, i)
    ensures records[i].name in SetAttrs(init, records).entries
    ensures SetAttrs(init, records).entries[records[i].name] == records[i].value
  {
    var n := |records| - 1;
    if i < n {
      assert records[n].name != records[i].name;
      assert LastOfName(records[..n], i) by {
        assert forall j :: 0 <= j < n ==> records[..n][j] == records[j];
      }
      SetAttrsLast(init, records[..n], i);
    }
  }

  /** A name no record has keeps the instance's own attribute, or stays
      absent. */
  lemma {:induction false} SetAttrsOthers(init: Attributes, records: seq<Record>, k: string)
    requires init.Valid()
    requires forall j :: 0 <= j < |records| ==> records[j].name != k
    ensures k in SetAttrs(init, records).entries <==> k in init.entries
    ensures k in init.entries ==> SetAttrs(init, records).entries[k] == init.entries[k]
  {
    if records != [] {
      var n := |records| - 1;
      assert records[n].name != k;
      assert forall j :: 0 <= j < n ==> records[..n][j] == records[j];
      SetAttrsOthers(init, records[..n], k);
    }
  }

  /** The first parser: its own copy of the fields, the records and the
      parsed result. */
  class Parser {
    /** A copy of the list given: later changes to the caller's list are
        not seen. */
    const fields: seq<Field>
    var records: seq<Record>
    var result: Option<Attributes>

    constructor (fields: seq<Field>)
      ensures this.fields == fields && records == [] && result == None
    {
      this.fields := fields;
      records := [];
      result := None;
    }

    /** `prepare()`: one `[name, type, None]` record per field is appended;
        a second call appends them again. */
    method Prepare()
      modifies this
      ensures records == old(records) + Prepared(fields) && result == old(result)
    {
      var i := 0;
      while i < |fields|
        invariant i <= |fields|
        invariant records == old(records) + Prepared(fields[..i]) && result == old(result)
      {
        assert fields[..i + 1][..i] == fields[..i];
        records := records + [Record(fields[i].name, fields[i].types, NoneV)];
        i := i + 1;
      }
      assert fields[..i] == fields;
    }

    /** `fill(params)`: AssertionError, with nothing changed, unless there is
        one parameter per field; then the records take the parameters as
        values in order, and a parameter with no record to go to raises
        IndexError after the earlier ones are stored. */
    method Fill(params: seq<Value>) returns (o: Outcome)
      modifies this
      ensures result == old(result)
      ensures |params| != |fields| ==> o == Fail(AssertionError) && records == old(records)
      ensures |params| == |fields| && |params| <= |old(records)| ==>
        o == Pass && records == Filled(old(records), params)
      ensures |params| == |fields| && |params| > |old(records)| ==>
        o == Fail(IndexError) && records == Filled(old(records), params[..|old(records)|])
    {
      if |params| != |fields| {
        return Fail(AssertionError);
      }
      var i := 0;
      while i < |params|
        invariant i <= |params| && i <= |records| && |records| == |old(records)|
        invariant records == Filled(old(records), params[..i]) && result == old(result)
      {
        if i >= |records| {
          return Fail(IndexError);
        }
        records := records[i := records[i].(value := params[i])];
        i := i + 1;
        assert records == Filled(old(records), params[..i]);
      }
      assert params[..i] == params;
      o := Pass;
    }

    /** `verify()` */
    method Verify() returns (o: Outcome)
      ensures o == CheckRecords(records)
    {
      var i := 0;
      while i < |records|
        invariant i <= |records|
        invariant CheckRecords(records) == CheckRecords(records[i..])
      {
        assert records[i..][1..] == records[i + 1..];
        var c := CheckRecord(records[i]);
        if c.Fail? {
          return c;
        }
        i := i + 1;
      }
      o := Pass;
    }

    /** `parse(target_cls)`: a fresh instance, given as its attributes, with
        every record set on it in order. */
    method Parse(init: Attributes)
      requires init.Valid()
      modifies this
      ensures records == old(records) && result == Some(SetAttrs(init, records))
    {
      var attrs := init;
      var i := 0;
      while i < |records|
        invariant i <= |records| && attrs == SetAttrs(init, records[..i])
      {
        assert records[..i + 1][..i] == records[..i];
        attrs := Put(attrs, records[i].name, records[i].value);
        i := i + 1;
      }
      assert records[..i] == records;
      result := Some(attrs);
    }
  }

  /** The records `parse` works on: one per field, valued by the parameter
      at the same position. */
  function Paired(fields: seq<Field>, params: seq<Value>): (r: seq<Record>)
    requires |params| == |fields|
    ensures |r| == |fields|
  {
    Filled(Prepared(fields), params)
  }

  /** The module function `parse(fields, params, target_cls)`, as a value. */
  function ParseSpec(fields: seq<Field>, params: seq<Value>, init: Attributes): Result<Attributes>
    requires init.Valid()
  {
    if |params| != |fields| then Err(AssertionError)
    else
      var v := CheckRecords(Paired(fields, params));
      if v.Fail? then Err(v.error) else Ok(SetAttrs(init, Paired(fields, params)))
  }

  /** `parse(fields, params, target_cls)`: a parser is made, prepared,
      filled, verified, and the instance parsed. */
  method Parse(fields: seq<Field>, params: seq<Value>, init: Attributes) returns (r: Result<Attributes>)
    requires init.Valid()
    ensures r == ParseSpec(fields, params, init)
  {
    var parser := new Parser(fields);
    parser.Prepare();
    assert parser.records == Prepared(fields);
    var filled := parser.Fill(params);
    if filled.Fail? {
      return Err(filled.error);
    }
    assert parser.records == Paired(fields, params);
    var verified := parser.Verify();
    if verified.Fail? {
      return Err(verified.error);
    }
    parser.Parse(init);
    r := Ok(parser.result.value);
  }

  /** The records `parse` works on pair each field with its parameter. */
  lemma PairedRecords(fields: seq<Field>, params: seq<Value>)
    requires |params| == |fields|
    ensures forall i :: 0 <= i < |fields| ==>
      Paired(fields, params)[i] == Record(fields[i].name, fields[i].types, params[i])
  {
  }

  /** `parse` succeeds exactly when there is one parameter per field and
      every parameter is an instance of its field's types and not the empty
      list. */
  lemma ParseSpecAccepts(fields: seq<Field>, params: seq<Value>, init: Attributes)
    requires init.Valid()
    ensures ParseSpec(fields, params, init).Ok? <==>
      |params| == |fields| &&
      forall i :: 0 <= i < |fields| ==> params[i] != ListV([]) && TypeOf(params[i]) in fields[i].types
  {
    if |params| == |fields| {
      PairedRecords(fields, params);
      var _ := CheckRecordsPasses(Paired(fields, params));
    }
  }

  /** On success, the instance has the name of the field at `i` set to the
      parameter at `i`, unless a later field has the same name. */
  lemma ParseSpecSets(fields: seq<Field>, params: seq<Value>, init: Attributes, i: nat)
    requires init.Valid() && ParseSpec(fields, params, init).Ok?
    requires i < |fields|
    requires forall j :: i < j < |fields| ==> fields[j].name != fields[i].name
    ensures fields[i].name in ParseSpec(fields, params, init).value.entries
    ensures ParseSpec(fields, params, init).value.entries[fields[i].name] == params[i]
  {
    var recs := Paired(fields, params);
    PairedRecords(fields, params);
    assert LastOfName(recs, i);
    SetAttrsLast(init, recs, i);
  }
}
