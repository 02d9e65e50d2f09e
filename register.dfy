/** The engine registry: engine classes by name, filled one at a time or
    from the classes a module defines. */
module Register {
  import opened Wrappers

  /** A class, named by its qualified name. */
  type ClassId = string

  /** An attribute of a module as `add_from_module` sees it: whether it is
      a class, the classes it is a subclass of (itself included), its
      string class attributes, and the engine class itself. */
  datatype Candidate<E> = Candidate(isClass: bool, bases: set<ClassId>, attrs: map<string, string>, engine: E)

  /** The candidate is a class, a subclass of one of the filters, and has
      the field with a non-empty value. */
  predicate Qualifies<E>(c: Candidate<E>, filters: seq<ClassId>, fieldName: string)
  {
    c.isClass && (exists i :: 0 <= i < |filters| && filters[i] in c.bases) &&
    fieldName in c.attrs && c.attrs[fieldName] != ""
  }

  /** The registry after `add_from_module` went through `candidates` in
      the order `dir(module)` lists them. */
  function Registered<E>(engines: map<string, E>, candidates: seq<Candidate<E>>, filters: seq<ClassId>,
                         fieldName: string): map<string, E>
  {
    if candidates == [] then engines
    else
      var before := Registered(engines, candidates[..|candidates| - 1], filters, fieldName);
      var c := candidates[|candidates| - 1];
      if Qualifies(c, filters, fieldName) then before[c.attrs[fieldName] := c.engine] else before
  }

  /** A qualifying candidate is registered under its field's value, with
      itself as the engine unless a later qualifying candidate has the same
      value. */
  lemma {:induction false} RegisteredLast<E>(engines: map<string, E>, candidates: seq<Candidate<E>>,
                                             filters: seq<ClassId>, fieldName: string, i: nat)
    requires i < |candidates| && Qualifies(candidates[i], filters, fieldName)
    requires forall j :: i < j < |candidates| && Qualifies(candidates[j], filters, fieldName) ==>
      candidates[j].attrs[fieldName] != candidates[i].attrs[fieldName]
    ensures candidates[i].attrs[fieldName] in Registered(engines, candidates, filters, fieldName)
    ensures Registered(engines, candidates, filters, fieldName)[candidates[i].attrs[fieldName]] == candidates[i].engine
  {
    var n := |candidates| - 1;
    if i < n {
      assert forall j :: 0 <= j < n ==> candidates[..n][j] == candidates[j];
      RegisteredLast(engines, candidates[..n], filters, fieldName, i);
    }
  }

  /** Every qualifying candidate's field value ends up registered. */
  lemma {:induction false} RegisteredIncludes<E>(engines: map<string, E>, candidates: seq<Candidate<E>>,
                                                 filters: seq<ClassId>, fieldName: string, i: nat)
    requires i < |candidates| && Qualifies(candidates[i], filters, fieldName)
    ensures candidates[i].attrs[fieldName] in Registered(engines, candidates, filters, fieldName)
  {
    var n := |candidates| - 1;
    if i < n {
      assert candidates[..n][i] == candidates[i];
      RegisteredIncludes(engines, candidates[..n], filters, fieldName, i);
    }
  }

  /** A name no qualifying candidate carries keeps its entry, or stays
      unregistered: classes that fail the filter, lack the field or have it
      empty are skipped. */
  lemma {:induction false} RegisteredOthers<E>(engines: map<string, E>, candidates: seq<Candidate<E>>,
                                               filters: seq<ClassId>, fieldName: string, name: string)
    requires forall j :: 0 <= j < |candidates| && Qualifies(candidates[j], filters, fieldName) ==>
      candidates[j].attrs[fieldName] != name
    ensures name in Registered(engines, candidates, filters, fieldName) <==> name in engines
    ensures name in engines ==> Registered(engines, candidates, filters, fieldName)[name] == engines[name]
  {
    if candidates != [] {
      var n := |candidates| - 1;
      assert forall j :: 0 <= j < n ==> candidates[..n][j] == candidates[j];
      RegisteredOthers(engines, candidates[..n], filters, fieldName, name);
    }
  }

  /** A `Register`: engine classes by name. */
  class Register<E> {
    var engines: map<string, E>

    constructor ()
      ensures engines == map[]
    {
      engines := map[];
    }

    /** `get(engine_name)`: KeyError for a name not registered. */
    function Get(name: string): (r: Result<E>)
      reads this
      ensures r.Ok? <==> name in engines
      ensures r.Ok? ==> r.value == engines[name]
      ensures r.Err? ==> r.error == KeyError
    {
      if name !in engines then Err(KeyError) else Ok(engines[name])
    }

    /** `add(engine_name, engine)`: `get` then returns the engine, replacing
        any earlier one of that name, and every other name is untouched. */
    method Add(name: string, engine: E)
      modifies this
      ensures engines == old(engines)[name := engine]
      ensures Get(name) == Ok(engine)
      ensures forall n :: n != name ==> Get(n) == old(Get(n))
    {
      engines := engines[name := engine];
    }

    /** `add_from_module(module, sub_class_filters, field_name)` over the
        module's attributes in `dir()` order. */
    method AddFromModule(candidates: seq<Candidate<E>>, filters: seq<ClassId>, fieldName: string)
      modifies this
      ensures engines == Registered(old(engines), candidates, filters, fieldName)
    {
      var i := 0;
      while i < |candidates|
        invariant i <= |candidates|
        invariant engines == Registered(old(engines), candidates[..i], filters, fieldName)
      {
        assert candidates[..i + 1][..i] == candidates[..i];
        var c := candidates[i];
        if c.isClass {
          var matches := false;
          var j := 0;
          while j < |filters|
            invariant j <= |filters|
            invariant matches <==> exists k :: 0 <= k < j && filters[k] in c.bases
          {
            matches := matches || filters[j] in c.bases;
            j := j + 1;
          }
          if matches && fieldName in c.attrs && c.attrs[fieldName] != "" {
            Add(c.attrs[fieldName], c.engine);
          }
        }
        i := i + 1;
      }
      assert candidates[..i] == candidates;
    }
  }

  /** `del register.engines[name]` with the KeyError swallowed, as
      `remove_reader` and `remove_writer` do: an absent name changes
      nothing. */
  method Remove<E>(register: Register<E>, name: string)
    modifies register
    ensures register.engines == old(register.engines) - {name}
    ensures name !in old(register.engines) ==> register.engines == old(register.engines)
  {
    if name in register.engines {
      register.engines := register.engines - {name};
    }
  }
}
