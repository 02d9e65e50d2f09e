/** Deprecation notices: the message texts, the notice an engine marked as
    deprecated prints, and the counters that make a deprecated function or
    class print its notice on first use only.  Printing is modelled by
    returning the printed line. */
module Deprecated {
  import opened Wrappers
  import opened Text

  /** colorama's `Fore.YELLOW`, the escape sequence every notice starts with. */
  const Yellow: string := "\U{1b}[33m"

  /** The quote put around the engine name. */
  const Quote: string := "'"

  /** `WARNINFO % (engine, remove_version, instead)` */
  function WarnInfo(engine: string, removeVersion: string, instead: string): string
  {
    "engine " + Quote + engine + Quote + " is deprecated and will be removed in " + removeVersion + ", use " + instead + " instead."
  }

  /** A `DeprecatedInfo`: whether an engine is deprecated, when it goes and
      what replaces it. */
  datatype DeprecatedInfo = DeprecatedInfo(isDeprecated: bool, removeVersion: string, instead: string)
  {
    /** The line `show(engine)` prints. */
    function Show(engine: string): string
    {
      Yellow + "Warning: " + WarnInfo(engine, removeVersion, instead)
    }
  }

  /** What follows the engine name's closing quote in a notice. */
  function Rest(info: DeprecatedInfo): string
  {
    " is deprecated and will be removed in " + (info.removeVersion + ", use " + info.instead) + " instead."
  }

  /** A notice is a fixed head, the engine name, a quote and the rest. */
  lemma ShowShape(info: DeprecatedInfo, e: string)
    ensures info.Show(e) == (Yellow + "Warning: engine " + Quote) + (e + Quote + Rest(info))
  {
    assert WarnInfo(e, info.removeVersion, info.instead) == "engine " + Quote + (e + Quote + Rest(info));
    assert "Warning: " + "engine " == "Warning: engine ";
  }

  /** A notice names its engine: two notices that agree, for engine names
      holding no `'`, are about the same engine and carry the same removal
      version and replacement text. */
  lemma ShowNamesEngine(info1: DeprecatedInfo, e1: string, info2: DeprecatedInfo, e2: string)
    requires '\'' !in e1 && '\'' !in e2
    requires info1.Show(e1) == info2.Show(e2)
    ensures e1 == e2
    ensures info1.removeVersion + ", use " + info1.instead == info2.removeVersion + ", use " + info2.instead
  {
    var h := Yellow + "Warning: engine " + Quote;
    ShowShape(info1, e1);
    ShowShape(info2, e2);
    var t1 := e1 + Quote + Rest(info1);
    var t2 := e2 + Quote + Rest(info2);
    assert t1 == (h + t1)[|h|..];
    assert t2 == (h + t2)[|h|..];
    CutAtFirst(e1, Rest(info1), e2, Rest(info2), '\'');
    var mid := " is deprecated and will be removed in ";
    var b1 := info1.removeVersion + ", use " + info1.instead;
    var b2 := info2.removeVersion + ", use " + info2.instead;
    assert b1 == Rest(info1)[|mid|..|mid| + |b1|];
    assert b2 == Rest(info2)[|mid|..|mid| + |b2|];
  }

  /** `DeprecationMessages.deprecated(name, version, remove_version)`; the
      word "remove" is as the library writes it. */
  function Message(name: string, version: string, removeVersion: string): string
  {
    name + " is deprecated since " + version + " and will be remove in " + removeVersion
  }

  /** `DeprecationMessages.deprecated_with_replacement(...)` */
  function MessageWithReplacement(name: string, version: string, removeVersion: string, replacement: string): string
  {
    Message(name, version, removeVersion) + ", use " + replacement + " instead."
  }

  /** The message with a replacement is the plain message followed by the
      replacement clause, so it starts with the plain message and ends with
      `" instead."`. */
  lemma WithReplacementExtends(name: string, version: string, removeVersion: string, replacement: string)
    ensures StartsWith(MessageWithReplacement(name, version, removeVersion, replacement), Message(name, version, removeVersion))
    ensures MessageWithReplacement(name, version, removeVersion, replacement)[|Message(name, version, removeVersion)|..] ==
      ", use " + replacement + " instead."
  {
    var m := Message(name, version, removeVersion);
    var w := MessageWithReplacement(name, version, removeVersion, replacement);
    assert w == m + (", use " + replacement + " instead.");
  }

  /** `process_deprecated(info, name)`: the line printed, if any. */
  function ProcessDeprecated(info: DeprecatedInfo, name: string): (printed: Option<string>)
    ensures printed.Some? <==> info.isDeprecated
    ensures printed.Some? ==> printed.value == info.Show(name)
  {
    if info.isDeprecated then Some(info.Show(name)) else None
  }

  /** The line a deprecated function or class prints on first use. */
  function Notice(warnId: int, message: string): string
  {
    Yellow + "Warning (" + Hex(warnId) + "): " + message
  }

  /** A function object, with the `__refcount__` attribute the wrappers
      of `func_deprecated` give it on their first call (0 while it has
      none).  The counter belongs to the function, so every wrapper of one
      function counts on it. */
  class Function<A, B> {
    const run: A -> B
    var refcount: nat

    constructor (run: A -> B)
      ensures this.run == run && refcount == 0
    {
      this.run := run;
      refcount := 0;
    }
  }

  /** The wrapper `func_deprecated(message, warn_id)` makes of `func`. */
  class DeprecatedFunction<A, B> {
    const func: Function<A, B>
    const message: string
    const warnId: int

    constructor (func: Function<A, B>, message: string, warnId: int)
      ensures this.func == func && this.message == message && this.warnId == warnId
    {
      this.func := func;
      this.message := message;
      this.warnId := warnId;
    }

    /** A call of the wrapper: the wrapped function's counter goes up, the
        notice is printed when that makes it 1, and the result is the
        wrapped function's. */
    method Call(arg: A) returns (result: B, printed: Option<string>)
      modifies func
      ensures func.refcount == old(func.refcount) + 1
      ensures printed.Some? <==> old(func.refcount) == 0
      ensures printed.Some? ==> printed.value == Notice(warnId, message)
      ensures result == func.run(arg)
    {
      if func.refcount == 0 {
        func.refcount := 1;
      } else {
        func.refcount := func.refcount + 1;
      }
      if func.refcount == 1 {
        printed := Some(Notice(warnId, message));
      } else {
        printed := None;
      }
      result := func.run(arg);
    }
  }

  /** Two wrappers of one function share its counter: after the first
      wrapper's first call, the second wrapper's first call prints nothing. */
  method SharedCount<A, B>(f: Function<A, B>, m1: string, id1: int, m2: string, id2: int, arg: A)
    returns (printed1: Option<string>, printed2: Option<string>)
    requires f.refcount == 0
    modifies f
    ensures printed1 == Some(Notice(id1, m1)) && printed2 == None
    ensures f.refcount == 2
  {
    var w1 := new DeprecatedFunction(f, m1, id1);
    var w2 := new DeprecatedFunction(f, m2, id2);
    var _, p1 := w1.Call(arg);
    var _, p2 := w2.Call(arg);
    printed1, printed2 := p1, p2;
  }

  /** The two global tables of `DeprecatedMeta`: instantiations counted per
      class, and each class's message and warning id. */
  class DeprecatedClasses<C(==)> {
    var refcount: map<C, nat>
    var messages: map<C, (string, int)>

    /** A counted class has been instantiated at least once. */
    ghost predicate Valid()
      reads this
    {
      forall c :: c in refcount ==> refcount[c] >= 1
    }

    constructor ()
      ensures refcount == map[] && messages == map[] && Valid()
    {
      refcount := map[];
      messages := map[];
    }

    /** `set_deprecated_msg(cls, msg, warn_id)` */
    method SetMessage(cls: C, msg: string, warnId: int)
      requires Valid()
      modifies this
      ensures messages == old(messages)[cls := (msg, warnId)] && refcount == old(refcount) && Valid()
    {
      messages := messages[cls := (msg, warnId)];
    }

    /** `DeprecatedMeta.__call__(cls)` up to making the object: the class's
        counter goes up; on its first instantiation the class's notice is
        printed, or KeyError is raised when it has no message, after the
        count is taken.  Other classes' counters stay as they were. */
    method Instantiate(cls: C) returns (r: Result<Option<string>>)
      requires Valid()
      modifies this
      ensures Valid()
      ensures refcount == old(refcount)[cls := (if cls in old(refcount) then old(refcount)[cls] else 0) + 1]
      ensures messages == old(messages)
      ensures r.Err? <==> cls !in old(refcount) && cls !in messages
      ensures r.Err? ==> r.error == KeyError
      ensures r.Ok? ==> (r.value.Some? <==> cls !in old(refcount))
      ensures r.Ok? && r.value.Some? ==> r.value.value == Notice(messages[cls].1, messages[cls].0)
    {
      if cls !in refcount {
        refcount := refcount[cls := 1];
      } else {
        refcount := refcount[cls := refcount[cls] + 1];
      }
      if refcount[cls] == 1 {
        if cls !in messages {
          return Err(KeyError);
        }
        var (msg, warnId) := messages[cls];
        return Ok(Some(Notice(warnId, msg)));
      }
      r := Ok(None);
    }
  }
}
