/**
 * The callback wrapper of pynm/callback.py: a target callable with
 * positional and keyword arguments bound at construction, invoked with the
 * notification key and call-time arguments merged in.
 *
 * Python objects are opaque: an `Obj` carries its identity (`id()`), whether
 * `callable()` accepts it, and its truthiness. What a target does when it is
 * invoked is outside the library; it is an oracle `raises` that says, for an
 * invocation, which exception (if any) the target raised.
 */
module Callbacks {
  import opened Wrappers

  /** A Python object as the library sees it. */
  datatype Obj = Obj(id: nat, callable: bool, truthy: bool)

  /** An argument value: a string (such as a notification key) or any other object. */
  datatype Value = Text(s: string) | Ref(obj: Obj)

  /** An exception raised by a target callable. */
  datatype Exc = Exc(kind: string)

  /** One call of a target: the callable and the arguments it received. */
  datatype Invocation = Invocation(target: Obj, args: seq<Value>, kwargs: map<string, Value>)

  /**
   * Errors raised by this module: CallbackFuncError, CallbackFailed, and the
   * TypeError Python raises when a keyword argument names a parameter that
   * is already bound ("got multiple values for argument").
   */
  datatype CallbackError =
    | CallbackFuncError(func: Obj)
    | CallbackFailed(callback: Callback, reason: Exc)
    | BindingTypeError

  /** Some keyword in `kwargs` is one of the named parameters `params` of the function called. */
  predicate Rebinds(kwargs: map<string, Value>, params: set<string>)
  {
    kwargs.Keys * params != {}
  }

  /** The named parameters of `Callback.__init__`, which `**kwargs` cannot also carry. */
  const InitParams: set<string> := {"self", "func"}

  /**
   * A callable with bound arguments. The fields are set once, by the
   * constructor, and never written again.
   */
  class Callback {
    const func: Obj
    const args: seq<Value>
    const kwargs: map<string, Value>

    /** Stores the bindings; reached through `NewCallback`, which checks callability first. */
    constructor (func: Obj, args: seq<Value>, kwargs: map<string, Value>)
      requires func.callable
      ensures this.func == func && this.args == args && this.kwargs == kwargs
    {
      this.func := func;
      this.args := args;
      this.kwargs := kwargs;
    }
  }

  /**
   * `Callback(func, *args, **kwargs)`: a keyword named `func` or `self`
   * fails while the arguments are bound, before the body runs; otherwise a
   * non-callable target is refused, and anything else is stored as given.
   */
  method NewCallback(func: Obj, args: seq<Value>, kwargs: map<string, Value>)
    returns (r: Result<Callback, CallbackError>)
    ensures r.Ok? <==> func.callable && !Rebinds(kwargs, InitParams)
    ensures Rebinds(kwargs, InitParams) ==> r == Err(BindingTypeError)
    ensures !Rebinds(kwargs, InitParams) && r.Err? ==> r.error == CallbackFuncError(func)
    ensures r.Ok? ==> fresh(r.value)
    ensures r.Ok? ==> r.value.func == func && r.value.args == args && r.value.kwargs == kwargs
  {
    if Rebinds(kwargs, InitParams) {
      return Err(BindingTypeError);
    }
    if !func.callable {
      return Err(CallbackFuncError(func));
    }
    var cb := new Callback(func, args, kwargs);
    return Ok(cb);
  }

  /** Number of leading positions the key occupies in the merged positional list. */
  function KeySlots(key: Option<Value>): nat
  {
    if key.Some? then 1 else 0
  }

  /**
   * Positional arguments of an invocation: the key (when one is given),
   * then the bound arguments, then the call-time ones.
   */
  function PositionalArgs(key: Option<Value>, bound: seq<Value>, call: seq<Value>): seq<Value>
  {
    (if key.Some? then [key.value] else []) + bound + call
  }

  /** The key comes first, the bound arguments next and the call-time ones last, none lost or reordered. */
  lemma PositionalLayout(key: Option<Value>, bound: seq<Value>, call: seq<Value>)
    ensures var r := PositionalArgs(key, bound, call);
      |r| == KeySlots(key) + |bound| + |call| &&
      (key.Some? ==> r[0] == key.value) &&
      r[KeySlots(key)..KeySlots(key) + |bound|] == bound &&
      r[KeySlots(key) + |bound|..] == call
  {
  }

  /**
   * Keyword arguments of an invocation: the bound ones overridden by the
   * call-time ones.
   */
  function KeywordArgs(bound: map<string, Value>, call: map<string, Value>): map<string, Value>
  {
    bound + call
  }

  /** Every bound or call-time keyword is passed; a call-time value wins over a bound one. */
  lemma KeywordMerge(bound: map<string, Value>, call: map<string, Value>)
    ensures var r := KeywordArgs(bound, call);
      (forall k :: k in r <==> k in bound || k in call) &&
      (forall k :: k in call ==> r[k] == call[k]) &&
      (forall k :: k in bound && k !in call ==> r[k] == bound[k])
  {
  }

  /** The invocation that calling `cb` with `key`, `args` and `kwargs` makes of its target. */
  function Request(cb: Callback, key: Option<Value>, args: seq<Value>, kwargs: map<string, Value>): Invocation
  {
    Invocation(cb.func, PositionalArgs(key, cb.args, args), KeywordArgs(cb.kwargs, kwargs))
  }

  /**
   * Binding a call `cb(*args, key=key, **kwargs)` to the parameters of
   * `__call__(self, *args, key=None, **kwargs)` fails: `kwargs` names
   * `self`, or names `key` when `key=` is passed as well.
   */
  predicate CallClashes(key: Option<Value>, kwargs: map<string, Value>)
  {
    "self" in kwargs || (key.Some? && "key" in kwargs)
  }

  /** The value the `key` parameter receives: the `key=` argument, or a `key` keyword inside `kwargs`. */
  function BoundKey(key: Option<Value>, kwargs: map<string, Value>): Option<Value>
  {
    if key.None? && "key" in kwargs then Some(kwargs["key"]) else key
  }

  /**
   * `cb(*args, key=key, **kwargs)` (with `key` omitted when it is `None`):
   * a keyword that rebinds `self` or `key` raises TypeError before the body
   * runs, and nothing is invoked. Otherwise the merged arguments are built
   * on fresh locals, the target is invoked, and any exception it raises
   * becomes CallbackFailed carrying the callback and the original exception.
   */
  method Call(cb: Callback, key: Option<Value>, args: seq<Value>, kwargs: map<string, Value>,
              raises: Invocation -> Option<Exc>)
    returns (made: Option<Invocation>, r: Outcome<CallbackError>)
    ensures made.None? <==> CallClashes(key, kwargs)
    ensures made.None? ==> r == Fail(BindingTypeError)
    ensures made.Some? ==> made.value.target == cb.func
    ensures made.Some? ==> made.value.args == PositionalArgs(BoundKey(key, kwargs), cb.args, args)
    ensures made.Some? ==> made.value.kwargs == KeywordArgs(cb.kwargs, kwargs - {"key"})
    ensures made.Some? ==> (r.Fail? <==> raises(made.value).Some?)
    ensures made.Some? && r.Fail? ==> r.error == CallbackFailed(cb, raises(made.value).value)
  {
    if CallClashes(key, kwargs) {
      return None, Fail(BindingTypeError);
    }
    var keyArg := BoundKey(key, kwargs);
    var rest := kwargs - {"key"};
    var cbArgs: seq<Value> := [];
    if keyArg.Some? {
      cbArgs := cbArgs + [keyArg.value];
    }
    cbArgs := cbArgs + cb.args;
    cbArgs := cbArgs + args;
    var cbKwargs := cb.kwargs;
    cbKwargs := cbKwargs + rest;
    var invocation := Invocation(cb.func, cbArgs, cbKwargs);
    made := Some(invocation);
    match raises(invocation)
    case None => r := Pass;
    case Some(e) => r := Fail(CallbackFailed(cb, e));
  }

  /** Without a key the positional list is the bound arguments followed by the call-time ones. */
  lemma {:induction false} KeylessArgs(bound: seq<Value>, call: seq<Value>)
    ensures PositionalArgs(None, bound, call) == bound + call
  {
    var r := PositionalArgs(None, bound, call);
    assert r[..|bound|] == bound;
    assert r[|bound|..] == call;
    assert r == r[..|bound|] + r[|bound|..];
  }

  /**
   * A registration with `x` bound, notified with and without a call-time
   * `y`: the target gets the key alone as its positional argument, and the
   * bound `x` joined by the call-time `y` when there is one.
   */
  lemma NotifyKeywordsExample(cb: Callback, key: string, hello: Value, moon: Value)
    requires cb.args == [] && cb.kwargs == map["x" := hello]
    ensures Request(cb, Some(Text(key)), [], map[]) == Invocation(cb.func, [Text(key)], map["x" := hello])
    ensures Request(cb, Some(Text(key)), [], map["y" := moon]) ==
      Invocation(cb.func, [Text(key)], map["x" := hello, "y" := moon])
  {
  }

  /**
   * Called with the key as a plain positional argument and no `key=`, the
   * key lands after the bound arguments, not in front of them.
   */
  lemma KeyPassedPositionally(key: Value, a: Value, b: Value, c: Value, d: Value)
    ensures PositionalArgs(None, [a, b], [key, c, d]) == [a, b, key, c, d]
    ensures PositionalArgs(Some(key), [a, b], [c, d]) == [key, a, b, c, d]
  {
  }

  /**
   * The merge law with concrete values: bound (a, b) and {x: 1, y: 2}, call
   * (c, d) and {y: 3, z: 4} give (key, a, b, c, d) and {x: 1, y: 3, z: 4}.
   */
  lemma MergeExample(key: Value, a: Value, b: Value, c: Value, d: Value, v1: Value, v2: Value, v3: Value, v4: Value)
    ensures PositionalArgs(Some(key), [a, b], [c, d]) == [key, a, b, c, d]
    ensures KeywordArgs(map["x" := v1, "y" := v2], map["y" := v3, "z" := v4]) == map["x" := v1, "y" := v3, "z" := v4]
  {
  }
}
