/**
 * The notification manager of pynm/manager.py: a registry of callbacks
 * keyed by notification key and priority, with registration ids drawn from
 * an id counter; managers share it when they are given the same
 * IdGenerator.
 *
 * The Python `_queues` dict is the pair `queues` (its contents) and
 * `keyOrder` (its keys in insertion order, which `forget` follows when it
 * walks every key).
 */
module Manager {
  import opened Wrappers
  import opened Callbacks
  import opened Registry

  /** The class-level id counter (`id_generator`): yields 1, 2, 3, ... */
  class IdGenerator {
    /** The last id issued, 0 before the first. */
    var last: nat
    /** Every id issued so far, to any manager drawing from this counter. */
    ghost var issued: set<nat>

    /** Every issued id is between 1 and the last one. */
    ghost predicate Valid()
      reads this
    {
      forall j :: j in issued ==> 1 <= j <= last
    }

    constructor ()
      ensures Valid() && last == 0 && issued == {}
    {
      last := 0;
      issued := {};
    }

    /** `next(_ids)`: an id larger than every id this counter issued before. */
    method Next() returns (id: nat)
      requires Valid()
      modifies this
      ensures Valid()
      ensures id == old(last) + 1 && last == id
      ensures forall j :: j in old(issued) ==> j < id
      ensures issued == old(issued) + {id}
    {
      last := last + 1;
      id := last;
      issued := issued + {id};
    }
  }

  /** What `register` receives as its callback: a prepared Callback, or any other object. */
  datatype Target = Prebuilt(callback: Callback) | Bare(obj: Obj)

  /**
   * The `priority` argument as `float()` sees it: a number, a string (with
   * the value `float()` parses from it, if any), or an object `float()`
   * rejects with TypeError.
   */
  datatype PriorityArg = Number(value: real) | Literal(parse: Option<real>) | NotNumeric

  /** Why `register` raised RegistrationError. */
  datatype Refusal = CallbackWithArgs | CallbackWithKwargs | NotCallable | PriorityNotFloat

  /**
   * What `register` raises: RegistrationError, the TypeError of `float()`
   * passed through, or the TypeError of a keyword that names a parameter
   * already bound (of `register` itself, or `func` of `Callback`).
   */
  datatype RegisterError = RegistrationError(reason: Refusal) | PriorityTypeError | RegisterBindingError

  /** What `notify` raises: the TypeError of a keyword that names one of its own parameters. */
  datatype NotifyError = NotifyBindingError

  /** The named parameters of `register`, which `**kwargs` cannot also carry. */
  const RegisterParams: set<string> := {"self", "key", "callback", "priority"}

  /** The named parameters of `notify`, which `**kwargs` cannot also carry. */
  const NotifyParams: set<string> := {"self", "key"}

  /** What `forget` raises: its AssertionError, or KeyError for a priority a key lacks. */
  datatype ForgetError = AssertionError | KeyError

  /**
   * `float(priority)` inside `register`'s try block: only the ValueError of
   * an unparsable string becomes RegistrationError.
   */
  function Coerce(priority: PriorityArg): Result<real, RegisterError>
  {
    match priority
    case Number(v) => Ok(v)
    case Literal(parse) => if parse.Some? then Ok(parse.value) else Err(RegistrationError(PriorityNotFloat))
    case NotNumeric => Err(PriorityTypeError)
  }

  /**
   * The callback and its bindings pass `register`'s checks and, for a bare
   * callable, the binding of `Callback(callback, *args, **kwargs)`.
   */
  predicate Admissible(callback: Target, args: seq<Value>, kwargs: map<string, Value>)
  {
    if callback.Prebuilt? then args == [] && kwargs == map[]
    else callback.obj.callable && !Rebinds(kwargs, InitParams)
  }

  /** The keys `forget` walks: the given one, or every key in insertion order. */
  function KeysToVisit(key: Option<string>, order: seq<string>): (r: seq<string>)
    ensures Distinct(order) ==> Distinct(r)
    ensures forall k :: k in r ==> key == Some(k) || k in order
    ensures key.None? ==> forall k :: k in order ==> k in r
  {
    if key.Some? then [key.value] else order
  }

  /** Python's `sorted(priorities, reverse=True)`: the priorities from highest to lowest. */
  method SortedDescending(s: set<real>) returns (r: seq<real>)
    ensures forall i, j :: 0 <= i < j < |r| ==> r[i] > r[j]
    ensures forall x :: x in r <==> x in s
  {
    r := [];
    var rest := s;
    while rest != {}
      invariant forall x :: x in s <==> x in r || x in rest
      invariant forall i, j :: 0 <= i < j < |r| ==> r[i] > r[j]
      invariant forall i, y :: 0 <= i < |r| && y in rest ==> r[i] > y
      decreases rest
    {
      ghost var largest := Largest(rest);
      var top :| top in rest && forall y :: y in rest ==> y <= top;
      r := r + [top];
      rest := rest - {top};
    }
  }

  /**
   * The ids of one priority in the order the id dict yields them: ids are
   * inserted in increasing order, and `_forget_callback` rebuilds the dict
   * by a comprehension that keeps that order, so it is ascending order.
   */
  method SortedAscending(s: set<nat>) returns (r: seq<nat>)
    ensures forall i, j :: 0 <= i < j < |r| ==> r[i] < r[j]
    ensures forall x :: x in r <==> x in s
  {
    r := [];
    var rest := s;
    while rest != {}
      invariant forall x :: x in s <==> x in r || x in rest
      invariant forall i, j :: 0 <= i < j < |r| ==> r[i] < r[j]
      invariant forall i, y :: 0 <= i < |r| && y in rest ==> r[i] < y
      decreases rest
    {
      ghost var smallest := Smallest(rest);
      var bottom :| bottom in rest && forall y :: y in rest ==> bottom <= y;
      r := r + [bottom];
      rest := rest - {bottom};
    }
  }

  /** The slots of `visits` extended by one visit. */
  lemma SlotsOfAppend(visits: seq<Visit>, v: Visit)
    ensures SlotsOf(visits + [v]) == SlotsOf(visits) + [v.slot]
  {
    assert SlotsOf(visits + [v]) == SlotsOf(visits) + [v.slot];
  }

  /** The log of `visits` extended by one visit. */
  lemma WarningsOfAppend(key: string, visits: seq<Visit>, v: Visit)
    ensures WarningsOf(key, visits + [v]) == WarningsOf(key, visits) +
      (if v.raised.Some? then [Warning(key, v.slot.priority, v.slot.id, v.callback, v.raised.value)] else [])
  {
    assert (visits + [v])[..|visits|] == visits;
  }

  /**
   * One step of `notify`: calls `cb` with the key and the call-time
   * arguments; when it raises, the failure is logged and not passed on.
   * The call-time keywords passed `notify`'s own binding, so they name
   * neither `self` nor `key`.
   */
  method VisitOne(key: string, p: real, id: nat, cb: Callback, args: seq<Value>, kwargs: map<string, Value>,
                  raises: Invocation -> Option<Exc>)
    returns (v: Visit, logged: seq<Warning>)
    requires !Rebinds(kwargs, NotifyParams)
    ensures v.slot == Slot(p, id) && Dispatched(cb, key, args, kwargs, raises, v)
    ensures logged == if v.raised.Some? then [Warning(key, p, id, cb, v.raised.value)] else []
  {
    assert "self" in NotifyParams && "key" in NotifyParams;
    assert "self" !in kwargs.Keys * NotifyParams && "key" !in kwargs.Keys * NotifyParams;
    assert kwargs - {"key"} == kwargs;
    var made, outcome := Call(cb, Some(Text(key)), args, kwargs, raises);
    logged := [];
    if outcome.Fail? {
      logged := [Warning(key, p, id, outcome.error.callback, outcome.error.reason)];
    }
    var raised := if outcome.Fail? then Some(outcome.error.reason) else None;
    v := Visit(Slot(p, id), cb, made.value, raised);
  }

  /**
   * Visits made in the order of the ascending ids of `m`, one per id, are
   * in schedule order, cover every id, and each calls the callback stored
   * under its id.
   */
  lemma VisitsInIdOrder(key: string, p: real, m: IdMap, args: seq<Value>, kwargs: map<string, Value>,
                        raises: Invocation -> Option<Exc>, order: seq<nat>, vs: seq<Visit>)
    requires forall i, j :: 0 <= i < j < |order| ==> order[i] < order[j]
    requires forall x :: x in order <==> x in m
    requires |vs| == |order|
    requires forall j :: 0 <= j < |vs| ==>
      vs[j].slot == Slot(p, order[j]) && Dispatched(m[order[j]], key, args, kwargs, raises, vs[j])
    ensures Ascending(SlotsOf(vs))
    ensures forall j :: 0 <= j < |vs| ==>
      vs[j].slot.priority == p && vs[j].slot.id in m && Dispatched(m[vs[j].slot.id], key, args, kwargs, raises, vs[j])
    ensures forall i :: i in m ==> Slot(p, i) in SlotsOf(vs)
  {
    forall i | i in m ensures Slot(p, i) in SlotsOf(vs) {
      var j :| 0 <= j < |order| && order[j] == i;
      assert SlotsOf(vs)[j] == Slot(p, i);
    }
  }

  /**
   * The inner loop of `notify` for one priority `p` with id map `m`: calls
   * each callback in ascending id order, logging the ones that raise.
   */
  method VisitPriority(key: string, p: real, m: IdMap, args: seq<Value>, kwargs: map<string, Value>,
                       raises: Invocation -> Option<Exc>)
    returns (vs: seq<Visit>, ws: seq<Warning>)
    requires !Rebinds(kwargs, NotifyParams)
    ensures Ascending(SlotsOf(vs))
    ensures forall j :: 0 <= j < |vs| ==>
      vs[j].slot.priority == p && vs[j].slot.id in m && Dispatched(m[vs[j].slot.id], key, args, kwargs, raises, vs[j])
    ensures forall i :: i in m ==> Slot(p, i) in SlotsOf(vs)
    ensures ws == WarningsOf(key, vs)
  {
    vs, ws := [], [];
    var order := SortedAscending(m.Keys);
    var b := 0;
    while b < |order|
      invariant 0 <= b <= |order| && |vs| == b
      invariant forall j :: 0 <= j < b ==>
        vs[j].slot == Slot(p, order[j]) && Dispatched(m[order[j]], key, args, kwargs, raises, vs[j])
      invariant ws == WarningsOf(key, vs)
    {
      var v, logged := VisitOne(key, p, order[b], m[order[b]], args, kwargs, raises);
      WarningsOfAppend(key, vs, v);
      vs := vs + [v];
      ws := ws + logged;
      b := b + 1;
    }
    VisitsInIdOrder(key, p, m, args, kwargs, raises, order, vs);
  }

  /** Appending the visits of a lower priority `p` keeps the visit order and the facts about each visit. */
  lemma AppendVisits(queue: Table, key: string, args: seq<Value>, kwargs: map<string, Value>,
                     raises: Invocation -> Option<Exc>, done: set<real>, p: real, visits: seq<Visit>, vs: seq<Visit>)
    requires p in queue
    requires forall x :: x in done ==> x > p
    requires Ascending(SlotsOf(visits)) && Ascending(SlotsOf(vs))
    requires forall j :: 0 <= j < |visits| ==>
      visits[j].slot.priority in done && VisitIn(queue, key, args, kwargs, raises, visits[j])
    requires forall j :: 0 <= j < |vs| ==>
      vs[j].slot.priority == p && vs[j].slot.id in queue[p] && Dispatched(queue[p][vs[j].slot.id], key, args, kwargs, raises, vs[j])
    ensures SlotsOf(visits + vs) == SlotsOf(visits) + SlotsOf(vs)
    ensures Ascending(SlotsOf(visits + vs))
    ensures forall j :: 0 <= j < |visits + vs| ==>
      (visits + vs)[j].slot.priority in done + {p} && VisitIn(queue, key, args, kwargs, raises, (visits + vs)[j])
  {
    var all := visits + vs;
    assert SlotsOf(all) == SlotsOf(visits) + SlotsOf(vs);
    forall i, j | 0 <= i < j < |all| ensures Before(SlotsOf(all)[i], SlotsOf(all)[j]) {
      if j < |visits| {
        assert SlotsOf(all)[i] == SlotsOf(visits)[i] && SlotsOf(all)[j] == SlotsOf(visits)[j];
      } else if i >= |visits| {
        assert SlotsOf(all)[i] == SlotsOf(vs)[i - |visits|] && SlotsOf(all)[j] == SlotsOf(vs)[j - |visits|];
      } else {
        assert all[i] == visits[i] && all[j] == vs[j - |visits|];
      }
    }
    forall j | 0 <= j < |all|
      ensures all[j].slot.priority in done + {p} && VisitIn(queue, key, args, kwargs, raises, all[j])
    {
      if j >= |visits| {
        assert all[j] == vs[j - |visits|];
      }
    }
  }

  /** The log of two runs of visits is the log of the first followed by that of the second. */
  lemma {:induction false} WarningsOfConcat(key: string, a: seq<Visit>, b: seq<Visit>)
    ensures WarningsOf(key, a + b) == WarningsOf(key, a) + WarningsOf(key, b)
  {
    if b != [] {
      var init := b[..|b| - 1];
      assert (a + b)[..|a + b| - 1] == a + init;
      assert (a + b)[|a + b| - 1] == b[|b| - 1];
      WarningsOfConcat(key, a, init);
    } else {
      assert a + b == a;
    }
  }

  /**
   * Two managers built on the one counter draw from the same sequence: the
   * first registration in either gets id 1, and the next one, in the other
   * manager, gets id 2.
   */
  method SharedCounter(key: string, f: Obj) returns (first: nat, second: nat)
    requires f.callable
    ensures first == 1 && second == 2
  {
    var ids := new IdGenerator();
    var a := new NotificationManager(Some("a"), ids);
    var b := new NotificationManager(Some("b"), ids);
    var r1 := a.Register(key, Bare(f), [], map[], Number(0.0));
    var r2 := b.Register(key, Bare(f), [], map[], Number(0.0));
    first, second := r1.value, r2.value;
  }

  class NotificationManager {
    /** The display name; `None` unless one is given. */
    const name: Option<string>
    /** The counter this manager draws from; shared only when managers are given the same IdGenerator. */
    const ids: IdGenerator
    /** key -> priority -> id -> callback. */
    var queues: Queues
    /** The keys of `queues` in the order they were first registered. */
    var keyOrder: seq<string>
    /** Where each id was stored when it was registered. */
    ghost var places: map<nat, Place>

    /**
     * The registry's invariant: no empty table and no empty id map, every
     * stored id issued and filed where it is stored, and the key order
     * listing each key once.
     */
    ghost predicate Valid()
      reads this, ids
    {
      ids.Valid() && Located(queues, places) && IdsBelow(queues, ids.last) && NonEmpty(queues) &&
      Distinct(keyOrder) && (forall k :: k in keyOrder <==> k in queues)
    }

    constructor (name: Option<string>, ids: IdGenerator)
      requires ids.Valid()
      ensures Valid()
      ensures this.name == name && this.ids == ids
      ensures queues == map[] && keyOrder == []
    {
      this.name := name;
      this.ids := ids;
      queues := map[];
      keyOrder := [];
      places := map[];
    }

    /** `keys`: exactly the keys that have at least one registration. */
    function Keys(): (r: set<string>)
      reads this, ids
      requires Valid()
      ensures forall k :: k in r <==> exists p, i :: HasEntry(queues, k, p, i)
    {
      var r := queues.Keys;
      assert forall k :: k in r ==> exists p, i :: HasEntry(queues, k, p, i) by {
        forall k | k in r ensures exists p, i :: HasEntry(queues, k, p, i) {
          var p := PickKey(queues[k]);
          var i := PickKey(queues[k][p]);
          assert HasEntry(queues, k, p, i);
        }
      }
      r
    }

    /**
     * `register(key, callback, *args, priority=priority, **kwargs)`.
     * A keyword that names one of `register`'s parameters, or `func` of
     * the Callback built for a bare callable, raises TypeError. A prepared
     * Callback with extra bindings, a non-callable object and a priority
     * `float()` rejects are refused. Every error changes nothing;
     * otherwise one callback is stored under a fresh id and the id returned.
     */
    method Register(key: string, callback: Target, args: seq<Value>, kwargs: map<string, Value>,
                    priority: PriorityArg)
      returns (r: Result<nat, RegisterError>)
      requires Valid()
      modifies this, ids
      ensures Valid()
      ensures Rebinds(kwargs, RegisterParams) ==> r == Err(RegisterBindingError)
      ensures !Rebinds(kwargs, RegisterParams) ==>
        (callback.Prebuilt? && args != [] ==> r == Err(RegistrationError(CallbackWithArgs))) &&
        (callback.Prebuilt? && args == [] && kwargs != map[] ==> r == Err(RegistrationError(CallbackWithKwargs))) &&
        (callback.Bare? && !callback.obj.callable ==> r == Err(RegistrationError(NotCallable))) &&
        (callback.Bare? && callback.obj.callable && Rebinds(kwargs, InitParams) ==> r == Err(RegisterBindingError))
      ensures !Rebinds(kwargs, RegisterParams) && Admissible(callback, args, kwargs) ==>
        (r.Err? <==> Coerce(priority).Err?) && (r.Err? ==> r.error == Coerce(priority).error)
      ensures r.Err? ==> queues == old(queues) && keyOrder == old(keyOrder) && ids.last == old(ids.last)
      ensures r.Ok? ==> r.value == old(ids.last) + 1 && ids.last == r.value
      ensures r.Ok? ==> Coerce(priority).Ok? && HasEntry(queues, key, Coerce(priority).value, r.value)
      ensures r.Ok? ==> var p := Coerce(priority).value;
        queues == Insert(old(queues), key, p, r.value, queues[key][p][r.value])
      ensures r.Ok? && callback.Prebuilt? ==> queues[key][Coerce(priority).value][r.value] == callback.callback
      ensures r.Ok? && callback.Bare? ==> var cb := queues[key][Coerce(priority).value][r.value];
        fresh(cb) && cb.func == callback.obj && cb.args == args && cb.kwargs == kwargs
      ensures r.Ok? ==> keyOrder == old(keyOrder) + (if key in old(queues) then [] else [key])
    {
      if Rebinds(kwargs, RegisterParams) {
        return Err(RegisterBindingError);
      }
      var cb: Callback;
      match callback {
        case Prebuilt(c) =>
          if args != [] {
            return Err(RegistrationError(CallbackWithArgs));
          }
          if kwargs != map[] {
            return Err(RegistrationError(CallbackWithKwargs));
          }
          cb := c;
        case Bare(obj) =>
          if !obj.callable {
            return Err(RegistrationError(NotCallable));
          }
          var made := NewCallback(obj, args, kwargs);
          if made.Err? {
            return Err(RegisterBindingError);
          }
          cb := made.value;
      }

      var coerced := Coerce(priority);
      if coerced.Err? {
        return Err(coerced.error);
      }
      InsertEntries(queues, key, coerced.value, ids.last + 1, cb);
      var cbId := Store(key, coerced.value, cb);
      return Ok(cbId);
    }

    /**
     * The storing half of `register`: draws a fresh id and files `cb` under
     * `key`, `p` and that id, creating the inner maps on demand.
     */
    method Store(key: string, p: real, cb: Callback) returns (cbId: nat)
      requires Valid()
      modifies this, ids
      ensures Valid()
      ensures cbId == old(ids.last) + 1 && ids.last == cbId
      ensures queues == Insert(old(queues), key, p, cbId, cb)
      ensures keyOrder == old(keyOrder) + (if key in old(queues) then [] else [key])
    {
      var queue: Table := if key in queues then queues[key] else map[];
      var priQueue: IdMap := if p in queue then queue[p] else map[];
      cbId := ids.Next();
      InsertKeepsInvariants(queues, places, key, p, cbId, cb);
      if key !in queues {
        keyOrder := keyOrder + [key];
      }
      queues := queues[key := queue[p := priQueue[cbId := cb]]];
      places := places[cbId := Place(key, p)];
    }

    /**
     * `notify(key, *args, **kwargs)`: visits every registration of `key`
     * once, highest priority first, calling each callback with the key and
     * the call-time arguments; a callback that raises is logged and the
     * visits go on. An unknown key visits nothing and logs nothing. A
     * keyword naming `self` or `key` raises TypeError before anything runs.
     */
    method Notify(key: string, args: seq<Value>, kwargs: map<string, Value>, raises: Invocation -> Option<Exc>)
      returns (r: Outcome<NotifyError>, visits: seq<Visit>, log: seq<Warning>)
      ensures r.Fail? <==> Rebinds(kwargs, NotifyParams)
      ensures r.Fail? ==> r.error == NotifyBindingError && visits == [] && log == []
      ensures key !in queues ==> visits == [] && log == []
      ensures r.Pass? && key in queues ==> IsSchedule(queues[key], SlotsOf(visits))
      ensures forall j :: 0 <= j < |visits| ==> key in queues && VisitIn(queues[key], key, args, kwargs, raises, visits[j])
      ensures log == WarningsOf(key, visits)
    {
      r, visits, log := Pass, [], [];
      if Rebinds(kwargs, NotifyParams) {
        return Fail(NotifyBindingError), [], [];
      }
      if key !in queues {
        return;
      }
      var queue := queues[key];
      var priorities := SortedDescending(queue.Keys);
      ghost var done: set<real> := {};
      var a := 0;
      while a < |priorities|
        invariant 0 <= a <= |priorities|
        invariant forall x :: x in queue <==> x in done || x in priorities[a..]
        invariant forall x, i :: x in done && a <= i < |priorities| ==> x > priorities[i]
        invariant Ascending(SlotsOf(visits))
        invariant forall j :: 0 <= j < |visits| ==>
          visits[j].slot.priority in done && VisitIn(queue, key, args, kwargs, raises, visits[j])
        invariant forall x :: InTable(queue, x) && x.priority in done ==> x in SlotsOf(visits)
        invariant log == WarningsOf(key, visits)
      {
        var p := priorities[a];
        var vs, ws := VisitPriority(key, p, queue[p], args, kwargs, raises);
          AppendVisits(queue, key, args, kwargs, raises, done, p, visits, vs);
        WarningsOfConcat(key, visits, vs);
        visits := visits + vs;
        log := log + ws;
        done := done + {p};
        a := a + 1;
      }
      forall x | InTable(queue, x) ensures x in SlotsOf(visits) {
        assert x.priority in done;
      }
    }

    /** `reset()`: forgets every registration. */
    method Reset()
      requires Valid()
      modifies this
      ensures Valid()
      ensures queues == map[] && keyOrder == [] && Keys() == {}
    {
      queues := map[];
      keyOrder := [];
    }

    /** `_forget_cb_id`: deletes registration `id` at `k`, `p`; a missing key, priority or id is ignored. */
    method ForgetCbId(k: string, p: real, id: int)
      modifies this
      ensures keyOrder == old(keyOrder) && places == old(places)
      ensures k in old(queues) && p in old(queues)[k] ==>
        queues == old(queues)[k := old(queues)[k][p := WithoutId(old(queues)[k][p], id)]]
      ensures !(k in old(queues) && p in old(queues)[k]) ==> queues == old(queues)
    {
      if k in queues && p in queues[k] && id in queues[k][p] {
        queues := queues[k := queues[k][p := WithoutId(queues[k][p], id)]];
      } else if k in queues && p in queues[k] {
        assert WithoutId(queues[k][p], id) == queues[k][p];
        assert queues[k][p := queues[k][p]] == queues[k];
      }
    }

    /**
     * `_forget_callback`: keeps, at `k`, `p`, the registrations whose target
     * is not `target`; reading a missing key or priority raises KeyError.
     */
    method ForgetCallback(k: string, p: real, target: Obj) returns (ok: bool)
      modifies this
      ensures keyOrder == old(keyOrder) && places == old(places)
      ensures ok <==> k in old(queues) && p in old(queues)[k]
      ensures !ok ==> queues == old(queues)
      ensures ok ==> queues == old(queues)[k := old(queues)[k][p := WithoutTarget(old(queues)[k][p], target)]]
    {
      if k !in queues || p !in queues[k] {
        return false;
      }
      queues := queues[k := queues[k][p := WithoutTarget(queues[k][p], target)]];
      return true;
    }

    /**
     * `_forget_priority`: removes the selected registrations of `k` at `p`,
     * then drops `p` if its id map became empty. Raises KeyError, changing
     * nothing, when `k` lacks `p`.
     */
    method ForgetPriority(k: string, p: real, cbId: Option<int>, callback: Option<Obj>) returns (ok: bool)
      requires k in queues
      modifies this
      ensures keyOrder == old(keyOrder) && places == old(places)
      ensures ok <==> p in old(queues)[k]
      ensures !ok ==> queues == old(queues)
      ensures ok ==> queues == PrunedAt(old(queues), k, p, Kept(old(queues)[k][p], cbId, callback))
    {
      ghost var q0 := queues;
      if cbId.Some? && cbId.value != 0 {
        ForgetCbId(k, p, cbId.value);
      } else if callback.Some? && callback.value.truthy {
        ok := ForgetCallback(k, p, callback.value);
        if !ok {
          return false;
        }
      } else if p in queues[k] {
        queues := queues[k := queues[k][p := map[]]];
      }
      if p !in queues[k] {
        return false;
      }
      ghost var m := Kept(q0[k][p], cbId, callback);
      assert queues == q0[k := q0[k][p := m]];
      var table := queues[k];
      if table[p] == map[] {
        table := table - {p};
      }
      assert table == if m == map[] then q0[k][p := m] - {p} else q0[k][p := m];
      queues := queues[k := table];
      assert queues == q0[k := table];
      return true;
    }

    /**
     * The priority loop of `_forget_key`: `_forget_priority` at the given
     * priority, or at every priority of `k` in turn. KeyError from the
     * given priority leaves everything as it was.
     */
    method ForgetPriorities(k: string, priority: Option<real>, cbId: Option<int>, callback: Option<Obj>) returns (ok: bool)
      requires k in queues
      modifies this
      ensures keyOrder == old(keyOrder) && places == old(places)
      ensures ok <==> !Missing(old(queues), k, priority)
      ensures !ok ==> queues == old(queues)
      ensures ok ==> queues == old(queues)[k := Thinned(old(queues)[k], Scope(old(queues)[k], priority), cbId, callback)]
    {
      ghost var t := queues[k];
      ThinnedNowhere(t, cbId, callback);
      if priority.Some? {
        if priority.value in t {
          ThinnedStep(queues, k, t, {}, priority.value, cbId, callback);
          assert {} + {priority.value} == {priority.value};
        }
        ok := ForgetPriority(k, priority.value, cbId, callback);
        return;
      }
      var todo := queues[k].Keys;
      assert t.Keys - todo == {};
      assert queues == old(queues)[k := Thinned(t, t.Keys - todo, cbId, callback)];
      while todo != {}
        invariant todo <= t.Keys && k in queues
        invariant queues == old(queues)[k := Thinned(t, t.Keys - todo, cbId, callback)]
        invariant keyOrder == old(keyOrder) && places == old(places)
        decreases todo
      {
        ghost var some := Pick(todo);
        var p :| p in todo;
        ThinnedStep(queues, k, t, t.Keys - todo, p, cbId, callback);
        var found := ForgetPriority(k, p, cbId, callback);
        assert t.Keys - todo + {p} == t.Keys - (todo - {p});
        todo := todo - {p};
      }
      assert t.Keys - todo == Scope(t, priority);
      return true;
    }

    /** The end of `_forget_key`: deletes `k`, whose table is empty, and its place in the key order. */
    method DropKey(k: string)
      modifies this
      ensures places == old(places)
      ensures queues == old(queues) - {k}
      ensures keyOrder == Surviving(old(keyOrder), queues.Keys)
    {
      queues := queues - {k};
      keyOrder := Surviving(keyOrder, queues.Keys);
    }

    /**
     * `_forget_key`: forgets at `k` as `ForgetPriorities` does, then drops
     * `k` if its table became empty. An unregistered `k` is ignored.
     */
    method ForgetKey(k: string, priority: Option<real>, cbId: Option<int>, callback: Option<Obj>) returns (ok: bool)
      requires forall x :: x in keyOrder ==> x in queues
      modifies this
      ensures places == old(places)
      ensures ok <==> !Missing(old(queues), k, priority)
      ensures queues == KeyForgotten(old(queues), k, priority, cbId, callback)
      ensures keyOrder == Surviving(old(keyOrder), queues.Keys)
    {
      SurvivingAll(keyOrder, queues.Keys);
      if k !in queues {
        return true;
      }
      ghost var t := Thinned(queues[k], Scope(queues[k], priority), cbId, callback);
      assert !Missing(queues, k, priority) ==>
        KeyForgotten(queues, k, priority, cbId, callback) == if t == map[] then queues - {k} else queues[k := t];
      ok := ForgetPriorities(k, priority, cbId, callback);
      if ok && queues[k] == map[] {
        assert t == map[];
        DropKey(k);
      } else {
        assert queues.Keys == old(queues).Keys;
      }
    }

    /**
     * The loop of `forget`: `_forget_key` on each of `keys` in turn,
     * stopping at the first that raises KeyError. Returns how many keys
     * were processed without raising, which is `|keys|` when none raised.
     */
    method ForgetKeys(keys: seq<string>, priority: Option<real>, cbId: Option<int>, callback: Option<Obj>)
      returns (n: nat)
      requires Distinct(keys) && forall x :: x in keyOrder ==> x in queues
      modifies this
      ensures places == old(places)
      ensures n <= |keys|
      ensures queues == Walked(old(queues), keys, n, priority, cbId, callback)
      ensures forall m :: 0 <= m < n ==> !Missing(old(queues), keys[m], priority)
      ensures n < |keys| ==> Missing(old(queues), keys[n], priority)
      ensures keyOrder == Surviving(old(keyOrder), queues.Keys)
    {
      n := 0;
      SurvivingAll(keyOrder, queues.Keys);
      while n < |keys|
        invariant n <= |keys|
        invariant queues == Walked(old(queues), keys, n, priority, cbId, callback)
        invariant forall m :: 0 <= m < n ==> !Missing(old(queues), keys[m], priority)
        invariant keyOrder == Surviving(old(keyOrder), queues.Keys)
        invariant places == old(places)
      {
        ghost var before := queues;
        WalkedMissing(old(queues), keys, n, priority, cbId, callback);
        var ok := ForgetKey(keys[n], priority, cbId, callback);
        SurvivingTwice(old(keyOrder), before.Keys, queues.Keys);
        if !ok {
          return;
        }
        n := n + 1;
      }
    }

    /**
     * `forget(key, priority, cb_id, callback)`: within the given key (or
     * every key) and the given priority (or every priority), removes the
     * registration with id `cbId`, or those whose target is `callback`, or
     * all of them, and prunes empty maps. Giving both `cbId` and
     * `callback` raises AssertionError. A visited key lacking the given
     * priority raises KeyError; the keys visited before it, in insertion
     * order, have already been processed.
     */
    method Forget(key: Option<string>, priority: Option<real>, cbId: Option<int>, callback: Option<Obj>)
      returns (r: Outcome<ForgetError>)
      requires Valid()
      modifies this
      ensures Valid()
      ensures r == Fail(AssertionError) <==> cbId.Some? && callback.Some?
      ensures r == Fail(AssertionError) ==> queues == old(queues) && keyOrder == old(keyOrder)
      ensures r == Fail(KeyError) <==>
        (!(cbId.Some? && callback.Some?) && exists k :: k in KeysToVisit(key, old(keyOrder)) && Missing(old(queues), k, priority))
      ensures r.Pass? ==>
        ForgottenIn(old(queues), queues, Visited(KeysToVisit(key, old(keyOrder)), |KeysToVisit(key, old(keyOrder))|),
                    priority, cbId, callback)
      ensures r == Fail(KeyError) ==> var keys := KeysToVisit(key, old(keyOrder));
        exists n :: 0 <= n < |keys| && Missing(old(queues), keys[n], priority) &&
          (forall m :: 0 <= m < n ==> !Missing(old(queues), keys[m], priority)) &&
          ForgottenIn(old(queues), queues, Visited(keys, n), priority, cbId, callback)
      ensures keyOrder == Surviving(old(keyOrder), queues.Keys)
      ensures (r.Pass? && key.None? && priority.None? &&
               !(cbId.Some? && cbId.value != 0) && !(callback.Some? && callback.value.truthy)) ==>
        queues == map[]
    {
      if cbId.Some? && callback.Some? {
        SurvivingAll(keyOrder, queues.Keys);
        return Fail(AssertionError);
      }
      var keys := KeysToVisit(key, keyOrder);
      ghost var q0 := queues;
      var n := ForgetKeys(keys, priority, cbId, callback);
      WalkedKeeps(q0, keys, n, priority, cbId, callback);
      WalkedFrame(q0, keys, n, priority, cbId, callback);
      WalkedForgets(q0, keys, n, priority, cbId, callback);
      RemovalKeepsIds(q0, queues, places, ids.last);
      SurvivingDistinct(old(keyOrder), queues.Keys);
      if n < |keys| {
        return Fail(KeyError);
      }
      if key.None? && priority.None? && !(cbId.Some? && cbId.value != 0) && !(callback.Some? && callback.value.truthy) {
        assert keys[..|keys|] == keys;
        ForgottenEverywhere(q0, queues, Visited(keys, |keys|), cbId, callback);
      }
      return Pass;
    }
  }
}
