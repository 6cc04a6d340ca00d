# pynm notification manager in Dafny

pynm is an in-process publish/subscribe registry. A `NotificationManager`
files callbacks under a notification key and a priority. Each callback gets a
registration id drawn from a counter held by the class, so every manager
draws from the same sequence. `notify(key)` calls the callbacks of a key from
the highest priority to the lowest. A
callback that raises is logged, and the dispatch goes on. `forget` removes
registrations by key, priority, id or target identity, and then prunes the
maps that were left empty. Each callback is held in a `Callback` wrapper. The
wrapper checks that its target is callable and stores bound arguments. When it
is called, it merges the notification key and the call-time arguments with
the bound ones, and it turns any failure of the target into `CallbackFailed`.

The project has four files:

- `wrappers.dfy` holds `Option`, `Result` and `Outcome` (pass or fail with an
  error).
- `callback.dfy` (module `Callbacks`) models pynm/callback.py. `Callback` is a
  class whose fields are set once. The argument merge is a pair of functions.
  The call is a method that returns the invocation it made and its outcome.
- `registry.dfy` (module `Registry`) describes the nested registry
  `key -> priority -> id -> callback` as a value. It holds:
  - the invariants the operations keep: no empty table, no empty id map, every
    id issued, and every id filed in one place;
  - pure reference definitions of what `register` and each `forget` step do,
    with their lemmas;
  - the visiting order of `notify` (its "schedule") and its warning log.
- `manager.dfy` (module `Manager`) models pynm/manager.py imperatively:
  - the id generator is a class with a counter;
  - `NotificationManager` is a class whose `queues` map and `keyOrder`
    sequence are updated by methods;
  - the methods follow the source's loops and helper methods
    (`_forget_key`, `_forget_priority`, `_forget_callback`, `_forget_cb_id`);
  - each method is proved against the functions in `Registry`.

The model represents the source as follows:

- **The shared counter.** Dafny has no class-level mutable state. The counter
  is an `IdGenerator` object that the constructor takes as a parameter, and
  sharing means handing every manager the same one (`SharedCounter` shows two
  managers continuing one sequence).
- **Objects.** A Python object is an `Obj`: an identity (`id()`), whether
  `callable()` accepts it, and its truthiness.
- **Calling a target.** What a target does when called is outside the
  library. It is an oracle parameter `raises` that maps each invocation to the
  exception it raises, if any.
- **Logging.** `logging.warning` becomes a returned sequence of `Warning`
  records: key, priority, id, callback and cause.
- **The queues dict.** Python's `_queues` dict is two fields: its contents
  (`queues`) and its keys in insertion order (`keyOrder`). `forget()` without
  a key walks the keys in that order, and a KeyError stops the walk partway.
- **Priorities.** `float(priority)` becomes `Coerce` over a `PriorityArg`: a
  number, a string together with the number it parses to (if any), or an
  object that `float()` rejects with TypeError.

Where the code disagrees with its own docstrings or tests, the model follows
the code:

- The class docstring (pynm/manager.py:36-37) says the key is the sole
  positional argument of a callback. In the code, positional arguments bound
  at registration and passed to `notify` follow it (pynm/callback.py:46-50).
- The `register` docstring (pynm/manager.py:85-87) says a refused callback
  raises AssertionError. The code raises RegistrationError, and it checks
  `callable()` itself, so `CallbackFuncError` is never reached from
  `register`.
- `register` turns only the ValueError of `float()` into RegistrationError. A
  TypeError from `float()` (for example for `None`) passes through unchanged
  (`PriorityTypeError`).
- The `forget` docstring (pynm/manager.py:185-186) names only AssertionError.
  With a priority that a visited key lacks, the code raises KeyError, after
  the keys visited before it have been processed.
- `_forget_priority` tests `cb_id` and `callback` by truthiness
  (pynm/manager.py:215-217). A `cb_id` of 0, or a falsy callback object,
  therefore clears the whole scope instead of selecting anything.
- The class docstring (pynm/manager.py:34) leaves the order among equal
  priorities undefined. The code iterates a dict whose ids are inserted in
  increasing order. `_forget_callback` (pynm/manager.py:227-231) rebuilds
  that dict and re-inserts the surviving ids, but its comprehension keeps
  their iteration order, so the order stays ascending and the model visits
  them in ascending id order.
- `Callback.__call__` takes `key` as a keyword-only argument, which is how
  `notify` passes it. Three tests (test/test_callback.py:49-80) call a
  Callback with the key as a plain positional argument and expect it in
  front of the bound arguments. The code puts it after them
  (`KeyPassedPositionally`), so those tests disagree with the code.

## Model

| member | source | states |
|---|---|---|
| Callbacks.NewCallback | pynm/callback.py:6-25 | succeeds exactly when the target is callable and no keyword names `func` or `self`; such a keyword raises TypeError while the arguments are bound, before the callable check; otherwise the error is CallbackFuncError carrying the target; on success a fresh Callback holds the target, the bound positional and the bound keyword arguments exactly as given |
| Callbacks.Callback.constructor | pynm/callback.py:23-25 | the three bindings are stored as given; they are `const`, so no later call can change them |
| Callbacks.PositionalArgs | pynm/callback.py:46-50 | defines the positional list: the key when one is given, then the bound, then the call-time arguments; its properties are stated by PositionalLayout and KeylessArgs |
| Callbacks.KeywordArgs | pynm/callback.py:51-52 | defines the keyword map: the bound keywords overridden by the call-time ones; its properties are stated by KeywordMerge |
| Callbacks.Request | pynm/callback.py:46-53 | defines the invocation a call makes of the stored target with the merged arguments; Call's contract ties the call to it |
| Callbacks.PositionalLayout | pynm/callback.py:46-50 | the merged positional list is the key (only when one is given) followed by all bound arguments and then all call-time arguments, with length the sum of the parts |
| Callbacks.KeylessArgs | pynm/callback.py:47-50 | with no key the positional list is exactly bound followed by call-time arguments |
| Callbacks.KeywordMerge | pynm/callback.py:51-52 | the merged keywords are the union of bound and call-time names; a call-time value wins on conflict; a bound-only name keeps its bound value |
| Callbacks.MergeExample | pynm/callback.py:46-52 | bound (a, b) and {x: 1, y: 2} with call (c, d) and {y: 3, z: 4} give (key, a, b, c, d) and {x: 1, y: 3, z: 4} |
| Callbacks.NotifyKeywordsExample | pynm/callback.py:46-52 | with `x` bound, a call with the key and no keywords passes (key) and {x}, and one with `y` passes (key) and {x, y}, as test/test_manager.py:157-176 expects |
| Callbacks.KeyPassedPositionally | pynm/callback.py:46-50 | a key passed as a plain positional argument lands after the bound arguments, while `key=` puts it in front of them |
| Callbacks.Call | pynm/callback.py:27-55 | a keyword naming `self`, or `key` when `key=` is passed too, raises a bare TypeError while the arguments are bound, outside the `try`, and invokes nothing; a `key` keyword without `key=` becomes the key; otherwise invokes the stored target with the merged positional and keyword arguments; fails exactly when the target raises, and the failure is CallbackFailed carrying the callback itself and the original exception; no `modifies`, so the bindings stay unchanged |
| Registry.Insert | pynm/manager.py:113-126 | defines the registry after storing one registration, creating the inner maps on demand; its properties are stated by InsertEntries and InsertKeepsInvariants |
| Registry.InsertEntries | pynm/manager.py:113-126 | storing a registration adds exactly the entry at key, priority, id holding the callback, adds the key, and leaves every other entry and its callback unchanged |
| Registry.InsertKeepsInvariants | pynm/manager.py:113-126 | storing under an id above every stored id keeps every table and id map non-empty, files the new id where it is stored, and keeps every stored id issued |
| Registry.LocatedUnique | pynm/manager.py:125-126 | ids filed under one place each are stored in at most one place in the registry |
| Registry.EntriesDetermine | pynm/manager.py:51 | two registries without empty maps that hold the same entries with the same callbacks are equal |
| Registry.RemovalKeepsIds | pynm/manager.py:199-238 | removing entries keeps every remaining id filed where it is stored and issued |
| Registry.WithoutIdDeletesOne | pynm/manager.py:233-238 | `_forget_cb_id` deletes at most one registration: afterwards the id is absent, the map is one smaller exactly when the id was there, every other registration keeps its callback, and an absent id changes nothing |
| Registry.WithoutTargetPurges | pynm/manager.py:225-231 | after `_forget_callback` no registration of the target is left, every other registration keeps its id and callback, forgetting the same target again changes nothing, and an unregistered target changes nothing |
| Registry.Missing | pynm/manager.py:220-222 | defines when `_forget_priority` raises KeyError at a key: the key is registered and lacks the given priority, so reading `self._queues[key][priority]` fails (at line 220 or 222, or inside the comprehension at line 229); ForgetPriorities, ForgetKey, ForgetKeys, Forget and WalkedMissing state their KeyError cases through it |
| Registry.Scope | pynm/manager.py:206 | defines the priorities `_forget_key` visits: the given priority alone, or every priority of the key's table; ForgetPriorities and ThinnedEntries state what happens in that scope |
| Registry.Selected | pynm/manager.py:215-220 | defines which registrations `_forget_priority` removes: the truthy id alone, else those of the truthy callback, else all |
| Registry.Kept | pynm/manager.py:215-220 | the id map left at one priority holds exactly the registrations the selection does not pick: a truthy id picks that id, else a truthy callback picks by target identity, else everything is picked (so an id of 0 clears the scope) |
| Registry.PrunedAt | pynm/manager.py:222-223 | defines the registry after a priority's id map is replaced, dropping the priority when the map is empty; ForgetPriority's contract ties the method to it |
| Registry.Thinned | pynm/manager.py:206-208 | defines a key's table after `_forget_priority` at each of a set of priorities; its properties are stated by ThinnedEntries and ThinnedStep |
| Registry.ThinnedStep | pynm/manager.py:207-208 | one more `_forget_priority` at a priority not yet visited thins the table at that priority too |
| Registry.ThinnedEntries | pynm/manager.py:206-223 | after `_forget_priority` at each priority in scope, exactly the picked registrations at those priorities are gone, the others keep their callbacks, and no id map is empty |
| Registry.KeyForgotten | pynm/manager.py:199-211 | `_forget_key` never adds a key and leaves every other key's table exactly as it was |
| Registry.KeyForgottenKeeps | pynm/manager.py:199-223 | `_forget_key` keeps every table and id map non-empty (priority and key pruning) |
| Registry.KeyForgottenForgets | pynm/manager.py:199-223 | `_forget_key` that does not raise removes exactly the picked registrations of that key at the priorities in scope, and changes no callback |
| Registry.Walked | pynm/manager.py:195-197 | defines the registry after `_forget_key` on each of the first n keys in turn; its properties are stated by WalkedFrame, WalkedKeeps, WalkedMissing and WalkedForgets |
| Registry.WalkedFrame | pynm/manager.py:195-197 | after `_forget_key` on the first n keys, no key was added and every key not among them is untouched |
| Registry.WalkedKeeps | pynm/manager.py:195-197 | after `_forget_key` on the first n keys, no table or id map is empty |
| Registry.WalkedMissing | pynm/manager.py:195-197 | walking distinct keys, the next key raises KeyError exactly when it would have at the start |
| Registry.WalkedForgets | pynm/manager.py:191-238 | `forget` over the first n distinct keys, none raising, removes exactly the picked registrations in those keys at the priorities in scope, and nothing else |
| Registry.ForgottenDetermines | pynm/manager.py:191-238 | the outcome of a forget is unique: two pruned registries that forget the same selection from the same start are equal |
| Registry.ForgottenEverywhere | pynm/manager.py:188-197 | forgetting in every key at every priority with no truthy id and no truthy callback empties the registry, as `reset` does |
| Registry.AscendingUnique | pynm/manager.py:158-159 | two sequences in visiting order with the same slots are equal |
| Registry.ScheduleUnique | pynm/manager.py:158-159 | a table has exactly one visiting order |
| Registry.ScheduleOrder | pynm/manager.py:158-161 | a schedule never visits a lower priority before a higher one and visits every occupied slot exactly once |
| Registry.ScheduleExample | pynm/manager.py:158-161 | callbacks at priorities 100, -100 and 50 are visited as 100, 50, -100 |
| Registry.WarningsOf | pynm/manager.py:159-170 | defines the log of a run of visits: one warning per visit that raised, in visiting order; its properties are stated by WarningsMatchFailures |
| Registry.WarningsMatchFailures | pynm/manager.py:159-170 | the log has exactly one warning per failing visit, each naming the key, priority, id, callback and exception of a visit that raised, and every failing visit is logged |
| Registry.Surviving | pynm/manager.py:210-211 | the dict's key order after deletions holds exactly the remaining keys of the old order and is no longer |
| Registry.SurvivingDistinct | pynm/manager.py:210-211 | deleting keys keeps the key order free of repetitions |
| Registry.SurvivingTwice | pynm/manager.py:196-211 | deleting keys in two rounds leaves the same key order as deleting them at once |
| Manager.IdGenerator.constructor | pynm/manager.py:8-9 | the counter starts at 0 with nothing issued |
| Manager.IdGenerator.Next | pynm/manager.py:10-12 | yields last + 1 (so 1 first), larger than every id this generator issued before, and records it as issued |
| Manager.SharedCounter | pynm/manager.py:47-51 | two managers built on the one counter draw from the same sequence: the first registration, in either, gets id 1 and the next, in the other manager, gets id 2 |
| Manager.Coerce | pynm/manager.py:108-111 | defines the value `float()` gives, or what `register` raises for it: RegistrationError for an unparsable string, the TypeError passed through otherwise; Register's contract states the outcome |
| Manager.Admissible | pynm/manager.py:98-106 | defines when the callback passes `register`'s checks and, for a bare callable, the binding of `Callback(callback, *args, **kwargs)`; Register's contract states each refusal |
| Manager.KeysToVisit | pynm/manager.py:195 | the keys `forget` walks repeat none when the key order repeats none, are the given key or registered keys, and include every registered key when no key is given |
| Manager.SortedDescending | pynm/manager.py:158 | the priorities of a table, each once, strictly decreasing |
| Manager.SortedAscending | pynm/manager.py:159 | the ids of an id map, each once, strictly increasing |
| Manager.VisitOne | pynm/manager.py:160-170 | calls the callback with the key and call-time arguments; logs one warning with key, priority, id, callback and exception exactly when it raises, and does not raise itself |
| Manager.VisitsInIdOrder | pynm/manager.py:159-161 | visits made in ascending id order are in visiting order, cover every id, and call the callback stored under each id |
| Manager.VisitPriority | pynm/manager.py:159-170 | every registration at one priority is called once, in ascending id order, with the stored callback; the log is exactly the warnings of the visits that raised |
| Manager.AppendVisits | pynm/manager.py:158-161 | appending the visits of a lower priority keeps the visiting order and each visit's facts |
| Manager.WarningsOfConcat | pynm/manager.py:159-170 | the log of two runs of visits is the log of the first followed by that of the second |
| Manager.NotificationManager.constructor | pynm/manager.py:49-51 | a new manager keeps its name and the shared counter, and starts with no registrations |
| Manager.NotificationManager.Keys | pynm/manager.py:65-68 | exactly the keys with at least one registration |
| Manager.NotificationManager.Register | pynm/manager.py:70-128 | raises TypeError for a keyword naming one of `register`'s parameters (`self`, `key`, `callback`, `priority`) or, for a bare callable, `func` of the Callback built at line 106; refuses a Callback with extra args or kwargs, a non-callable object and an unparsable priority with RegistrationError, and lets `float()`'s TypeError through, changing nothing in every error case; otherwise returns the next id and stores exactly one new entry under the key and coerced priority, holding the given Callback or a fresh one with the given bindings, and appends a new key to the key order |
| Manager.NotificationManager.Store | pynm/manager.py:113-128 | draws the next id and files the callback under key, priority and id, creating the inner maps on demand, while keeping the registry's invariant |
| Manager.NotificationManager.Notify | pynm/manager.py:131-170 | a keyword naming `self` or `key` raises TypeError before anything is called or logged; an unknown key calls nothing and logs nothing; otherwise the calls follow the key's unique schedule (every registration once, higher priority first), each calls the stored callback with the key and call-time arguments, and the log is exactly the warnings of the calls that raised |
| Manager.NotificationManager.Reset | pynm/manager.py:172-174 | leaves no registrations and no keys, and keeps the invariant |
| Manager.NotificationManager.ForgetCbId | pynm/manager.py:233-238 | deletes the id at key and priority; a missing key, priority or id changes nothing |
| Manager.NotificationManager.ForgetCallback | pynm/manager.py:225-231 | keeps only the registrations whose target is not the given object; a missing key or priority raises KeyError and changes nothing |
| Manager.NotificationManager.ForgetPriority | pynm/manager.py:213-223 | removes the picked registrations at one priority and drops it if left empty; KeyError, changing nothing, when the key lacks the priority |
| Manager.NotificationManager.ForgetPriorities | pynm/manager.py:206-208 | `_forget_priority` at the given priority or at every priority of the key, giving the thinned table; KeyError, changing nothing, when the key lacks the given priority |
| Manager.NotificationManager.DropKey | pynm/manager.py:210-211 | deletes an empty key from the registry and from the key order |
| Manager.NotificationManager.ForgetKey | pynm/manager.py:199-211 | `_forget_key`: an unregistered key is ignored; otherwise the table is thinned and the key dropped if left empty; raises KeyError exactly when the key lacks the given priority |
| Manager.NotificationManager.ForgetKeys | pynm/manager.py:195-197 | `_forget_key` on each key in turn, stopping at the first KeyError; the registry is the walk over the keys processed, and only the stopping key lacks the priority |
| Manager.NotificationManager.Forget | pynm/manager.py:191-197 | AssertionError exactly when both an id and a callback are given, changing nothing; KeyError exactly when a visited key lacks the priority, after processing the keys before the first such key; otherwise exactly the picked registrations in scope are gone and nothing else changed; with no criteria the registry ends empty; empty maps are pruned and the invariant is kept |

## Left out

- The shared singleton (`shared`) is not modelled. It is lazily created class-level state. The `name` property is the `const` field `name`.
- Manager.NotificationManager.constructor: the class-level counter is a constructor parameter. Sharing holds only when every manager is given the same `IdGenerator`; a manager given its own generator starts again at id 1.
- pynm/exceptions.py is not part of this model. The errors are datatypes (`CallbackError`, `RegisterError`, `ForgetError`), and `NotificationKeyError` is never raised.
- The text of the `logging.warning` message is not modelled. A warning is a record of key, priority, id, callback and exception.
- Real Python calls are not modelled. Binding the target's own signature, and the TypeError a target raises for unexpected arguments, are folded into the oracle `raises`. The binding of pynm's own signatures (`register`, `notify`, `Callback.__init__`, `Callback.__call__`) is modelled for keywords that name a named parameter.
- Manager.NotificationManager.Register: the model always passes `priority=`, so a `priority` keyword inside `**kwargs` is a clash. A call that gives the priority only through `**kwargs` is the model's `priority` argument.
- Callbacks.Call: the oracle `raises` is a pure function of the invocation. A target with side effects, or one that raises on some calls and not on identical others, cannot be expressed, so identical invocations within one `notify` agree.
- Callbacks.Call: argument values carry no `None`, so a `key` keyword inside `**kwargs` always becomes the key. In the source a `key` keyword whose value is `None` leaves the key out.
- Callbacks.Call: only exceptions derived from `Exception` are wrapped in the source. A `BaseException` (KeyboardInterrupt, SystemExit) escapes, and the model does not distinguish the two.
- Manager.NotificationManager.Notify: re-entrancy is not modelled. A callback that registers or forgets while `notify` iterates would mutate the dict under iteration. In the model a callback cannot reach the manager.
- Manager.Coerce: `float()` itself is abstracted. A string argument carries the number it parses to, if any.
- Priorities are exact reals, not IEEE floats: NaN, infinities and signed zero are not modelled. Equal numbers such as `2` and `2.0` are the same priority, as in the source.
- Keys are strings. Other hashable keys, including `None` passed explicitly to `register`, are not modelled.
- Forget selectors are limited. `cb_id` is an optional integer, and `callback` is an optional object with an identity and a truthiness. Other types passed as `cb_id` (such as `True`) are not modelled.
- Manager.NotificationManager.Forget: `priority` is an optional real. The source does not pass it through `float()` (pynm/manager.py:206), so a non-numeric priority such as the string `"5"` raises KeyError at any registered key. That case cannot be expressed.
- setup.py and pynm/__init__.py (packaging and re-exports) are not modelled.
