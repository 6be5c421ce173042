# appregister in Dafny

A model of `appregister/base.py` from django-appregister, a small library of
class registries. A registry subclass declares a `base` class (or a dotted
path to one) and the name of a discovery submodule. Classes are registered
into it, and each must be a subclass of the base. `Registry` keeps a set of
classes. `NamedRegistry` binds names to classes and reads like a mapping.
`autodiscover` imports the discovery submodule of every installed
application so that the submodule's own code registers classes.

Files:

- `outcomes.dfy` (module `Outcomes`): the exceptions that can escape, as an
  `Error` datatype, with `Result` and `Step` (a result plus the state after
  the call). The library's own exceptions are `InvalidOperation` and
  `AlreadyRegistered`. Both derive from `AppRegisterException`
  (`IsAppRegisterException`). The others are Python's `KeyError`,
  `AttributeError` and `ImportError`, plus whatever `get_callable` raises.
- `bases.dfy` (module `Bases`): the declared base (`BaseDecl`) and what the
  registry knows of it (`BaseRef`: `Resolved(class)`, or `Unresolved(path)`
  for `base is None` with `base_str` set). `Resolve` models `get_bases` and
  `Validate` models `is_valid`, both as value functions. Class `BaseResolver`
  is the base-handling half of `BaseRegistry`. It holds the cached `base`
  and has the methods `GetBases` and `IsValid`. Each registry owns one.
- `discovery.dfy` (module `Discovery`): the `autodiscover` loop as a value
  function `Scan`, written once for both registries, with its lemmas.
- `identity.dfy` (module `Identity`): `Registry`, as value functions over
  `State(entries: set, base)` and as class `Registry` with a `set` field.
- `named.dfy` (module `Named`): `NamedRegistry`, as value functions over
  `State(entries: map, base)` and as class `NamedRegistry` with a `map` field.
- `scenarios.dfy` (module `Scenarios`): client methods that drive the
  classes as the package's tests do. Each postcondition states what the test
  observes.

Classes are an abstract type parameter `T`. Python's `issubclass` and
Django's `get_callable` come from a `Host` value. `getCallable` returns `None`
where `get_callable` would raise. `settings.INSTALLED_APPS` is a parameter of
`Autodiscover`. So is what importing `<app>.<submodule>` does, given as an
`ImportOutcome`:

- `Absent`: there is no such submodule, so its `ImportError` is swallowed.
- `Loaded(actions)`: the submodule's top-level code performs these
  registrations in order.
- `Broken(actions)`: the submodule performs these registrations and then
  raises an `ImportError`. `module_has_submodule` then reports the submodule
  as present, so the error is re-raised.

The registry methods that register, unregister or discover have one contract
shape: `ensures Step(r, View()) == <value function>(old(View()), …)`. The
`BaseResolver` methods have the same shape over the cached base alone:
`ensures Step(r, base) == Resolve(host, old(base))`, and likewise with
`Validate`. The lemmas on the value functions carry the properties. The constructors,
`Setup` and `Clear` state the new fields directly.

Points where the model follows the code rather than a looser reading of it:

- `is_valid` can raise. It resolves the base first, and an unresolvable path
  propagates the lookup's exception.
- `NamedRegistry.register` checks the name before anything else, including
  before resolving the base. When the name is bound and no class was given,
  the error message evaluates `None.__name__`. The model returns
  `AttributeError` there, not `AlreadyRegistered`, as the code does.
- A missing key raises `KeyError` (`set.remove`, `del`, `dict[...]`). It is
  not a library exception.
- `NamedRegistry` is backed by a Python 2 `dict`. `Names` therefore promises
  every bound name exactly once, in no particular order.
- Calling the decorator that `register(name)` returns runs the whole
  `register` again on the registry as it is at that moment
  (`CallDecorator`). The name check is therefore repeated. Calling it with
  no class returns yet another decorator.

## Model

| member | source | states |
|---|---|---|
| `Bases.Declare` | appregister/base.py:37-39 | a declared class is kept as the resolved base; anything else is kept as an unresolved path, and nothing is looked up |
| `Bases.Resolve` | appregister/base.py:47-56 | a known base is returned unchanged; an unresolved path succeeds exactly when the lookup finds a class, returns that very class and caches it as the base; a failed lookup raises and keeps the path |
| `Bases.Validate` | appregister/base.py:81-86 | validity changes nothing but the cached base and is always judged against the base now cached; it raises exactly when resolving the base raises; once the base is known it is `issubclass(c, base)` and changes nothing |
| `Bases.ResolveIsMemoized` | appregister/base.py:52-53 | after one successful resolution, resolving again gives the same class and state whatever the lookup would now answer, so the lookup is not run again |
| `Bases.DeferredMatchesConcrete` | appregister/base.py:37-56 | a base declared as a path that names class B resolves and validates exactly like a base declared as B |
| `Bases.BaseResolver.constructor` | appregister/base.py:37-39 | the new resolver holds the declared base as `Declare` records it |
| `Bases.BaseResolver.GetBases` | appregister/base.py:47-56 | the result and the new cached base are those of `Resolve` on the old cached base |
| `Bases.BaseResolver.IsValid` | appregister/base.py:81-86 | the result and the new cached base are those of `Validate` on the old cached base |
| `Discovery.ScanAppend` | appregister/base.py:73-79 | applications are visited in order: scanning `front + back` scans `front`, then `back` only if `front` raised nothing |
| `Discovery.ScanAllAbsent` | appregister/base.py:76-79 | applications without the submodule are skipped: when none has it, the scan succeeds and leaves the state unchanged |
| `Discovery.ScanLoadedOne` | appregister/base.py:73-75 | scanning one application whose submodule loads is exactly running that submodule's registrations |
| `Discovery.ScanSingleProvider` | appregister/base.py:73-79 | when exactly one application has the submodule and it imports without error, the scan's result and state are exactly those of that submodule's registrations |
| `Discovery.ScanStopsAtBroken` | appregister/base.py:76-78 | a submodule that exists but fails to import ends the scan with the first error its own registrations raise, or else `ImportFailed(app)`, whatever applications follow; the state is what those registrations leave, and nothing earlier is rolled back |
| `Discovery.ImportErrorsComeFromBrokenApps` | appregister/base.py:76-79 | an import error that leaves the scan names one of the applications, and that application's submodule exists but is broken; a missing submodule never raises |
| `Discovery.ScanPreserves` | appregister/base.py:73-79 | there is no rollback: any property that every submodule's registrations keep, whether they succeed or raise, holds at the end of the scan, also when it ends with an error |
| `Discovery.Submodule` | appregister/base.py:70-71 | a submodule name that was given is used as it is; otherwise the registry's default is used, so the name is empty only if the default is |
| `Discovery.Scan` | appregister/base.py:73-79 | the loop over the installed applications; when it raises nothing, no listed application has a broken submodule |
| `Identity.RegisterOutcome` | appregister/base.py:109-124 | register succeeds exactly when the base resolves, the class is a subclass of it and it is not registered yet; success adds exactly that class and returns it; every failure leaves the set unchanged; the base is cached as by `is_valid`; an unresolvable base lets the lookup's error through and changes nothing |
| `Identity.RegisterRaisesLibraryErrors` | appregister/base.py:9-24 | once the base is resolved, every exception register raises derives from `AppRegisterException` |
| `Identity.RegisterRejectsInvalid` | appregister/base.py:111-114 | a class that is not a subclass of the base gets `InvalidOperation` with the set unchanged, even if it is already in the set, because validity is checked first |
| `Identity.RegisterRejectsDuplicate` | appregister/base.py:116-118 | a valid class that is already registered gets `AlreadyRegistered` with the set unchanged |
| `Identity.UnregisterOutcome` | appregister/base.py:126-128 | unregister succeeds exactly when the class is registered, leaves the set minus that class, and never touches the base; an absent class raises `KeyError` and changes nothing |
| `Identity.RegisterUnregisterRoundTrip` | appregister/base.py:109-128 | after a successful register, unregister succeeds and restores the original set; registering again then succeeds and gives the same state as the first registration |
| `Identity.DeferredRegistryMatchesConcrete` | appregister/base.py:37-56 | a registry whose base is a path naming B accepts and refuses the same classes as one declared with B, and ends in the same state |
| `Identity.RegisterEachGrows` | appregister/base.py:120 | a submodule's registrations only add classes: every class registered before is still there afterwards, whether or not one of them raised |
| `Identity.RegisterEachAdds` | appregister/base.py:109-124 | when a submodule's registrations all succeed, the set gains exactly the classes they named |
| `Identity.AutodiscoverKeepsEarlier` | appregister/base.py:73-79 | every class registered before autodiscovery is still registered after it, also when it raises |
| `Identity.AutodiscoverSingleProvider` | appregister/base.py:73-79 | when only one installed application has the submodule, it imports without error and its registrations succeed, autodiscovery succeeds and registers exactly that submodule's classes |
| `Identity.AutodiscoverImportErrors` | appregister/base.py:73-79 | when autodiscovery raises an import error, it names an installed application whose submodule exists but is broken; a missing submodule never raises |
| `Identity.RegisterStep` | appregister/base.py:109-124 | on success the class itself is returned and is registered; the only exceptions are `InvalidOperation`, `AlreadyRegistered` and an unresolvable base, which lets the lookup's error through and changes nothing |
| `Identity.UnregisterStep` | appregister/base.py:126-128 | afterwards the class is not registered and the base is untouched; the only exception is `KeyError` |
| `Identity.RegisterEachStep` | appregister/base.py:109-124 | a submodule's registrations raise only the exceptions `register` raises, proved from the contract of each step |
| `Identity.Registry.constructor` | appregister/base.py:29-39 | a new registry is empty (the base is not registered) and holds the declared base as `Declare` records it |
| `Identity.Registry.Setup` | appregister/base.py:94-98 | the store becomes the empty set |
| `Identity.Registry.Clear` | appregister/base.py:100-104 | the store is emptied, so the length is 0, and the base is untouched |
| `Identity.Registry.Elements` | appregister/base.py:41-42 | iteration yields exactly the registered classes, each once, as many as the length |
| `Identity.Registry.IsRegistered` | appregister/base.py:88-92 | a class is registered exactly when it is in `all()` |
| `Identity.Registry.Len` | appregister/base.py:44-45 | the length is the size of `all()` |
| `Identity.Registry.All` | appregister/base.py:58-62 | `all()` is the very set that register and unregister act on |
| `Identity.Registry.RegisterEach` | appregister/base.py:109-124 | running a submodule's registrations changes the registry as `RegisterEachStep` says: each class registered in turn, the first exception ending it |
| `Identity.Registry.Register` | appregister/base.py:109-124 | the result and new state are `RegisterStep` of the old state; on success it returns the class itself, which is then registered, and the length grows by one; on failure the set is unchanged |
| `Identity.Registry.Unregister` | appregister/base.py:126-128 | the result and new state are `UnregisterStep` of the old state; it succeeds exactly when the class was registered, and afterwards the class is not registered |
| `Identity.Registry.Autodiscover` | appregister/base.py:64-79 | the result and new state are those of `Scan` over the installed applications with the given submodule, or the default one when the name is empty; no class registered before is lost |
| `Named.BoundNameIsRefused` | appregister/base.py:136-140 | a bound name is never rebound: register on it raises `AlreadyRegistered`, or `AttributeError` when no class is given, and changes nothing, not even the cached base |
| `Named.RegisterOutcome` | appregister/base.py:136-159 | register with a class succeeds exactly when the name is free and the class is valid; success binds the name to that class, keeps every other binding and returns the class; every failure leaves the bindings unchanged; on a free name the base is cached as by `is_valid`, a non-subclass gets `InvalidOperation`, and an unresolvable base lets the lookup's error through and changes nothing |
| `Named.RegisterRaisesLibraryErrors` | appregister/base.py:9-24 | once the base is resolved, every exception `register(name, class)` raises derives from `AppRegisterException` |
| `Named.LookupAfterRegister` | appregister/base.py:155-165 | after a successful `register(name, c)`, looking up `name` gives `c` |
| `Named.SameClassUnderTwoNames` | appregister/base.py:150-159 | one class can be bound under a second free name, and both names then look up to it |
| `Named.DecoratorDefersRegistration` | appregister/base.py:142-148 | register with a name only, on a free name, returns a decorator and changes nothing; invoking it later re-checks the name (a name taken in between gets `AlreadyRegistered`) and otherwise binds a valid class |
| `Named.UnregisterOutcome` | appregister/base.py:161-165 | unregister and lookup succeed exactly on a bound name; unregister removes that binding alone and never touches the base; on an unbound name both raise `KeyError` and unregister changes nothing |
| `Named.RegisterUnregisterRoundTrip` | appregister/base.py:136-162 | after a successful register, unregister restores the original bindings; registering again then succeeds and gives the same state as the first registration |
| `Named.RegisterEachKeepsBindings` | appregister/base.py:136-159 | a submodule's registrations never remove or rebind a name: every binding made before is still there afterwards, whether or not one of them raised |
| `Named.RegisterEachBinds` | appregister/base.py:136-159 | when a submodule's registrations all succeed, the bindings are the earlier ones plus exactly the registered pairs |
| `Named.AutodiscoverKeepsEarlier` | appregister/base.py:73-79 | every binding made before autodiscovery is still there, unchanged, after it, also when it raises |
| `Named.AutodiscoverImportErrors` | appregister/base.py:73-79 | when autodiscovery raises an import error, it names an installed application whose submodule exists but is broken |
| `Named.AutodiscoverSingleProvider` | appregister/base.py:73-79 | when only one installed application has the submodule, it imports without error and its registrations succeed, autodiscovery succeeds and binds exactly that submodule's pairs |
| `Named.RegisterStep` | appregister/base.py:136-159 | a refusal leaves every binding as it was; the `AttributeError` arises only on a bound name with no class; with no class, a free name gives back a decorator for that name and nothing changes; on a free name an unresolvable base lets the lookup's error through and changes nothing |
| `Named.UnregisterStep` | appregister/base.py:161-162 | afterwards the name is unbound, no other binding is added or changed and the base is untouched; the only exception is `KeyError` |
| `Named.Lookup` | appregister/base.py:164-165 | a class found is the one bound to the name; an unbound name raises `KeyError` |
| `Named.RegisterEachStep` | appregister/base.py:136-159 | a submodule's registrations raise only what `register(name, class)` raises; the `AttributeError` cannot arise since a class is always given |
| `Named.NamedRegistry.constructor` | appregister/base.py:131-134 | a new named registry has no bindings and holds the declared base as `Declare` records it |
| `Named.NamedRegistry.Setup` | appregister/base.py:133-134 | the store becomes the empty dict |
| `Named.NamedRegistry.Clear` | appregister/base.py:100-104 | no name stays bound, so the length is 0, and the base is untouched |
| `Named.NamedRegistry.Names` | appregister/base.py:41-45 | iteration yields exactly the bound names, each once, as many as the length |
| `Named.NamedRegistry.IsRegistered` | appregister/base.py:88-92 | a name is registered exactly when it is bound in `all()` |
| `Named.NamedRegistry.Len` | appregister/base.py:44-45 | the length is the number of bound names |
| `Named.NamedRegistry.All` | appregister/base.py:58-62 | `all()` is the very dict that register and unregister act on |
| `Named.NamedRegistry.GetItem` | appregister/base.py:164-165 | lookup succeeds exactly on a registered name and gives the class bound to it; otherwise it raises `KeyError` |
| `Named.NamedRegistry.RegisterEach` | appregister/base.py:136-159 | running a submodule's registrations changes the registry as `RegisterEachStep` says: each pair registered in turn, the first exception ending it |
| `Named.NamedRegistry.Register` | appregister/base.py:136-159 | the result and new state are `RegisterStep` of the old state; a bound name leaves the bindings unchanged; with a class, success returns it, binds the name to it and adds one to the length; without one, success returns the decorator and changes nothing |
| `Named.NamedRegistry.CallDecorator` | appregister/base.py:146-147 | invoking a decorator that `register` returned is a full register under the name it captured, on the registry's current state |
| `Named.NamedRegistry.Unregister` | appregister/base.py:161-162 | the result and new state are `UnregisterStep` of the old state; it succeeds exactly when the name was bound, and afterwards the name is not bound |
| `Named.NamedRegistry.Autodiscover` | appregister/base.py:64-79 | the result and new state are those of `Scan` with named registrations; no binding made before is lost or changed |
| `Scenarios.QuestionRegistryLifecycle` | tests/test_appregister/models.py:22-29 | after the two question classes are registered in a fresh registry, `all()` is exactly those two |
| `Scenarios.ClearedQuestionRegistry` | appregister/base.py:100-104 | after `clear` on a filled registry, `all()` is empty and a class it held can be registered again |
| `Scenarios.BaseNotRegistered` | tests/test_appregister/tests.py:126-140 | a fresh registry's `all()` is empty, so the base is not registered; after one registration it holds exactly that class |
| `Scenarios.RefusedRegistrations` | tests/test_appregister/tests.py:26-54 | a non-subclass gets `InvalidOperation`; a second registration of the same class gets `AlreadyRegistered`; exactly one class stays registered |
| `Scenarios.UnregisterCycle` | tests/test_appregister/tests.py:56-87 | a class is in `all()` after register, not after unregister, and again after a second register; unregistering a class never registered raises `KeyError` |
| `Scenarios.DeferredBase` | appregister/base.py:37-56 | a base declared as a path starts unresolved, is resolved by the first register, and is then the class the path names |
| `Scenarios.DiscoveredQuestions` | tests/test_appregister/tests.py:89-124 | autodiscovery with the default submodule finds the one application that has it and registers its class; a broken submodule raises that application's import error and the earlier registration stays |
| `Scenarios.NamedRegistrations` | appregister/base.py:136-165 | direct and decorator registration both bind the class; a taken name gets `AlreadyRegistered`, or `AttributeError` when no class is given; lookup gives the bound class |

`Identity.Runner` and `Named.Runner` have no row. Each only hands
`RegisterEachStep` to `Scan` as the way a registry runs a discovered
submodule. The rows for `RegisterEachStep` and `Scan` state the properties.

## Left out

- The Django imports (`import_module`, `module_has_submodule`, `get_callable`,
  `settings.INSTALLED_APPS`) are not modelled. They are parameters: the `Host`
  value, the list of applications and the `ImportOutcome` function.
- Python's import cache is not modelled. Importing a submodule a second time
  normally does not run its code again. A caller models that by giving
  `Loaded([])` for a submodule that was already imported. This cannot
  express an application listed twice in `INSTALLED_APPS` within one scan,
  because the import outcome is fixed for the scan. Python runs such a
  submodule once; the model runs its registrations twice, and the second run
  raises `AlreadyRegistered`.
- A discovered submodule may also fail with an exception other than
  `ImportError` of its own. The model represents that with the same
  `Broken` outcome, which reports `ImportFailed(app)`. It does not model the
  exception's own type.
- A discovered submodule's code may do more than call `register`. Only its
  registrations on this registry are modelled, each as a plain
  `register(class)` or `register(name, class)` call.
- `get_callable`'s own behaviour is not modelled. This includes returning a
  path with no dot unchanged, and its process-wide memo. The lookup is a
  total function that either finds a class or fails.
- `issubclass` raising `TypeError` for a non-class argument is not modelled.
  `callable` is not modelled either: the declared base is either a class or a
  path.
- Falsy classes are not modelled. `NamedRegistry.register` treats only an
  omitted class (`None`) as "no class"; a class object whose truth value is
  false is not represented.
- `Decorator(name)` does not record which registry returned it. In Python,
  `inner` closes over that registry's `self`. The model relies on the caller
  to pass a decorator to `CallDecorator` on the registry that produced it;
  applied to another `NamedRegistry`, it would register there.
- The messages of the exceptions are not modelled. Only the kind of error is
  kept, apart from the `AttributeError` that building one message causes.
- `all()` hands out the live container, so a caller can mutate the registry
  through it. The model's `All` returns a value, so this aliasing is not
  represented.
- The `Mapping` mix-in methods of `NamedRegistry` beyond lookup, length and
  iteration (`keys`, `values`, `items`, `get`, `__contains__`, `__eq__`) are
  not modelled.
- `appregister/__init__.py` re-exports the classes and imports a
  `SortedRegistry` that `base.py` does not define. There is nothing there to
  model.
