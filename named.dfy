/** `NamedRegistry`: a registry that binds names to classes, each a subclass
    of the registry's base. Names are unique; one class may be bound under
    several names. It reads like a mapping from names to classes, so
    `is_registered`, `__len__` and `__iter__` are about names. */
module Named {
  import opened Outcomes
  import opened Bases
  import opened Discovery

  /** Everything `register` reads or changes: the bindings (`_registry`, a
      dict, so no order is promised) and what is known of the base. */
  datatype State<T> = State(entries: map<string, T>, base: BaseRef<T>)

  /** What `register` returns: the class it bound, or, when it was called
      with a name only, the one-argument function `inner` that will register
      a class under that name when it is called. */
  datatype Registration<T> = Registered(cls: T) | Decorator(name: string)

  /** `NamedRegistry.register`. The name is checked before anything else, so
      a bound name is refused even before the base is resolved. Building that
      refusal's message reads `class_.__name__`; when no class was given this
      is `None.__name__`, and an `AttributeError` escapes in place of
      `AlreadyRegistered`. */
  function RegisterStep<T>(host: Host<T>, s: State<T>, name: string, c: Option<T>): (r: Step<Registration<T>, State<T>>)
    // a refusal leaves every binding as it was
    ensures r.result.Err? ==> r.state.entries == s.entries
    // the `AttributeError` arises only on a bound name with no class given
    ensures r.result == Err(AttributeError) ==> name in s.entries && c.None?
    // with no class, a free name gives back a decorator for it and nothing changes
    ensures r.result.Ok? && c.None? ==> r == Step(Ok(Decorator(name)), s)
    // on a free name, a base that cannot be resolved lets the lookup's error through
    ensures name !in s.entries && c.Some? && Validate(host, s.base, c.value).result.Err? ==>
            r == Step(Err(ResolveError), s)
  {
    if name in s.entries then Step(Err(if c.None? then AttributeError else AlreadyRegistered), s)
    else
      match c
      case None => Step(Ok(Decorator(name)), s)
      case Some(cls) =>
        var v := Validate(host, s.base, cls);
        var checked := s.(base := v.state);
        match v.result
        case Err(e) => Step(Err(e), checked)
        case Ok(valid) =>
          if !valid then Step(Err(InvalidOperation), checked)
          else Step(Ok(Registered(cls)), checked.(entries := s.entries[name := cls]))
  }

  /** `NamedRegistry.unregister`: `del`, which raises `KeyError` for an
      unbound name. */
  function UnregisterStep<T>(s: State<T>, name: string): (r: Step<(), State<T>>)
    // afterwards the name is unbound, and no other binding is added or rebound
    ensures name !in r.state.entries
    ensures forall n :: n in r.state.entries ==> n in s.entries && r.state.entries[n] == s.entries[n]
    ensures r.state.base == s.base
    // the only exception is `KeyError`
    ensures r.result.Err? ==> r.result == Err(KeyError)
  {
    if name in s.entries then Step(Ok(()), s.(entries := s.entries - {name}))
    else Step(Err(KeyError), s)
  }

  /** `__getitem__`: the class bound to `name`, or `KeyError`. */
  function Lookup<T>(entries: map<string, T>, name: string): (r: Result<T>)
    // a class found is the one bound to the name
    ensures r.Ok? ==> name in entries && entries[name] == r.value
    // an unbound name raises `KeyError`
    ensures r.Err? ==> name !in entries && r.error == KeyError
  {
    if name in entries then Ok(entries[name]) else Err(KeyError)
  }

  /** A discovered submodule's top-level code: `register(name, class)` for
      each pair in turn, the first exception ending it. */
  function RegisterEachStep<T>(host: Host<T>, s: State<T>, bindings: seq<(string, T)>): (r: Step<(), State<T>>)
    // whatever escapes is an exception `register(name, class)` raises; as a
    // class is always given, the `AttributeError` cannot arise here
    ensures r.result.Err? ==> r.result.error in {InvalidOperation, AlreadyRegistered, ResolveError}
    decreases |bindings|
  {
    if bindings == [] then Step(Ok(()), s)
    else
      var t := RegisterStep(host, s, bindings[0].0, Some(bindings[0].1));
      if t.result.Err? then Step(Err(t.result.error), t.state)
      else RegisterEachStep(host, t.state, bindings[1..])
  }

  /** How this registry carries out a discovered submodule, as the scan needs it. */
  function Runner<T>(host: Host<T>): (State<T>, seq<(string, T)>) -> Step<(), State<T>> {
    (s: State<T>, bindings: seq<(string, T)>) => RegisterEachStep(host, s, bindings)
  }

  /** A bound name is never rebound: `register` on it raises whatever class
      is given (or `AttributeError` when none is) and changes nothing, not
      even the cached base. */
  lemma BoundNameIsRefused<T>(host: Host<T>, s: State<T>, name: string, c: Option<T>)
    requires name in s.entries
    ensures RegisterStep(host, s, name, c) == Step(Err(if c.None? then AttributeError else AlreadyRegistered), s)
  {
  }

  /** What `register` with a class does: it succeeds exactly when the name
      is free, the base resolves and the class is a subclass of it; then the
      name is bound to the class, every other binding is kept and the class
      itself is returned. On every failure the bindings are unchanged. */
  lemma RegisterOutcome<T>(host: Host<T>, s: State<T>, name: string, c: T)
    ensures var r := RegisterStep(host, s, name, Some(c));
            && (r.result.Ok? <==> name !in s.entries && Validate(host, s.base, c).result == Ok(true))
            && (r.result.Ok? ==> r.result.value == Registered(c) && r.state.entries == s.entries[name := c])
            && (r.result.Err? ==> r.state.entries == s.entries)
    // on a free name the base is cached as `is_valid` caches it
    ensures name !in s.entries ==> RegisterStep(host, s, name, Some(c)).state.base == Validate(host, s.base, c).state
    // a class that is not a subclass of the base is refused with `InvalidOperation`
    ensures name !in s.entries && Validate(host, s.base, c).result == Ok(false) ==>
            RegisterStep(host, s, name, Some(c)) == Step(Err(InvalidOperation), s.(base := Validate(host, s.base, c).state))
    // a base that cannot be resolved lets the lookup's error through, and nothing changes
    ensures name !in s.entries && Validate(host, s.base, c).result.Err? ==>
            RegisterStep(host, s, name, Some(c)) == Step(Err(ResolveError), s)
  {
  }

  /** Once the base is resolved, every exception `register(name, class)`
      raises is one of the library's own, so catching `AppRegisterException`
      catches it; only the name-only form can raise `AttributeError`. */
  lemma RegisterRaisesLibraryErrors<T>(host: Host<T>, s: State<T>, name: string, c: T)
    requires s.base.Resolved?
    ensures var r := RegisterStep(host, s, name, Some(c)).result;
            r.Err? ==> IsAppRegisterException(r.error)
  {
  }

  /** After a successful `register(name, c)`, `self[name]` is `c` and the
      name is registered. */
  lemma LookupAfterRegister<T>(host: Host<T>, s: State<T>, name: string, c: T)
    requires RegisterStep(host, s, name, Some(c)).result.Ok?
    ensures Lookup(RegisterStep(host, s, name, Some(c)).state.entries, name) == Ok(c)
  {
  }

  /** Unlike the plain registry, the same class may be bound under a second
      name; both bindings then hold. */
  lemma SameClassUnderTwoNames<T>(host: Host<T>, s: State<T>, first: string, second: string, c: T)
    requires RegisterStep(host, s, first, Some(c)).result.Ok?
    requires second != first && second !in s.entries
    ensures var t := RegisterStep(host, RegisterStep(host, s, first, Some(c)).state, second, Some(c));
            && t.result == Ok(Registered(c))
            && Lookup(t.state.entries, first) == Ok(c)
            && Lookup(t.state.entries, second) == Ok(c)
  {
  }

  /** `register(name)` without a class, on a free name, changes nothing and
      returns a decorator; calling that decorator with a class later is a
      full `register(name, class)` on the state at that time, so the name
      and the class are checked again then. */
  lemma DecoratorDefersRegistration<T>(host: Host<T>, s: State<T>, later: State<T>, name: string, c: T)
    requires name !in s.entries
    ensures RegisterStep(host, s, name, None) == Step(Ok(Decorator(name)), s)
    ensures name in later.entries ==> RegisterStep(host, later, name, Some(c)).result == Err(AlreadyRegistered)
    ensures name !in later.entries && Validate(host, later.base, c).result == Ok(true) ==>
            RegisterStep(host, later, name, Some(c)).result == Ok(Registered(c))
  {
  }

  /** `unregister` and `__getitem__` raise `KeyError` exactly on an unbound
      name; `unregister` removes that one binding and nothing else. */
  lemma UnregisterOutcome<T>(s: State<T>, name: string)
    ensures UnregisterStep(s, name).result.Ok? <==> name in s.entries
    ensures Lookup(s.entries, name).Ok? <==> name in s.entries
    ensures name !in s.entries ==> UnregisterStep(s, name) == Step(Err(KeyError), s)
    ensures name !in s.entries ==> Lookup(s.entries, name) == Err(KeyError)
    ensures UnregisterStep(s, name).state.entries == s.entries - {name}
    ensures UnregisterStep(s, name).state.base == s.base
  {
  }

  /** Register, unregister, register again under the same name: the second
      registration succeeds and ends in the state the first one produced. */
  lemma RegisterUnregisterRoundTrip<T>(host: Host<T>, s: State<T>, name: string, c: T)
    requires RegisterStep(host, s, name, Some(c)).result.Ok?
    ensures var added := RegisterStep(host, s, name, Some(c)).state;
            var removed := UnregisterStep(added, name);
            && removed.result.Ok?
            && removed.state.entries == s.entries
            && RegisterStep(host, removed.state, name, Some(c)) == RegisterStep(host, s, name, Some(c))
  {
    var added := RegisterStep(host, s, name, Some(c)).state;
    assert added.base.Resolved?;
    assert added.entries - {name} == s.entries;
  }

  /** The registrations of a submodule never remove or rebind a name: every
      binding made before is still there afterwards, whether or not one of
      them fails. */
  lemma {:induction false} RegisterEachKeepsBindings<T>(host: Host<T>, s: State<T>, bindings: seq<(string, T)>)
    ensures s.entries.Items <= RegisterEachStep(host, s, bindings).state.entries.Items
    decreases |bindings|
  {
    if bindings != [] {
      var t := RegisterStep(host, s, bindings[0].0, Some(bindings[0].1));
      RegisterOutcome(host, s, bindings[0].0, bindings[0].1);
      assert s.entries.Items <= t.state.entries.Items;
      if t.result.Ok? {
        RegisterEachKeepsBindings(host, t.state, bindings[1..]);
      }
    }
  }

  /** When a submodule's registrations all succeed, the bindings are the
      earlier ones plus exactly the pairs it registered. */
  lemma {:induction false} RegisterEachBinds<T>(host: Host<T>, s: State<T>, bindings: seq<(string, T)>)
    requires RegisterEachStep(host, s, bindings).result.Ok?
    ensures RegisterEachStep(host, s, bindings).state.entries.Items == s.entries.Items + set p | p in bindings
    decreases |bindings|
  {
    if bindings != [] {
      var name, c := bindings[0].0, bindings[0].1;
      var t := RegisterStep(host, s, name, Some(c));
      RegisterOutcome(host, s, name, c);
      RegisterEachBinds(host, t.state, bindings[1..]);
      assert t.state.entries == s.entries[name := c] && name !in s.entries;
      forall p | p in t.state.entries.Items
        ensures p in s.entries.Items + {bindings[0]}
      {
        if p.0 != name {
          assert p.0 in s.entries && s.entries[p.0] == p.1;
        }
      }
      forall p | p in s.entries.Items + {bindings[0]}
        ensures p in t.state.entries.Items
      {
        if p != bindings[0] {
          assert p.0 in s.entries && p.0 != name;
          assert t.state.entries[p.0] == p.1;
        }
      }
      assert (set p | p in bindings) == {bindings[0]} + set p | p in bindings[1..];
    }
  }

  /** Auto-discovery never rolls back: every binding present when it starts
      is still present, unchanged, when it ends, even with an exception. */
  lemma AutodiscoverKeepsEarlier<T>(host: Host<T>, apps: seq<string>, submodule: string,
                                    importSubmodule: (string, string) -> ImportOutcome<(string, T)>, s: State<T>)
    ensures s.entries.Items <= Scan(apps, submodule, importSubmodule, Runner(host), s).state.entries.Items
  {
    var keeps := (t: State<T>) => s.entries.Items <= t.entries.Items;
    forall t: State<T>, bindings: seq<(string, T)> | keeps(t)
      ensures keeps(Runner(host)(t, bindings).state)
    {
      RegisterEachKeepsBindings(host, t, bindings);
    }
    ScanPreserves(apps, submodule, importSubmodule, Runner(host), s, keeps);
  }

  /** Auto-discovery raises an `ImportError` only for an installed
      application whose submodule exists but is broken. */
  lemma AutodiscoverImportErrors<T>(host: Host<T>, apps: seq<string>, submodule: string,
                                    importSubmodule: (string, string) -> ImportOutcome<(string, T)>, s: State<T>)
    ensures var r := Scan(apps, submodule, importSubmodule, Runner(host), s).result;
            RaisesImportFailed(r) ==> r.error.app in apps && importSubmodule(r.error.app, submodule).Broken?
  {
    forall t: State<T>, bindings: seq<(string, T)>
      ensures !RaisesImportFailed(Runner(host)(t, bindings).result)
    {
    }
    ImportErrorsComeFromBrokenApps(apps, submodule, importSubmodule, Runner(host), s);
  }

  /** When only one installed application has the submodule and its
      registrations succeed, auto-discovery binds exactly its pairs. */
  lemma AutodiscoverSingleProvider<T>(host: Host<T>, before: seq<string>, app: string, after: seq<string>,
                                      submodule: string, importSubmodule: (string, string) -> ImportOutcome<(string, T)>,
                                      s: State<T>, bindings: seq<(string, T)>)
    requires forall i :: 0 <= i < |before| ==> importSubmodule(before[i], submodule).Absent?
    requires forall i :: 0 <= i < |after| ==> importSubmodule(after[i], submodule).Absent?
    requires importSubmodule(app, submodule) == Loaded(bindings)
    requires RegisterEachStep(host, s, bindings).result.Ok?
    ensures var r := Scan(before + [app] + after, submodule, importSubmodule, Runner(host), s);
            r.result.Ok? && r.state.entries.Items == s.entries.Items + set p | p in bindings
  {
    ScanSingleProvider(before, app, after, submodule, importSubmodule, Runner(host), s, bindings);
    RegisterEachBinds(host, s, bindings);
  }

  /** A registry of named classes. `bases` holds the base-handling half of
      `BaseRegistry`; `entries` is `_registry`. */
  class NamedRegistry<T(==)> {
    const bases: BaseResolver<T>
    const discoverModule: string
    var entries: map<string, T>

    /** Everything the operations read or change, as a value. */
    function View(): State<T>
      reads this, bases
    {
      State(entries, bases.base)
    }

    /** `__init__`, with `setup` overridden to give an empty dict. */
    constructor (base: BaseDecl<T>, host: Host<T>, discoverModule: string)
      ensures fresh(bases) && bases.host == host && bases.base == Declare(base)
      ensures this.discoverModule == discoverModule
      ensures entries == map[]
    {
      bases := new BaseResolver(base, host);
      this.discoverModule := discoverModule;
      new;
      Setup();
    }

    /** `NamedRegistry.setup`: a new, empty dict. */
    method Setup()
      modifies this`entries
      ensures entries == map[]
    {
      entries := map[];
    }

    /** `clear`: no names bound; the base stays as it is. */
    method Clear()
      modifies this`entries
      ensures entries == map[] && Len() == 0
    {
      Setup();
    }

    /** `is_registered`: whether the NAME is bound. */
    function IsRegistered(name: string): (b: bool)
      reads this, bases
      ensures b <==> name in All()
    {
      name in entries
    }

    /** `__len__`: the number of bound names. */
    function Len(): (n: nat)
      reads this, bases
      ensures n == |All().Keys|
    {
      |entries|
    }

    /** `all`: the bindings, the very dict `register` and `unregister` act on. */
    function All(): (m: map<string, T>)
      reads this, bases
      ensures m == View().entries
    {
      entries
    }

    /** `__getitem__`. */
    function GetItem(name: string): (r: Result<T>)
      reads this, bases
      ensures r.Ok? <==> IsRegistered(name)
      ensures r.Ok? ==> All()[name] == r.value
      ensures r.Err? ==> r.error == KeyError
    {
      Lookup(entries, name)
    }

    /** `__iter__`: every bound name once, in no promised order. */
    method Names() returns (names: seq<string>)
      ensures |names| == Len()
      ensures forall n :: n in names <==> IsRegistered(n)
    {
      names := [];
      var rest := entries.Keys;
      while rest != {}
        invariant rest <= entries.Keys
        invariant forall n :: n in names <==> n in entries && n !in rest
        invariant |names| + |rest| == |entries|
        decreases rest
      {
        var n :| n in rest;
        names := names + [n];
        rest := rest - {n};
      }
    }

    /** `NamedRegistry.register`; `c` is `None` when the class is omitted. */
    method Register(name: string, c: Option<T>) returns (r: Result<Registration<T>>)
      modifies this`entries, bases`base
      ensures Step(r, View()) == RegisterStep(bases.host, old(View()), name, c)
      ensures old(IsRegistered(name)) ==> entries == old(entries)
      ensures r.Ok? && c.Some? ==> r.value == Registered(c.value) && GetItem(name) == Ok(c.value) && Len() == old(Len()) + 1
      ensures r.Ok? && c.None? ==> r.value == Decorator(name) && entries == old(entries)
    {
      if IsRegistered(name) {
        if c.None? {
          return Err(AttributeError);
        }
        return Err(AlreadyRegistered);
      }
      if c.None? {
        return Ok(Decorator(name));
      }
      var valid := bases.IsValid(c.value);
      if valid.Err? {
        return Err(valid.error);
      }
      if !valid.value {
        return Err(InvalidOperation);
      }
      entries := entries[name := c.value];
      return Ok(Registered(c.value));
    }

    /** Calling the decorator `inner` that `register(name)` returned: the
        full `register` under the name it captured, run on the registry as
        it is now. `inner` closes over the registry that made it; the value
        `d` does not record one, so it is to be called on that registry. */
    method CallDecorator(d: Registration<T>, c: Option<T>) returns (r: Result<Registration<T>>)
      requires d.Decorator?
      modifies this`entries, bases`base
      ensures Step(r, View()) == RegisterStep(bases.host, old(View()), d.name, c)
    {
      r := Register(d.name, c);
    }

    /** `NamedRegistry.unregister`. */
    method Unregister(name: string) returns (r: Result<()>)
      modifies this`entries
      ensures Step(r, View()) == UnregisterStep(old(View()), name)
      ensures r.Ok? <==> old(IsRegistered(name))
      ensures !IsRegistered(name)
    {
      if name !in entries {
        return Err(KeyError);
      }
      entries := entries - {name};
      return Ok(());
    }

    /** The top-level code of a discovered submodule: `register(name, class)`
        for each pair, stopping at the first exception. */
    method RegisterEach(bindings: seq<(string, T)>) returns (r: Result<()>)
      modifies this`entries, bases`base
      ensures Step(r, View()) == RegisterEachStep(bases.host, old(View()), bindings)
    {
      var i := 0;
      while i < |bindings|
        invariant 0 <= i <= |bindings|
        invariant RegisterEachStep(bases.host, old(View()), bindings) ==
                  RegisterEachStep(bases.host, View(), bindings[i..])
      {
        assert bindings[i..][0] == bindings[i] && bindings[i..][1..] == bindings[i + 1..];
        var bound := Register(bindings[i].0, Some(bindings[i].1));
        if bound.Err? {
          return Err(bound.error);
        }
        i := i + 1;
      }
      return Ok(());
    }

    /** `autodiscover`, inherited from `BaseRegistry`. */
    method Autodiscover(installedApps: seq<string>, submodule: string,
                        importSubmodule: (string, string) -> ImportOutcome<(string, T)>) returns (r: Result<()>)
      modifies this`entries, bases`base
      ensures Step(r, View()) ==
              Scan(installedApps, Submodule(submodule, discoverModule), importSubmodule, Runner(bases.host), old(View()))
      ensures old(entries).Items <= entries.Items
    {
      var name := Submodule(submodule, discoverModule);
      AutodiscoverKeepsEarlier(bases.host, installedApps, name, importSubmodule, View());
      var i := 0;
      while i < |installedApps|
        invariant 0 <= i <= |installedApps|
        invariant Scan(installedApps, name, importSubmodule, Runner(bases.host), old(View())) ==
                  Scan(installedApps[i..], name, importSubmodule, Runner(bases.host), View())
      {
        var app := installedApps[i];
        assert installedApps[i..][0] == app && installedApps[i..][1..] == installedApps[i + 1..];
        match importSubmodule(app, name) {
          case Absent =>
          case Loaded(bindings) =>
            var loaded := RegisterEach(bindings);
            if loaded.Err? {
              return loaded;
            }
          case Broken(bindings) =>
            var loaded := RegisterEach(bindings);
            if loaded.Err? {
              return loaded;
            }
            return Err(ImportFailed(app));
        }
        i := i + 1;
      }
      return Ok(());
    }
  }
}
