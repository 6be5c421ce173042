/** `Registry`: a registry that holds a set of classes, each a subclass of
    the registry's base, keyed by the class itself. */
module Identity {
  import opened Outcomes
  import opened Bases
  import opened Discovery

  /** Everything `register` reads or changes: the registered classes
      (`_registry`) and what is known of the base. */
  datatype State<T> = State(entries: set<T>, base: BaseRef<T>)

  /** `Registry.register`: validity is checked first, then duplication; only
      then is the class added. The class itself is returned, so the method
      can decorate a class definition. */
  function RegisterStep<T>(host: Host<T>, s: State<T>, c: T): (r: Step<T, State<T>>)
    // the class itself comes back, and it is registered from then on
    ensures r.result.Ok? ==> r.result.value == c && c in r.state.entries
    // the only exceptions are the library's two and a base that cannot be resolved
    ensures r.result.Err? ==> r.result.error in {InvalidOperation, AlreadyRegistered, ResolveError}
    // a base that cannot be resolved lets the lookup's error through, and nothing changes
    ensures Validate(host, s.base, c).result.Err? ==> r == Step(Err(ResolveError), s)
  {
    var v := Validate(host, s.base, c);
    var checked := s.(base := v.state);
    match v.result
    case Err(e) => Step(Err(e), checked)
    case Ok(valid) =>
      if !valid then Step(Err(InvalidOperation), checked)
      else if c in s.entries then Step(Err(AlreadyRegistered), checked)
      else Step(Ok(c), checked.(entries := s.entries + {c}))
  }

  /** `Registry.unregister`: `set.remove`, which raises `KeyError` for a class
      that is not there. */
  function UnregisterStep<T>(s: State<T>, c: T): (r: Step<(), State<T>>)
    // afterwards the class is not registered, whatever happened
    ensures c !in r.state.entries && r.state.base == s.base
    // the only exception is `KeyError`
    ensures r.result.Err? ==> r.result == Err(KeyError)
  {
    if c in s.entries then Step(Ok(()), s.(entries := s.entries - {c}))
    else Step(Err(KeyError), s)
  }

  /** A discovered submodule's top-level code: `register` called on each
      class in turn, the first exception ending it. */
  function RegisterEachStep<T>(host: Host<T>, s: State<T>, classes: seq<T>): (r: Step<(), State<T>>)
    // whatever escapes is an exception `register` raises
    ensures r.result.Err? ==> r.result.error in {InvalidOperation, AlreadyRegistered, ResolveError}
    decreases |classes|
  {
    if classes == [] then Step(Ok(()), s)
    else
      var t := RegisterStep(host, s, classes[0]);
      if t.result.Err? then Step(Err(t.result.error), t.state)
      else RegisterEachStep(host, t.state, classes[1..])
  }

  /** How this registry carries out a discovered submodule, as the scan needs it. */
  function Runner<T>(host: Host<T>): (State<T>, seq<T>) -> Step<(), State<T>> {
    (s: State<T>, classes: seq<T>) => RegisterEachStep(host, s, classes)
  }

  /** What `register` does in every case: it succeeds exactly when the base
      resolves, `c` is a subclass of it and `c` is not registered yet; then
      the set gains `c` and nothing else and `c` itself is returned. On every
      failure the set is unchanged. Whatever happens, the base lookup is
      cached just as `is_valid` would cache it. */
  lemma RegisterOutcome<T>(host: Host<T>, s: State<T>, c: T)
    ensures var r := RegisterStep(host, s, c);
            var v := Validate(host, s.base, c);
            && r.state.base == v.state
            && (r.result.Ok? <==> v.result == Ok(true) && c !in s.entries)
            && (r.result.Ok? ==> r.result.value == c && r.state.entries == s.entries + {c})
            && (r.result.Err? ==> r.state.entries == s.entries)
    ensures Validate(host, s.base, c).result.Err? ==> RegisterStep(host, s, c) == Step(Err(ResolveError), s)
  {
  }

  /** Once the base is resolved, every exception `register` raises is one of
      the library's own, so catching `AppRegisterException` catches it. */
  lemma RegisterRaisesLibraryErrors<T>(host: Host<T>, s: State<T>, c: T)
    requires s.base.Resolved?
    ensures var r := RegisterStep(host, s, c).result;
            r.Err? ==> IsAppRegisterException(r.error)
  {
  }

  /** Validity is checked before duplication: a class that is not a subclass
      of the base is refused with `InvalidOperation`, even if it is somehow
      already in the set. */
  lemma RegisterRejectsInvalid<T>(host: Host<T>, s: State<T>, c: T)
    requires Validate(host, s.base, c).result == Ok(false)
    ensures RegisterStep(host, s, c).result == Err(InvalidOperation)
    ensures RegisterStep(host, s, c).state.entries == s.entries
  {
  }

  /** A valid class that is already registered is refused with
      `AlreadyRegistered` and the set is unchanged. */
  lemma RegisterRejectsDuplicate<T>(host: Host<T>, s: State<T>, c: T)
    requires Validate(host, s.base, c).result == Ok(true)
    requires c in s.entries
    ensures RegisterStep(host, s, c).result == Err(AlreadyRegistered)
    ensures RegisterStep(host, s, c).state.entries == s.entries
  {
  }

  /** `unregister` removes exactly the class when it is there, and raises
      `KeyError` without changing anything when it is not. */
  lemma UnregisterOutcome<T>(s: State<T>, c: T)
    ensures UnregisterStep(s, c).result.Ok? <==> c in s.entries
    ensures c !in s.entries ==> UnregisterStep(s, c) == Step(Err(KeyError), s)
    ensures UnregisterStep(s, c).state.entries == s.entries - {c}
    ensures UnregisterStep(s, c).state.base == s.base
  {
  }

  /** Register, unregister, register again: the second registration succeeds
      and ends in the very state the first one produced, so unregistering
      leaves nothing behind. */
  lemma RegisterUnregisterRoundTrip<T>(host: Host<T>, s: State<T>, c: T)
    requires RegisterStep(host, s, c).result.Ok?
    ensures var added := RegisterStep(host, s, c).state;
            var removed := UnregisterStep(added, c);
            && removed.result.Ok?
            && removed.state.entries == s.entries
            && RegisterStep(host, removed.state, c) == RegisterStep(host, s, c)
  {
    var added := RegisterStep(host, s, c).state;
    assert added.base.Resolved?;
    assert added.entries - {c} == s.entries;
  }

  /** A registry whose base is a path behaves like one given the class the
      path names: the same classes are accepted and refused and the states
      afterwards are equal. */
  lemma DeferredRegistryMatchesConcrete<T>(host: Host<T>, entries: set<T>, path: string, base: T, c: T)
    requires host.getCallable(path) == Some(base)
    ensures RegisterStep(host, State(entries, Unresolved(path)), c) == RegisterStep(host, State(entries, Resolved(base)), c)
  {
    DeferredMatchesConcrete(host, path, base, c);
  }

  /** The registrations of a submodule only add classes: what was registered
      before is still registered afterwards, whether or not one of them fails. */
  lemma {:induction false} RegisterEachGrows<T>(host: Host<T>, s: State<T>, classes: seq<T>)
    ensures s.entries <= RegisterEachStep(host, s, classes).state.entries
    decreases |classes|
  {
    if classes != [] {
      var t := RegisterStep(host, s, classes[0]);
      RegisterOutcome(host, s, classes[0]);
      if t.result.Ok? {
        RegisterEachGrows(host, t.state, classes[1..]);
      }
    }
  }

  /** When a submodule's registrations all succeed, the set has gained
      exactly the classes it registered. */
  lemma {:induction false} RegisterEachAdds<T>(host: Host<T>, s: State<T>, classes: seq<T>)
    requires RegisterEachStep(host, s, classes).result.Ok?
    ensures RegisterEachStep(host, s, classes).state.entries == s.entries + set c | c in classes
    decreases |classes|
  {
    if classes != [] {
      var t := RegisterStep(host, s, classes[0]);
      RegisterOutcome(host, s, classes[0]);
      RegisterEachAdds(host, t.state, classes[1..]);
      assert (set c | c in classes) == {classes[0]} + set c | c in classes[1..];
    }
  }

  /** Auto-discovery never rolls back: every class registered when it
      starts is still registered when it ends, even when it ends with an
      exception. */
  lemma AutodiscoverKeepsEarlier<T>(host: Host<T>, apps: seq<string>, submodule: string,
                                    importSubmodule: (string, string) -> ImportOutcome<T>, s: State<T>)
    ensures s.entries <= Scan(apps, submodule, importSubmodule, Runner(host), s).state.entries
  {
    var keeps := (t: State<T>) => s.entries <= t.entries;
    forall t: State<T>, classes: seq<T> | keeps(t)
      ensures keeps(Runner(host)(t, classes).state)
    {
      RegisterEachGrows(host, t, classes);
    }
    ScanPreserves(apps, submodule, importSubmodule, Runner(host), s, keeps);
  }

  /** Auto-discovery raises an `ImportError` only for an installed
      application whose submodule exists but is broken; a missing submodule
      is never an error. */
  lemma AutodiscoverImportErrors<T>(host: Host<T>, apps: seq<string>, submodule: string,
                                    importSubmodule: (string, string) -> ImportOutcome<T>, s: State<T>)
    ensures var r := Scan(apps, submodule, importSubmodule, Runner(host), s).result;
            RaisesImportFailed(r) ==> r.error.app in apps && importSubmodule(r.error.app, submodule).Broken?
  {
    forall t: State<T>, classes: seq<T>
      ensures !RaisesImportFailed(Runner(host)(t, classes).result)
    {
    }
    ImportErrorsComeFromBrokenApps(apps, submodule, importSubmodule, Runner(host), s);
  }

  /** When only one installed application has the submodule and its
      registrations succeed, auto-discovery registers exactly its classes. */
  lemma AutodiscoverSingleProvider<T>(host: Host<T>, before: seq<string>, app: string, after: seq<string>,
                                      submodule: string, importSubmodule: (string, string) -> ImportOutcome<T>,
                                      s: State<T>, classes: seq<T>)
    requires forall i :: 0 <= i < |before| ==> importSubmodule(before[i], submodule).Absent?
    requires forall i :: 0 <= i < |after| ==> importSubmodule(after[i], submodule).Absent?
    requires importSubmodule(app, submodule) == Loaded(classes)
    requires RegisterEachStep(host, s, classes).result.Ok?
    ensures var r := Scan(before + [app] + after, submodule, importSubmodule, Runner(host), s);
            r.result.Ok? && r.state.entries == s.entries + set c | c in classes
  {
    ScanSingleProvider(before, app, after, submodule, importSubmodule, Runner(host), s, classes);
    RegisterEachAdds(host, s, classes);
  }

  /** A registry of classes. `bases` holds the base-handling half of
      `BaseRegistry` (`get_bases`, `is_valid`); `entries` is `_registry`. */
  class Registry<T(==)> {
    const bases: BaseResolver<T>
    const discoverModule: string
    var entries: set<T>

    /** Everything the operations read or change, as a value. */
    function View(): State<T>
      reads this, bases
    {
      State(entries, bases.base)
    }

    /** `__init__`: an empty set, and the declared base kept as it is or set
        aside as a path. */
    constructor (base: BaseDecl<T>, host: Host<T>, discoverModule: string)
      ensures fresh(bases) && bases.host == host && bases.base == Declare(base)
      ensures this.discoverModule == discoverModule
      ensures entries == {}
    {
      bases := new BaseResolver(base, host);
      this.discoverModule := discoverModule;
      new;
      Setup();
    }

    /** `setup`: a new, empty set. */
    method Setup()
      modifies this`entries
      ensures entries == {}
    {
      entries := {};
    }

    /** `clear`: back to empty; the base stays as it is. */
    method Clear()
      modifies this`entries
      ensures entries == {} && Len() == 0
    {
      Setup();
    }

    /** `is_registered`. */
    function IsRegistered(c: T): (b: bool)
      reads this, bases
      ensures b <==> c in All()
    {
      c in entries
    }

    /** `__len__`. */
    function Len(): (n: nat)
      reads this, bases
      ensures n == |All()|
    {
      |entries|
    }

    /** `all`: the registered classes, the very set `register` and
        `unregister` act on. */
    function All(): (xs: set<T>)
      reads this, bases
      ensures xs == View().entries
    {
      entries
    }

    /** `__iter__`: every registered class once, in no promised order. */
    method Elements() returns (xs: seq<T>)
      ensures |xs| == Len()
      ensures forall x :: x in xs <==> IsRegistered(x)
    {
      xs := [];
      var rest := entries;
      while rest != {}
        invariant rest <= entries
        invariant forall x :: x in xs <==> x in entries && x !in rest
        invariant |xs| + |rest| == |entries|
        decreases rest
      {
        var x :| x in rest;
        xs := xs + [x];
        rest := rest - {x};
      }
    }

    /** `Registry.register`. */
    method Register(c: T) returns (r: Result<T>)
      modifies this`entries, bases`base
      ensures Step(r, View()) == RegisterStep(bases.host, old(View()), c)
      ensures r.Ok? ==> r == Ok(c) && IsRegistered(c) && Len() == old(Len()) + 1
      ensures r.Err? ==> entries == old(entries)
    {
      var valid := bases.IsValid(c);
      if valid.Err? {
        return Err(valid.error);
      }
      if !valid.value {
        return Err(InvalidOperation);
      }
      if IsRegistered(c) {
        return Err(AlreadyRegistered);
      }
      entries := entries + {c};
      return Ok(c);
    }

    /** `Registry.unregister`. */
    method Unregister(c: T) returns (r: Result<()>)
      modifies this`entries
      ensures Step(r, View()) == UnregisterStep(old(View()), c)
      ensures r.Ok? <==> old(IsRegistered(c))
      ensures !IsRegistered(c)
    {
      if c !in entries {
        return Err(KeyError);
      }
      entries := entries - {c};
      return Ok(());
    }

    /** The top-level code of a discovered submodule: `register` for each
        class, stopping at the first exception. */
    method RegisterEach(classes: seq<T>) returns (r: Result<()>)
      modifies this`entries, bases`base
      ensures Step(r, View()) == RegisterEachStep(bases.host, old(View()), classes)
    {
      var i := 0;
      while i < |classes|
        invariant 0 <= i <= |classes|
        invariant RegisterEachStep(bases.host, old(View()), classes) ==
                  RegisterEachStep(bases.host, View(), classes[i..])
      {
        assert classes[i..][0] == classes[i] && classes[i..][1..] == classes[i + 1..];
        var added := Register(classes[i]);
        if added.Err? {
          return Err(added.error);
        }
        i := i + 1;
      }
      return Ok(());
    }

    /** `autodiscover`: import the submodule (`submodule`, or the registry's
        default when it is empty) of each installed application in order. */
    method Autodiscover(installedApps: seq<string>, submodule: string,
                        importSubmodule: (string, string) -> ImportOutcome<T>) returns (r: Result<()>)
      modifies this`entries, bases`base
      ensures Step(r, View()) ==
              Scan(installedApps, Submodule(submodule, discoverModule), importSubmodule, Runner(bases.host), old(View()))
      ensures old(entries) <= entries
    {
      var name := Submodule(submodule, discoverModule);
      AutodiscoverKeepsEarlier(bases.host, installedApps, name, importSubmodule, View());
      var i := 0;
      while i < |installedApps|
        invariant 0 <= i <= |installedApps|
        invariant Scan(installedApps, name, importSubmodule, Runner(bases.host), old(View())) ==
                  Scan(installedApps[i..], name, importSubmodule, Runner(bases.host), View())
      {
        var app := installedApps[i];
        assert installedApps[i..][0] == app && installedApps[i..][1..] == installedApps[i + 1..];
        match importSubmodule(app, name) {
          case Absent =>
          case Loaded(classes) =>
            var loaded := RegisterEach(classes);
            if loaded.Err? {
              return loaded;
            }
          case Broken(classes) =>
            var loaded := RegisterEach(classes);
            if loaded.Err? {
              return loaded;
            }
            return Err(ImportFailed(app));
        }
        i := i + 1;
      }
      return Ok(());
    }
  }
}
