/** Client code that drives the registries the way the package's own test
    suite does, with what each scenario must observe stated as its
    postcondition. Classes are left abstract: each scenario says only which
    classes are subclasses of the base. */
module Scenarios {
  import opened Outcomes
  import opened Bases
  import opened Discovery
  import opened Identity
  import opened Named

  /** The package's question registry: the two question classes registered
      in a fresh registry are exactly its contents. */
  method QuestionRegistryLifecycle<T(==)>(host: Host<T>, base: T, boolean: T, multiple: T)
    returns (filled: set<T>)
    requires host.isSubclass(boolean, base) && host.isSubclass(multiple, base)
    ensures filled == {boolean, multiple}
  {
    var registry := new Registry(ClassObject(base), host, "questions");
    var first := registry.Register(boolean);
    var second := registry.Register(multiple);
    filled := registry.All();
  }

  /** `clear` on a filled registry leaves `all()` empty, and a class can be
      registered again afterwards. */
  method ClearedQuestionRegistry<T(==)>(host: Host<T>, base: T, boolean: T, multiple: T)
    returns (cleared: set<T>, again: Result<T>)
    requires host.isSubclass(boolean, base) && host.isSubclass(multiple, base)
    ensures cleared == {} && again == Ok(boolean)
  {
    var registry := new Registry(ClassObject(base), host, "questions");
    var first := registry.Register(boolean);
    var second := registry.Register(multiple);
    registry.Clear();
    cleared := registry.All();
    again := registry.Register(boolean);
  }

  /** The base is never registered by itself: an empty registry's `all()` is
      the empty set, and after one registration it holds that class alone. */
  method BaseNotRegistered<T(==)>(host: Host<T>, base: T, mine: T)
    returns (before: set<T>, after: set<T>)
    requires host.isSubclass(mine, base)
    ensures before == {} && after == {mine}
  {
    var registry := new Registry(ClassObject(base), host, "questions");
    before := registry.All();
    var added := registry.Register(mine);
    after := registry.All();
  }

  /** A class that is not a subclass of the base is refused, and a class
      registered once is refused the second time. */
  method RefusedRegistrations<T(==)>(host: Host<T>, base: T, stranger: T, mine: T)
    returns (invalid: Result<T>, duplicate: Result<T>, count: nat)
    requires !host.isSubclass(stranger, base) && host.isSubclass(mine, base)
    ensures invalid == Err(InvalidOperation) && duplicate == Err(AlreadyRegistered) && count == 1
  {
    var registry := new Registry(ClassObject(base), host, "questions");
    invalid := registry.Register(stranger);
    var first := registry.Register(mine);
    duplicate := registry.Register(mine);
    count := registry.Len();
  }

  /** Register, unregister, register again; unregistering a class that was
      never registered raises `KeyError`. */
  method UnregisterCycle<T(==)>(host: Host<T>, base: T, mine: T, other: T)
    returns (afterRegister: bool, afterUnregister: bool, afterAgain: bool, never: Result<()>)
    requires host.isSubclass(mine, base) && other != mine
    ensures afterRegister && !afterUnregister && afterAgain && never == Err(KeyError)
  {
    var registry := new Registry(ClassObject(base), host, "questions");
    var added := registry.Register(mine);
    afterRegister := mine in registry.All();
    var removed := registry.Unregister(mine);
    afterUnregister := mine in registry.All();
    added := registry.Register(mine);
    afterAgain := mine in registry.All();
    never := registry.Unregister(other);
  }

  /** A base given as a dotted path is resolved on the first registration
      and from then on is the class the path names. */
  method DeferredBase<T(==)>(host: Host<T>, path: string, base: T, mine: T)
    returns (before: BaseRef<T>, added: Result<T>, after: BaseRef<T>)
    requires host.getCallable(path) == Some(base) && host.isSubclass(mine, base)
    ensures before == Unresolved(path) && added == Ok(mine) && after == Resolved(base)
  {
    var registry := new Registry(DottedPath(path), host, "questions");
    before := registry.bases.base;
    added := registry.Register(mine);
    after := registry.bases.base;
  }

  /** Auto-discovery over two applications where only the second has the
      submodule registers that submodule's class; a submodule that exists but
      fails to import makes auto-discovery raise, keeping what came before. */
  method DiscoveredQuestions<T(==)>(host: Host<T>, base: T, found: T,
                                    importSubmodule: (string, string) -> ImportOutcome<T>)
    returns (discovered: Result<()>, has: bool, broken: Result<()>, kept: bool)
    requires host.isSubclass(found, base)
    requires importSubmodule("appregister", "questions") == Absent
    requires importSubmodule("test_appregister", "questions") == Loaded([found])
    requires importSubmodule("appregister", "questions_error") == Absent
    requires importSubmodule("test_appregister", "questions_error") == Broken([])
    ensures discovered == Ok(()) && has
    ensures broken == Err(ImportFailed("test_appregister")) && kept
  {
    var registry := new Registry(ClassObject(base), host, "questions");
    var apps := ["appregister", "test_appregister"];
    assert apps == ["appregister"] + ["test_appregister"] + [];
    Identity.AutodiscoverSingleProvider(host, ["appregister"], "test_appregister", [], "questions", importSubmodule,
                                        registry.View(), [found]);
    discovered := registry.Autodiscover(apps, "", importSubmodule);
    has := found in registry.All();
    broken := registry.Autodiscover(apps, "questions_error", importSubmodule);
    kept := found in registry.All();
  }

  /** Named registration directly and through the decorator form; a taken
      name is refused, with `AttributeError` when no class is given. */
  method NamedRegistrations<T(==)>(host: Host<T>, base: T, mine: T, other: T)
    returns (direct: Result<Registration<T>>, deferred: Result<Registration<T>>,
             decorated: Result<Registration<T>>, taken: Result<Registration<T>>,
             takenNoClass: Result<Registration<T>>, looked: Result<T>)
    requires host.isSubclass(mine, base) && host.isSubclass(other, base)
    ensures direct == Ok(Registered(mine)) && deferred == Ok(Decorator("b"))
    ensures decorated == Ok(Registered(mine)) && taken == Err(AlreadyRegistered)
    ensures takenNoClass == Err(AttributeError) && looked == Ok(mine)
  {
    var registry := new NamedRegistry(ClassObject(base), host, "questions");
    direct := registry.Register("a", Some(mine));
    deferred := registry.Register("b", None);
    decorated := registry.CallDecorator(deferred.value, Some(mine));
    taken := registry.Register("a", Some(other));
    takenNoClass := registry.Register("a", None);
    looked := registry.GetItem("b");
  }
}
