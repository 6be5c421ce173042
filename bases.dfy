/** The base class of a registry and its lazy, memoised resolution.

    A registry subclass declares `base` either as a class or as a dotted path
    to one. A path is kept unresolved when the registry is built and is looked
    up the first time a class is validated; the class found is cached in place
    of the path, so the lookup never runs again. */
module Bases {
  import opened Outcomes

  /** What the registry asks of the Python runtime and of Django: `isSubclass`
      stands for `issubclass`, `getCallable` for `get_callable`, which gives
      `None` where the real one raises. */
  datatype Host<!T> = Host(isSubclass: (T, T) -> bool, getCallable: string -> Option<T>)

  /** The `base` attribute as a registry subclass declares it: a class (a
      callable object) or anything else, which is taken as a dotted path. */
  datatype BaseDecl<T> = ClassObject(cls: T) | DottedPath(path: string)

  /** What the registry knows of its base: the class itself, or the path still
      to be looked up (`self.base is None` and `self.base_str` set). */
  datatype BaseRef<T> = Resolved(cls: T) | Unresolved(path: string)

  /** How `__init__` records the declared base: a class is kept as it is, a
      path is set aside for later; nothing is looked up yet. */
  function Declare<T>(decl: BaseDecl<T>): (b: BaseRef<T>)
    ensures b.Resolved? ==> decl == ClassObject(b.cls)
    ensures b.Unresolved? ==> decl == DottedPath(b.path)
  {
    match decl
    case ClassObject(c) => Resolved(c)
    case DottedPath(p) => Unresolved(p)
  }

  /** `get_bases`: the base class, resolving and caching a path on first use. */
  function Resolve<T>(host: Host<T>, b: BaseRef<T>): (r: Step<T, BaseRef<T>>)
    // a class already known is returned as it is and nothing changes
    ensures b.Resolved? ==> r == Step(Ok(b.cls), b)
    // whatever was returned is what is cached from now on
    ensures r.result.Ok? ==> r.state == Resolved(r.result.value)
    // a failed lookup raises and leaves the path to be tried again
    ensures r.result.Err? ==> r.result == Err(ResolveError) && r.state == b
    // a path resolves exactly when the lookup finds a class, and to that class
    ensures b.Unresolved? ==> (r.result.Ok? <==> host.getCallable(b.path).Some?)
    ensures b.Unresolved? && host.getCallable(b.path).Some? ==> r.result == Ok(host.getCallable(b.path).value)
  {
    match b
    case Resolved(c) => Step(Ok(c), b)
    case Unresolved(p) =>
      match host.getCallable(p)
      case Some(c) => Step(Ok(c), Resolved(c))
      case None => Step(Err(ResolveError), b)
  }

  /** `is_valid`: whether `c` is a subclass of the (resolved) base. */
  function Validate<T>(host: Host<T>, b: BaseRef<T>, c: T): (r: Step<bool, BaseRef<T>>)
    // validating changes nothing but the cached base
    ensures r.state == Resolve(host, b).state
    // the answer is always about the base now cached
    ensures r.result.Ok? ==> r.state.Resolved? && r.result.value == host.isSubclass(c, r.state.cls)
    // the only way it raises is an unresolvable base
    ensures r.result.Err? ==> r.result == Err(ResolveError) && r.state == b
    ensures r.result.Ok? <==> Resolve(host, b).result.Ok?
    // once the base is known, validity is `issubclass` against it and nothing changes
    ensures b.Resolved? ==> r == Step(Ok(host.isSubclass(c, b.cls)), b)
  {
    var found := Resolve(host, b);
    match found.result
    case Ok(base) => Step(Ok(host.isSubclass(c, base)), found.state)
    case Err(e) => Step(Err(e), found.state)
  }

  /** Once resolved, the base is never looked up again: a second resolution
      gives the same class and the same state whatever `get_callable` would
      now answer. */
  lemma ResolveIsMemoized<T>(host: Host<T>, later: Host<T>, b: BaseRef<T>)
    requires Resolve(host, b).result.Ok?
    ensures Resolve(later, Resolve(host, b).state) == Resolve(host, b)
  {
  }

  /** A registry declared with a path behaves, from its first resolution on,
      exactly like one declared with the class the path names. */
  lemma DeferredMatchesConcrete<T>(host: Host<T>, path: string, base: T, c: T)
    requires host.getCallable(path) == Some(base)
    ensures Resolve(host, Declare(DottedPath(path))) == Resolve(host, Declare(ClassObject(base)))
    ensures Validate(host, Unresolved(path), c) == Validate(host, Resolved(base), c)
  {
  }

  /** The base-handling half of `BaseRegistry`: the cached `base` and the two
      operations that read it. Both registries own one of these. */
  class BaseResolver<T> {
    const host: Host<T>
    var base: BaseRef<T>

    /** The part of `__init__` that decides whether `base` is a path. */
    constructor (decl: BaseDecl<T>, host: Host<T>)
      ensures this.host == host && base == Declare(decl)
    {
      this.host := host;
      base := Declare(decl);
    }

    /** `get_bases`. */
    method GetBases() returns (r: Result<T>)
      modifies this`base
      ensures Step(r, base) == Resolve(host, old(base))
    {
      if base.Resolved? {
        return Ok(base.cls);
      }
      var found := host.getCallable(base.path);
      if found.None? {
        return Err(ResolveError);
      }
      base := Resolved(found.value);
      return Ok(found.value);
    }

    /** `is_valid`. */
    method IsValid(c: T) returns (r: Result<bool>)
      modifies this`base
      ensures Step(r, base) == Validate(host, old(base), c)
    {
      var b := GetBases();
      if b.Err? {
        return Err(b.error);
      }
      return Ok(host.isSubclass(c, b.value));
    }
  }
}
