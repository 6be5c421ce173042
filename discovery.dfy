/** Auto-discovery: importing a submodule of every installed application so
    that its top-level code registers classes.

    The host's import machinery is not modelled. What importing
    `<app>.<submodule>` does is given as an `ImportOutcome`; the registrations
    the submodule's code performs are a sequence of actions, and how a registry
    carries out such a sequence is passed in as `run`. The scan is generic in
    both, so the plain and the named registry share it. */
module Discovery {
  import opened Outcomes

  /** What `import_module(".<submodule>", app)` does for one application. */
  datatype ImportOutcome<A> =
      /** The application has no such submodule: the `ImportError` is swallowed. */
    | Absent
      /** The submodule exists and its code performs `actions` in order. */
    | Loaded(actions: seq<A>)
      /** The submodule exists, performs `actions`, then fails with an
          `ImportError` of its own, which `module_has_submodule` tells apart
          from absence, so it is re-raised. */
    | Broken(actions: seq<A>)

  /** `if not module: module = self.discovermodule`: an empty (falsy) name
      selects the registry's default submodule. */
  function Submodule(requested: string, discoverModule: string): (m: string)
    // a name that was given is used as it is
    ensures requested != "" ==> m == requested
    // the submodule is never empty unless the registry's default is
    ensures m == "" ==> discoverModule == ""
    ensures m == requested || m == discoverModule
  {
    if requested == "" then discoverModule else requested
  }

  predicate RaisesImportFailed<R>(r: Result<R>) {
    r.Err? && r.error.ImportFailed?
  }

  /** The `for app in settings.INSTALLED_APPS` loop of `autodiscover`, from
      state `s`: visits the applications in order, skips an absent submodule,
      and stops at the first exception, keeping every registration made
      before it. */
  function Scan<A, S>(apps: seq<string>, submodule: string,
                      importSubmodule: (string, string) -> ImportOutcome<A>,
                      run: (S, seq<A>) -> Step<(), S>, s: S): (r: Step<(), S>)
    // a scan that raised nothing met no broken submodule on the way
    ensures r.result.Ok? ==> forall i :: 0 <= i < |apps| ==> !importSubmodule(apps[i], submodule).Broken?
    decreases |apps|
  {
    if apps == [] then Step(Ok(()), s)
    else
      match importSubmodule(apps[0], submodule)
      case Absent => Scan(apps[1..], submodule, importSubmodule, run, s)
      case Loaded(actions) =>
        var t := run(s, actions);
        if t.result.Err? then t else Scan(apps[1..], submodule, importSubmodule, run, t.state)
      case Broken(actions) =>
        var t := run(s, actions);
        if t.result.Err? then t else Step(Err(ImportFailed(apps[0])), t.state)
  }

  /** The applications are visited strictly in order: scanning `front + back`
      is scanning `front` and then, only if that raised nothing, `back`. */
  lemma {:induction false} ScanAppend<A, S>(front: seq<string>, back: seq<string>, submodule: string,
                                             importSubmodule: (string, string) -> ImportOutcome<A>,
                                             run: (S, seq<A>) -> Step<(), S>, s: S)
    ensures Scan(front + back, submodule, importSubmodule, run, s) ==
            var t := Scan(front, submodule, importSubmodule, run, s);
            if t.result.Err? then t else Scan(back, submodule, importSubmodule, run, t.state)
    decreases |front|
  {
    if front == [] {
      assert front + back == back;
    } else {
      assert (front + back)[0] == front[0];
      assert (front + back)[1..] == front[1..] + back;
      match importSubmodule(front[0], submodule)
      case Absent =>
        ScanAppend(front[1..], back, submodule, importSubmodule, run, s);
      case Loaded(actions) =>
        var t := run(s, actions);
        if t.result.Ok? {
          ScanAppend(front[1..], back, submodule, importSubmodule, run, t.state);
        }
      case Broken(actions) =>
    }
  }

  /** Applications without the submodule are skipped: if none has it, the
      scan raises nothing and registers nothing. */
  lemma {:induction false} ScanAllAbsent<A, S>(apps: seq<string>, submodule: string,
                                                importSubmodule: (string, string) -> ImportOutcome<A>,
                                                run: (S, seq<A>) -> Step<(), S>, s: S)
    requires forall i :: 0 <= i < |apps| ==> importSubmodule(apps[i], submodule).Absent?
    ensures Scan(apps, submodule, importSubmodule, run, s) == Step(Ok(()), s)
    decreases |apps|
  {
    if apps != [] {
      assert importSubmodule(apps[0], submodule).Absent?;
      ScanAllAbsent(apps[1..], submodule, importSubmodule, run, s);
    }
  }

  /** Scanning a single application whose submodule loads is running that
      submodule's registrations. */
  lemma ScanLoadedOne<A, S>(app: string, submodule: string,
                            importSubmodule: (string, string) -> ImportOutcome<A>,
                            run: (S, seq<A>) -> Step<(), S>, s: S, actions: seq<A>)
    requires importSubmodule(app, submodule) == Loaded(actions)
    ensures Scan([app], submodule, importSubmodule, run, s) == run(s, actions)
  {
    var t := run(s, actions);
    assert [app][0] == app && [app][1..] == [];
    if t.result.Ok? {
      assert Scan([app], submodule, importSubmodule, run, s) == Scan([], submodule, importSubmodule, run, t.state);
      match t.result.value { case () => }
    }
  }

  /** When exactly one application has the submodule, the scan does exactly
      what that submodule's code does, wherever the application stands. */
  lemma ScanSingleProvider<A, S>(before: seq<string>, app: string, after: seq<string>, submodule: string,
                                 importSubmodule: (string, string) -> ImportOutcome<A>,
                                 run: (S, seq<A>) -> Step<(), S>, s: S, actions: seq<A>)
    requires forall i :: 0 <= i < |before| ==> importSubmodule(before[i], submodule).Absent?
    requires forall i :: 0 <= i < |after| ==> importSubmodule(after[i], submodule).Absent?
    requires importSubmodule(app, submodule) == Loaded(actions)
    ensures Scan(before + [app] + after, submodule, importSubmodule, run, s) == run(s, actions)
  {
    var t := run(s, actions);
    ScanAllAbsent(before, submodule, importSubmodule, run, s);
    ScanAppend(before, [app], submodule, importSubmodule, run, s);
    ScanLoadedOne(app, submodule, importSubmodule, run, s, actions);
    ScanAppend(before + [app], after, submodule, importSubmodule, run, s);
    if t.result.Ok? {
      ScanAllAbsent(after, submodule, importSubmodule, run, t.state);
    }
  }

  /** A submodule that exists but fails to import ends the scan with its
      error; no later application is visited, and what earlier ones
      registered stays registered. */
  lemma ScanStopsAtBroken<A, S>(before: seq<string>, app: string, after: seq<string>, submodule: string,
                                importSubmodule: (string, string) -> ImportOutcome<A>,
                                run: (S, seq<A>) -> Step<(), S>, s: S, actions: seq<A>)
    requires Scan(before, submodule, importSubmodule, run, s).result.Ok?
    requires importSubmodule(app, submodule) == Broken(actions)
    ensures var t := run(Scan(before, submodule, importSubmodule, run, s).state, actions);
            Scan(before + [app] + after, submodule, importSubmodule, run, s) ==
            if t.result.Err? then t else Step(Err(ImportFailed(app)), t.state)
  {
    ScanAppend(before + [app], after, submodule, importSubmodule, run, s);
    ScanAppend(before, [app], submodule, importSubmodule, run, s);
  }

  /** An `ImportError` never escapes for an application that lacks the
      submodule: when the scan raises one, it names an application of the
      list whose submodule exists and is broken (provided the registrations
      themselves raise no import error). */
  lemma {:induction false} ImportErrorsComeFromBrokenApps<A, S>(apps: seq<string>, submodule: string,
                                                                importSubmodule: (string, string) -> ImportOutcome<A>,
                                                                run: (S, seq<A>) -> Step<(), S>, s: S)
    requires forall t, actions :: !RaisesImportFailed(run(t, actions).result)
    ensures var r := Scan(apps, submodule, importSubmodule, run, s).result;
            RaisesImportFailed(r) ==> r.error.app in apps && importSubmodule(r.error.app, submodule).Broken?
    decreases |apps|
  {
    if apps != [] {
      match importSubmodule(apps[0], submodule)
      case Absent =>
        ImportErrorsComeFromBrokenApps(apps[1..], submodule, importSubmodule, run, s);
      case Loaded(actions) =>
        var t := run(s, actions);
        if t.result.Ok? {
          ImportErrorsComeFromBrokenApps(apps[1..], submodule, importSubmodule, run, t.state);
        }
      case Broken(actions) =>
        assert !RaisesImportFailed(run(s, actions).result);
        assert apps[0] in apps;
    }
  }

  /** There is no rollback: any property of the state that every
      submodule's registrations keep, whether they raise or not, still holds
      when the scan ends, including when it ends with an exception. */
  lemma {:induction false} ScanPreserves<A, S>(apps: seq<string>, submodule: string,
                                                importSubmodule: (string, string) -> ImportOutcome<A>,
                                                run: (S, seq<A>) -> Step<(), S>, s: S, keeps: S -> bool)
    requires keeps(s)
    requires forall t, actions :: keeps(t) ==> keeps(run(t, actions).state)
    ensures keeps(Scan(apps, submodule, importSubmodule, run, s).state)
    decreases |apps|
  {
    if apps != [] {
      match importSubmodule(apps[0], submodule)
      case Absent =>
        ScanPreserves(apps[1..], submodule, importSubmodule, run, s, keeps);
      case Loaded(actions) =>
        var t := run(s, actions);
        if t.result.Ok? {
          ScanPreserves(apps[1..], submodule, importSubmodule, run, t.state, keeps);
        }
      case Broken(actions) =>
        assert keeps(run(s, actions).state);
    }
  }
}
