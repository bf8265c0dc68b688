// SnapshotSettingsBuilder: a factory for settings objects plus a list of
// initializer actions; Build makes one object, runs the initializers on it in
// the order they were registered, then lets the object apply its defaults.

module SettingsBuilder {
  import opened Wrappers
  import opened Settings

  /** The properties after the first `n` initializers, and the error that stopped them, if one did. */
  function InitializeFirst(start: Config, initializers: seq<Config -> Config>, n: nat): (r: (Config, Option<Error>))
    requires n <= |initializers|
    decreases n
  {
    if n == 0 then (start, None)
    else
      var before := InitializeFirst(start, initializers, n - 1);
      if before.1.Some? then before else Initialized(before.0, initializers[n - 1])
  }

  /** What Build produces: every initializer in order, then the defaults. */
  function Built(start: Config, initializers: seq<Config -> Config>, applyDefaults: Config -> Config): (Config, Option<Error>)
  {
    var r := InitializeFirst(start, initializers, |initializers|);
    if r.1.Some? then r else Initialized(r.0, applyDefaults)
  }

  /** Initializers keep the group a stored value. */
  lemma {:induction false} InitializeFirstValid(start: Config, initializers: seq<Config -> Config>, n: nat)
    requires n <= |initializers| && StoredGroup(start.group)
    ensures StoredGroup(InitializeFirst(start, initializers, n).0.group)
  {
    if n > 0 {
      InitializeFirstValid(start, initializers, n - 1);
    }
  }

  /**
   * A new initializer runs after all the earlier ones, on what they left:
   * whatever it assigns overrides what they assigned.
   */
  lemma InitializeAppended(start: Config, initializers: seq<Config -> Config>, f: Config -> Config)
    ensures var before := InitializeFirst(start, initializers, |initializers|);
      InitializeFirst(start, initializers + [f], |initializers| + 1) ==
        if before.1.Some? then before else Initialized(before.0, f)
  {
    InitializePrefix(start, initializers, [f], |initializers|);
  }

  /** Only the initializers already run matter, not the ones registered after them. */
  lemma {:induction false} InitializePrefix(start: Config, initializers: seq<Config -> Config>, more: seq<Config -> Config>, n: nat)
    requires n <= |initializers|
    ensures InitializeFirst(start, initializers + more, n) == InitializeFirst(start, initializers, n)
  {
    if n > 0 {
      InitializePrefix(start, initializers, more, n - 1);
      assert (initializers + more)[n - 1] == initializers[n - 1];
    }
  }

  /** An initializer that throws stops the rest: no later one runs and the defaults are not applied. */
  lemma {:induction false} InitializeStops(start: Config, initializers: seq<Config -> Config>, k: nat, n: nat)
    requires k <= n <= |initializers| && InitializeFirst(start, initializers, k).1.Some?
    ensures InitializeFirst(start, initializers, n) == InitializeFirst(start, initializers, k)
    decreases n
  {
    if n > k {
      InitializeStops(start, initializers, k, n - 1);
    }
  }

  /**
   * A name the last initializer sets survives Build when the defaults only
   * fill in a name that is missing.
   */
  lemma ExplicitNameSurvives(start: Config, earlier: seq<Config -> Config>, last: Config -> Config,
                              applyDefaults: Config -> Config, name: string)
    requires forall c: Config :: last(c).name == Some(name)
    requires forall c: Config :: c.name.Some? ==> applyDefaults(c).name == c.name
    requires Built(start, earlier + [last], applyDefaults).1.None?
    ensures Built(start, earlier + [last], applyDefaults).0.name == Some(name)
  {
    InitializeAppended(start, earlier, last);
  }

  class SnapshotSettingsBuilder {
    /** The settings factory: each call makes a new settings object with these property values. */
    const factory: () -> Config
    var initializers: seq<Config -> Config>

    predicate Valid()
      reads this
    {
      StoredGroup(factory().group)
    }

    constructor (factory: () -> Config)
      requires StoredGroup(factory().group)
      ensures Valid() && this.factory == factory && initializers == []
    {
      this.factory := factory;
      initializers := [];
    }

    /** WithSettings: a null initializer is refused; any other joins the end of the list, and the builder is returned. */
    method WithSettings(initializer: Option<Config -> Config>) returns (r: SnapshotSettingsBuilder?, err: Option<Error>)
      modifies this
      ensures initializer.None? ==> r == null && err == Some(ArgumentNull("settingsInitializer")) && initializers == old(initializers)
      ensures initializer.Some? ==> r == this && err == None && initializers == old(initializers) + [initializer.value]
    {
      if initializer.None? {
        return null, Some(ArgumentNull("settingsInitializer"));
      }
      initializers := initializers + [initializer.value];
      return this, None;
    }

    /**
     * Build: a fresh settings object from the factory, every initializer in
     * registration order, then the object's own defaults; the list of
     * initializers is left as it is.
     */
    method Build(applyDefaults: Config -> Config) returns (s: SnapshotSettings, err: Option<Error>)
      requires Valid()
      ensures fresh(s) && s.Valid() && s.messageWriter == null
      ensures s.Properties() == Built(factory(), initializers, applyDefaults).0
      ensures err == Built(factory(), initializers, applyDefaults).1
    {
      s := new SnapshotSettings.FromConfig(factory());
      err := None;
      var i := 0;
      while i < |initializers|
        invariant 0 <= i <= |initializers| && s.Valid() && s.messageWriter == null
        invariant (s.Properties(), err) == InitializeFirst(factory(), initializers, i) && err.None?
      {
        err := s.Apply(initializers[i]);
        i := i + 1;
        if err.Some? {
          InitializeStops(factory(), initializers, i, |initializers|);
          return;
        }
      }
      err := s.Apply(applyDefaults);
    }
  }
}
