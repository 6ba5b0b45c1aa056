/** The options of the virtual-workspaces server: the admission plugin
    configuration built at construction, the validation that collects the
    errors of every sub-option, and the composition of the virtual
    workspaces the two builders produce, merged under unique names. */
module VirtualOptions {
  import opened Wrappers
  import opened Workspaces

  /** Concatenates `sets` in order, failing on the first workspace whose
      name was already seen, including a repeat inside one list. */
  method Merge<V>(sets: seq<seq<NamedVirtualWorkspace<V>>>) returns (r: Result<seq<NamedVirtualWorkspace<V>>, Error>)
    ensures r == Merged(sets)
    ensures r.Success? ==> r.value == Flatten(sets) && NamesDistinct(r.value)
    ensures r.Failure? <==> !NamesDistinct(Flatten(sets))
  {
    var workspaces: seq<NamedVirtualWorkspace<V>> := [];
    var seen: map<string, bool> := map[];
    for i := 0 to |sets|
      invariant workspaces == Flatten(sets[..i])
      invariant NamesDistinct(workspaces)
      invariant forall n | n in seen :: seen[n]
      invariant seen.Keys == NameSet(workspaces)
    {
      var list := sets[i];
      assert workspaces + list[..0] == workspaces;
      for j := 0 to |list|
        invariant NamesDistinct(workspaces + list[..j])
        invariant forall n | n in seen :: seen[n]
        invariant seen.Keys == NameSet(workspaces + list[..j])
      {
        var vw := list[j];
        assert list[..j + 1] == list[..j] + [vw];
        assert workspaces + list[..j + 1] == (workspaces + list[..j]) + [vw];
        if vw.name in seen && seen[vw.name] {
          DuplicateIsFirst(sets, i, j);
          return Failure(DuplicateVirtualWorkspace(vw.name));
        }
        DistinctSnoc(workspaces + list[..j], vw);
        NameSetSnoc(workspaces + list[..j], vw);
        seen := seen[vw.name := true];
      }
      assert list[..|list|] == list;
      assert sets[..i + 1][..i] == sets[..i];
      workspaces := workspaces + list;
    }
    assert sets[..|sets|] == sets;
    return Success(workspaces);
  }

  /** The element scanned at list `i`, position `j`, when its name already
      occurs earlier, is the first duplicate of the whole merge. */
  lemma DuplicateIsFirst<V>(sets: seq<seq<NamedVirtualWorkspace<V>>>, i: nat, j: nat)
    requires i < |sets| && j < |sets[i]|
    requires NamesDistinct(Flatten(sets[..i]) + sets[i][..j])
    requires sets[i][j].name in NameSet(Flatten(sets[..i]) + sets[i][..j])
    ensures Merged(sets) == Failure(DuplicateVirtualWorkspace(sets[i][j].name))
  {
    var before := Flatten(sets[..i]) + sets[i][..j];
    assert sets == sets[..i] + [sets[i]] + sets[i + 1..];
    FlattenAppend(sets[..i] + [sets[i]], sets[i + 1..]);
    FlattenAppend(sets[..i], [sets[i]]);
    assert Flatten([sets[i]]) == sets[i] by {
      assert [sets[i]][..0] == [];
    }
    var all := Flatten(sets);
    var k := |before|;
    assert all == Flatten(sets[..i]) + sets[i] + Flatten(sets[i + 1..]);
    assert all[..k] == before;
    assert all[k] == sets[i][j];
    assert IsFirstDuplicate(all, k);
    FirstDuplicateBreaksDistinct(all, k);
    FirstDuplicateUnique(all, k, FirstDuplicate(all).value);
  }

  /** The two builders of virtual workspaces, in the order they are invoked. */
  datatype Builder = APIExportBuilder | InitializingWorkspacesBuilder

  /** `s` is obtained from `t` by dropping elements, keeping the rest in
      their order. */
  predicate SubsequenceOf(s: seq<string>, t: seq<string>)
    decreases |t|
  {
    if s == [] then true
    else if t == [] then false
    else if s[0] == t[0] then SubsequenceOf(s[1..], t[1..])
    else SubsequenceOf(s, t[1..])
  }

  /** The plugins left running: those of `order` that are not disabled, in
      order. */
  function EnabledPlugins(order: seq<string>, disabled: seq<string>): (enabled: seq<string>)
    ensures forall p | p in enabled :: p in order && p !in disabled
    ensures forall p | p in order && p !in disabled :: p in enabled
    ensures SubsequenceOf(enabled, order)
  {
    if order == [] then []
    else if order[0] in disabled then
      var rest := EnabledPlugins(order[1..], disabled);
      assert rest != [] ==> rest[0] != order[0] by {
        if rest != [] { assert rest[0] in rest; }
      }
      rest
    else
      var rest := EnabledPlugins(order[1..], disabled);
      assert ([order[0]] + rest)[1..] == rest;
      [order[0]] + rest
  }

  /** Disabling every plugin of an order leaves none of it on. */
  lemma {:induction false} DisablingAllLeavesNone(order: seq<string>, disabled: seq<string>)
    requires forall p | p in order :: p in disabled
    ensures EnabledPlugins(order, disabled) == []
    decreases |order|
  {
    if order != [] {
      assert order[0] in disabled;
      DisablingAllLeavesNone(order[1..], disabled);
    }
  }

  /** The admission configuration that construction produces runs the
      virtual-workspace plugin alone, provided that plugin is not among the
      plugins registered before it. */
  lemma OnlyVirtualPluginEnabled(registered: seq<string>, pluginName: string)
    requires pluginName !in registered
    ensures EnabledPlugins([pluginName] + registered, registered) == [pluginName]
  {
    assert ([pluginName] + registered)[1..] == registered;
    DisablingAllLeavesNone(registered, registered);
  }

  /** Listing the registry after the virtual plugin is registered would
      disable that plugin as well, leaving no admission plugin running. */
  lemma CaptureAfterRegistrationDisablesAll(registered: seq<string>, pluginName: string)
    ensures EnabledPlugins([pluginName] + (registered + [pluginName]), registered + [pluginName]) == []
  {
    var all := registered + [pluginName];
    assert ([pluginName] + all)[1..] == all;
    assert pluginName in all;
    DisablingAllLeavesNone([pluginName] + all, all);
  }

  /** The generic admission options: the plugin registry's listing, the
      recommended plugin order and the plugins switched off. */
  class AdmissionOptions {
    var plugins: seq<string>
    var recommendedPluginOrder: seq<string>
    var disablePlugins: seq<string>

    /** Admission options whose registry lists `registered`. */
    constructor (registered: seq<string>)
      ensures plugins == registered
      ensures recommendedPluginOrder == [] && disablePlugins == []
    {
      plugins := registered;
      recommendedPluginOrder := [];
      disablePlugins := [];
    }

    /** The names the registry lists. */
    function Registered(): seq<string>
      reads this
    {
      plugins
    }
  }

  /** Every plugin of the recommended order is registered and every
      registered plugin is in the order, and each disabled plugin is one of
      them. */
  predicate OrderCoversRegistry(recommended: seq<string>, registered: seq<string>, disabled: seq<string>)
  {
    && (forall p | p in recommended :: p in registered)
    && (forall p | p in registered :: p in recommended)
    && (forall p | p in disabled :: p in recommended)
  }

  class Options {
    var admission: AdmissionOptions

    /** Builds the options: the plugins registered so far (`registered`,
        the kube defaults) are recorded before the virtual-workspace
        admission plugin `pluginName` is registered; the recommended order
        puts that plugin first and then the defaults, and the defaults are
        all disabled. */
    constructor NewOptions(registered: seq<string>, pluginName: string)
      ensures fresh(admission)
      ensures admission.plugins == registered + [pluginName]
      ensures admission.recommendedPluginOrder == [pluginName] + registered
      ensures admission.disablePlugins == registered
      ensures OrderCoversRegistry(admission.recommendedPluginOrder, admission.plugins, admission.disablePlugins)
      ensures pluginName !in registered ==>
        EnabledPlugins(admission.recommendedPluginOrder, admission.disablePlugins) == [pluginName]
    {
      var a := new AdmissionOptions(registered);
      var defaultPlugins := a.Registered();
      // registration of the virtual-workspace admission plugin
      a.plugins := a.plugins + [pluginName];
      a.recommendedPluginOrder := [pluginName];
      a.recommendedPluginOrder := a.recommendedPluginOrder + defaultPlugins;
      a.disablePlugins := defaultPlugins;
      if pluginName !in registered {
        OnlyVirtualPluginEnabled(registered, pluginName);
      }
      admission := a;
    }

    /** Collects the validation errors of the syncer, APIExport,
        initializing-workspaces and admission options, in that order. */
    method Validate<E>(syncerErrs: seq<E>, apiExportErrs: seq<E>, initializingWorkspacesErrs: seq<E>, admissionErrs: seq<E>)
      returns (errs: seq<E>)
      ensures errs == syncerErrs + apiExportErrs + initializingWorkspacesErrs + admissionErrs
      ensures errs == [] <==>
        syncerErrs == [] && apiExportErrs == [] && initializingWorkspacesErrs == [] && admissionErrs == []
    {
      errs := [];
      errs := errs + syncerErrs;
      errs := errs + apiExportErrs;
      errs := errs + initializingWorkspacesErrs;
      errs := errs + admissionErrs;
    }

    /** Composes the virtual workspaces of the two builders, given what each
        returns. `invoked` lists the builders run, in order: the
        initializing-workspaces builder runs only once the APIExport builder
        has succeeded. */
    method NewVirtualWorkspaces<V>(
      apiExports: Result<seq<NamedVirtualWorkspace<V>>, Error>,
      initializingWorkspaces: Result<seq<NamedVirtualWorkspace<V>>, Error>
    ) returns (r: Result<seq<NamedVirtualWorkspace<V>>, Error>, invoked: seq<Builder>)
      ensures apiExports.Failure? ==> r == Failure(apiExports.error) && invoked == [APIExportBuilder]
      ensures apiExports.Success? ==> invoked == [APIExportBuilder, InitializingWorkspacesBuilder]
      ensures apiExports.Success? && initializingWorkspaces.Failure? ==> r == Failure(initializingWorkspaces.error)
      ensures apiExports.Success? && initializingWorkspaces.Success? ==>
        r == Merged([apiExports.value, initializingWorkspaces.value])
      ensures r.Success? <==>
        && apiExports.Success? && initializingWorkspaces.Success?
        && NamesDistinct(apiExports.value + initializingWorkspaces.value)
      ensures r.Success? ==> r.value == apiExports.value + initializingWorkspaces.value
    {
      invoked := [APIExportBuilder];
      if apiExports.Failure? {
        return Failure(apiExports.error), invoked;
      }
      invoked := invoked + [InitializingWorkspacesBuilder];
      if initializingWorkspaces.Failure? {
        return Failure(initializingWorkspaces.error), invoked;
      }
      FlattenPair(apiExports.value, initializingWorkspaces.value);
      r := Merge([apiExports.value, initializingWorkspaces.value]);
    }
  }
}
